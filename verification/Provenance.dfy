/**
 Where records come from: whatever interleaves, a record says what some create call about its
 name asked for, on a node the scheduler chose.
 */
module Provenance {
  import opened Capacity
  import opened Records
  import opened Protocol
  import opened Versions

  predicate Answers(r: Record, created: Int64, req: Request) {
    r.vgPattern == req.vgPattern && r.thin == req.thin && r.shared == req.shared && created == req.size
  }

  /** A create call carries a request that was made. */
  predicate Carries(call: Call, asked: set<Request>) {
    call.CreateGet? || call.CreateWaitGone? || call.CreatePoll? || call.CreateDelete? || call.CreateWaitDestroy?
        || call.CreateProvision?
    ==> call.req in asked
  }

  predicate RecordTraced(v: Volume, asked: set<Request>, nodes: set<string>) {
    v.rec.Some? ==> v.rec.value.owner in nodes && exists req | req in asked :: Answers(v.rec.value, v.hist.created, req)
  }

  /** Only these nodes have the key or a sync of it. */
  predicate KeysWithin(v: Volume, nodes: set<string>) {
    v.queue <= nodes && v.syncs.Keys <= nodes
  }

  predicate Traced(v: Volume, asked: set<Request>, nodes: set<string>) {
    && RecordTraced(v, asked, nodes) && KeysWithin(v, nodes)
    && forall id | id in v.calls :: Carries(v.calls[id], asked)
  }

  function Asked(a: Action): set<Request> {
    if a.Begin? && a.call.CreateGet? then {a.call.req} else {}
  }

  /** The scheduler's choice, on the step that provisions. */
  function Chosen(v: Volume, a: Action): set<string> {
    if a.Step? && a.id in v.calls && v.calls[a.id].CreateProvision? then {a.owner} else {}
  }

  /** A step provisions what a call in flight carries, or leaves the record's origin alone. */
  predicate Continues(v: Volume, v': Volume, nodes: set<string>, now: nat) {
    v'.rec.Some? ==>
      if v'.rec.value.uid < now then v.rec.Some? && v'.hist.created == v.hist.created
      else v'.rec.value.owner in nodes
           && exists id | id in v.calls && v.calls[id].CreateProvision? ::
             Answers(v'.rec.value, v'.hist.created, v.calls[id].req)
  }

  lemma CallContinues(v: Volume, id: nat, owner: string, now: nat)
    requires Versioned(v, now) && id in v.calls
    ensures Continues(v, DoStep(v, id, owner, now), Chosen(v, Step(id, owner)), now)
  {
    assert FreshCall(v, v.calls[id], now);
    var v' := DoStep(v, id, owner, now);
    if v.calls[id].CreateProvision? && v.rec.None? && v'.rec.Some? {
      assert Answers(v'.rec.value, v'.hist.created, v.calls[id].req);
    }
  }

  lemma WriteContinues(matches: Matcher, v: Volume, a: Action, now: nat)
    requires Versioned(v, now) && Enabled(matches, v, a) && (a.Finalize? || a.Assign? || a.Publish?)
    ensures Continues(v, Apply(matches, v, a, now), {}, now) && Apply(matches, v, a, now).calls == v.calls
  {
    assert Fresh(v, v.syncs[a.node].copy, now);
  }

  lemma StepContinues(matches: Matcher, v: Volume, a: Action, now: nat)
    requires Versioned(v, now) && Enabled(matches, v, a)
    ensures Continues(v, Apply(matches, v, a, now), Chosen(v, a), now)
  {
    if a.Step? {
      CallContinues(v, a.id, a.owner, now);
    } else if a.Finalize? || a.Assign? || a.Publish? {
      WriteContinues(matches, v, a, now);
    } else {
      var v' := Apply(matches, v, a, now);
      assert v'.rec == v.rec && v'.hist == v.hist;
    }
  }

  lemma CallsTraced(matches: Matcher, v: Volume, a: Action, now: nat, asked: set<Request>)
    requires Enabled(matches, v, a) && forall id | id in v.calls :: Carries(v.calls[id], asked)
    ensures var v' := Apply(matches, v, a, now); forall id | id in v'.calls :: Carries(v'.calls[id], asked + Asked(a))
  {
    if a.Step? {
      assert Carries(v.calls[a.id], asked);
    } else if !(a.Begin? || a.Validate? || a.Cancel?) {
      assert Apply(matches, v, a, now).calls == v.calls;
    }
  }

  lemma CallKeysStay(v: Volume, id: nat, owner: string, now: nat, nodes: set<string>)
    requires Versioned(v, now) && id in v.calls && KeysWithin(v, nodes) && (v.rec.Some? ==> v.rec.value.owner in nodes)
    ensures KeysWithin(DoStep(v, id, owner, now), nodes + Chosen(v, Step(id, owner)))
  {
    assert FreshCall(v, v.calls[id], now);
  }

  /** Keys go to owners, and back to nodes that have them. */
  lemma KeysStay(matches: Matcher, v: Volume, a: Action, now: nat, nodes: set<string>)
    requires Versioned(v, now) && Enabled(matches, v, a)
    requires KeysWithin(v, nodes) && (v.rec.Some? ==> v.rec.value.owner in nodes)
    ensures KeysWithin(Apply(matches, v, a, now), nodes + Chosen(v, a))
  {
    if a.Step? {
      CallKeysStay(v, a.id, a.owner, now, nodes);
    } else if a.Finalize? || a.Assign? || a.Publish? {
      assert Fresh(v, v.syncs[a.node].copy, now);
    }
  }

  lemma RecordStaysTraced(v: Volume, v': Volume, asked: set<Request>, nodes: set<string>, asked': set<Request>,
                          chosen: set<string>, now: nat)
    requires Traced(v, asked, nodes) && Continues(v, v', chosen, now) && Evolves(v, v', now) && asked <= asked'
    ensures RecordTraced(v', asked', nodes + chosen)
  {
    if v'.rec.Some? && v'.rec.value.uid >= now {
      var id :| id in v.calls && v.calls[id].CreateProvision?
        && Answers(v'.rec.value, v'.hist.created, v.calls[id].req);
      assert Carries(v.calls[id], asked);
    }
  }

  /** The create requests made about a name. */
  function Requests(es: seq<Event>, n: string): set<Request> {
    if es == [] then {} else (if es[0].name == n then Asked(es[0].action) else {}) + Requests(es[1..], n)
  }

  /** The nodes the scheduler chose for it. */
  function Nodes(rules: Rules, matches: Matcher, c: Cluster, es: seq<Event>, n: string): set<string>
    requires Run(rules, matches, c, es)
    decreases |es|
  {
    if es == [] then {}
    else (if es[0].name == n then Chosen(At(c, n), es[0].action) else {})
         + Nodes(rules, matches, Next(matches, c, es[0]), es[1..], n)
  }

  lemma StepTraced(rules: Rules, matches: Matcher, c: Cluster, e: Event, n: string, asked: set<Request>,
                   nodes: set<string>)
    requires AllVersioned(c) && Legal(rules, matches, c, e) && Traced(At(c, n), asked, nodes)
    ensures var v := At(Next(matches, c, e), n);
            if e.name == n then Traced(v, asked + Asked(e.action), nodes + Chosen(At(c, n), e.action))
            else Traced(v, asked, nodes)
  {
    if e.name == n {
      var v, v' := At(c, n), At(Next(matches, c, e), n);
      NextKeepsVersions(rules, matches, c, e);
      StepContinues(matches, v, e.action, c.clock);
      CallsTraced(matches, v, e.action, c.clock, asked);
      KeysStay(matches, v, e.action, c.clock, nodes);
      RecordStaysTraced(v, v', asked, nodes, asked + Asked(e.action), Chosen(At(c, n), e.action), c.clock);
    }
  }

  lemma UnionsRegroup<T>(a: set<T>, b: set<T>, c: set<T>)
    ensures a + b + c == a + (b + c)
  {
  }

  lemma {:induction false} RunTraced(rules: Rules, matches: Matcher, c: Cluster, es: seq<Event>, n: string,
                                     asked: set<Request>, nodes: set<string>)
    requires AllVersioned(c) && Run(rules, matches, c, es) && Traced(At(c, n), asked, nodes)
    ensures Traced(At(Exec(rules, matches, c, es), n), asked + Requests(es, n), nodes + Nodes(rules, matches, c, es, n))
    decreases |es|
  {
    if es == [] {
      assert asked + {} == asked && nodes + {} == nodes;
    } else {
      var c' := Next(matches, c, es[0]);
      var a := if es[0].name == n then Asked(es[0].action) else {};
      var b := if es[0].name == n then Chosen(At(c, n), es[0].action) else {};
      StepTraced(rules, matches, c, es[0], n, asked, nodes);
      NextKeepsVersions(rules, matches, c, es[0]);
      assert asked + {} == asked && nodes + {} == nodes;
      RunTraced(rules, matches, c', es[1..], n, asked + a, nodes + b);
      UnionsRegroup(asked, a, Requests(es[1..], n));
      UnionsRegroup(nodes, b, Nodes(rules, matches, c', es[1..], n));
    }
  }

  /**
   In every reachable state, with no premise, a record has the pattern, the flags and the
   created size of one create request about its name, and an owner the scheduler chose.
   */
  lemma RecordsComeFromRequests(rules: Rules, matches: Matcher, es: seq<Event>, n: string)
    requires Run(rules, matches, INIT, es)
    ensures var v := At(Exec(rules, matches, INIT, es), n);
            v.rec.Some? ==>
              && v.rec.value.owner in Nodes(rules, matches, INIT, es, n)
              && exists req :: req in Requests(es, n) && Answers(v.rec.value, v.hist.created, req)
  {
    RunTraced(rules, matches, INIT, es, n, {}, {});
    assert {} + Requests(es, n) == Requests(es, n);
    assert {} + Nodes(rules, matches, INIT, es, n) == Nodes(rules, matches, INIT, es, n);
  }

  /** In every reachable state, with no premise, only nodes the scheduler chose for a name sync it or have its key. */
  lemma KeysComeFromChoices(rules: Rules, matches: Matcher, es: seq<Event>, n: string)
    requires Run(rules, matches, INIT, es)
    ensures KeysWithin(At(Exec(rules, matches, INIT, es), n), Nodes(rules, matches, INIT, es, n))
  {
    RunTraced(rules, matches, INIT, es, n, {}, {});
    assert {} + Nodes(rules, matches, INIT, es, n) == Nodes(rules, matches, INIT, es, n);
  }
}
