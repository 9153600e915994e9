/**
 The protocol's guarantees over whole runs: crashes, retries, reschedules, deletions and
 re-creations interleave freely, subject to P2 and P3.
 */
module Theorems {
  import opened Records
  import opened Protocol
  import opened Versions
  import opened Safety

  predicate Inv(matches: Matcher, c: Cluster) {
    forall n | n in c.vols :: Sound(matches, c.vols[n]) && Versioned(c.vols[n], c.clock)
  }

  lemma NextKeepsInv(rules: Rules, matches: Matcher, c: Cluster, e: Event)
    requires Inv(matches, c) && rules != Code && Legal(rules, matches, c, e)
    ensures Inv(matches, Next(matches, c, e))
  {
    var v := At(c, e.name);
    NextKeepsVersions(rules, matches, c, e);
    StepSound(matches, v, e.action, c.clock);
  }

  lemma {:induction false} RunKeepsInv(rules: Rules, matches: Matcher, c: Cluster, es: seq<Event>)
    requires Inv(matches, c) && rules != Code && Run(rules, matches, c, es)
    ensures Inv(matches, Exec(rules, matches, c, es))
    decreases |es|
  {
    if es != [] {
      NextKeepsInv(rules, matches, c, es[0]);
      RunKeepsInv(rules, matches, Next(matches, c, es[0]), es[1..]);
    }
  }

  /** No LV without a record that names its node and volume group. */
  predicate LeakFree(c: Cluster) {
    forall n, lv | n in c.vols && lv in c.vols[n].lvs ::
      At(c, n).rec.Some? && lv == Lv(At(c, n).rec.value.owner, At(c, n).rec.value.volGroup)
  }

  /** Leak freedom and uniqueness in every reachable state: a name has at most one LV in the whole cluster. */
  lemma LeakFreedom(rules: Rules, matches: Matcher, es: seq<Event>)
    requires rules != Code && Run(rules, matches, INIT, es)
    ensures LeakFree(Exec(rules, matches, INIT, es))
    ensures forall n, a, b | a in At(Exec(rules, matches, INIT, es), n).lvs
      && b in At(Exec(rules, matches, INIT, es), n).lvs :: a == b
  {
    RunKeepsInv(rules, matches, INIT, es);
  }

  /** What callers and nodes can see to themselves: delete what has left Pending, sync what the node owns. */
  predicate Careful(v: Volume, a: Action) {
    v.rec.Some? ==>
      && (a.Start? ==> v.rec.value.owner == a.node)
      && (a.Step? && a.id in v.calls && Deletes(v.calls[a.id]) ==> Deletable(v.rec.value))
  }

  /** A run of the code in which every step is careful. */
  predicate CarefulRun(matches: Matcher, c: Cluster, es: seq<Event>)
    decreases |es|
  {
    es != [] ==>
      && Legal(Code, matches, c, es[0]) && Careful(At(c, es[0].name), es[0].action)
      && CarefulRun(matches, Next(matches, c, es[0]), es[1..])
  }

  lemma CarefulStepIsLegal(matches: Matcher, c: Cluster, e: Event)
    requires Inv(matches, c) && Legal(Code, matches, c, e) && Careful(At(c, e.name), e.action)
    ensures Legal(Premises, matches, c, e)
  {
    var v := At(c, e.name);
    if v.rec.Some? && Deletable(v.rec.value) {
      DeletableSuffices(matches, v);
    }
  }

  lemma {:induction false} CarefulRunIsRun(matches: Matcher, c: Cluster, es: seq<Event>)
    requires Inv(matches, c) && CarefulRun(matches, c, es)
    ensures Run(Premises, matches, c, es)
    decreases |es|
  {
    if es != [] {
      CarefulStepIsLegal(matches, c, es[0]);
      NextKeepsInv(Premises, matches, c, es[0]);
      CarefulRunIsRun(matches, Next(matches, c, es[0]), es[1..]);
    }
  }

  /** Leak freedom of the code under conditions that are visible in the record alone. */
  lemma CarefulRunsAreLeakFree(matches: Matcher, es: seq<Event>)
    requires CarefulRun(matches, INIT, es)
    ensures Run(Premises, matches, INIT, es) && LeakFree(Exec(Premises, matches, INIT, es))
  {
    CarefulRunIsRun(matches, INIT, es);
    LeakFreedom(Premises, matches, es);
  }

  /** What Ready and Failed stand for, in every reachable state. */
  lemma StatesMeanWhatTheySay(rules: Rules, matches: Matcher, es: seq<Event>, n: string)
    requires rules != Code && Run(rules, matches, INIT, es)
    requires At(Exec(rules, matches, INIT, es), n).rec.Some?
    ensures var v := At(Exec(rules, matches, INIT, es), n);
            var r := v.rec.value;
            && (r.state == Ready && !r.marked ==>
                  && r.finalizer && r.volGroup != "" && matches(r.vgPattern, r.volGroup)
                  && v.lvs == {Lv(r.owner, r.volGroup)})
            && (r.state == Failed ==> r.error.Some? && !r.finalizer && v.lvs == {})
            && (r.marked ==> r.state == Ready && r.finalizer)
  {
    RunKeepsInv(rules, matches, INIT, es);
  }

  /** A record goes only when it has no LV, an LV goes only from a marked record, and a marked record gets no new LV. */
  predicate Orderly(v: Volume, v': Volume) {
    && (v.rec.Some? && v'.rec.None? ==> v.lvs == {})
    && (!(v.lvs <= v'.lvs) ==> v.rec.Some? && v.rec.value.marked)
    && (v.rec.Some? && v.rec.value.marked ==> v'.lvs <= v.lvs)
  }

  lemma AgentWriteOrderly(matches: Matcher, v: Volume, a: Action, now: nat)
    requires Sound(matches, v) && Versioned(v, now) && Enabled(matches, v, a)
    requires a.Finalize? || a.Assign? || a.Publish?
    ensures Orderly(v, Apply(matches, v, a, now))
  {
    assert SyncSound(matches, v, a.node, v.syncs[a.node]) && Fresh(v, v.syncs[a.node].copy, now);
  }

  lemma CallOrderly(matches: Matcher, v: Volume, id: nat, owner: string, now: nat)
    requires Sound(matches, v) && Versioned(v, now) && id in v.calls && (Deletes(v.calls[id]) ==> CanDelete(v))
    ensures Orderly(v, DoStep(v, id, owner, now))
  {
    assert FreshCall(v, v.calls[id], now);
    assert DoStep(v, id, owner, now).lvs == v.lvs;
  }

  lemma StepOrderly(matches: Matcher, v: Volume, a: Action, now: nat)
    requires Sound(matches, v) && Versioned(v, now) && Enabled(matches, v, a) && Premise(v, a)
    ensures Orderly(v, Apply(matches, v, a, now))
  {
    match a
    case Destroy(node, ok) => DestroySound(matches, v, node, ok, now);
    case Create(node, _, _) => assert SyncSound(matches, v, node, v.syncs[node]);
    case Step(id, owner) => CallOrderly(matches, v, id, owner, now);
    case Finalize(_) => AgentWriteOrderly(matches, v, a, now);
    case Assign(_) => AgentWriteOrderly(matches, v, a, now);
    case Publish(_) => AgentWriteOrderly(matches, v, a, now);
    case _ => assert Apply(matches, v, a, now).rec == v.rec && Apply(matches, v, a, now).lvs == v.lvs;
  }

  /** Every step of every run keeps the order of deletion. */
  lemma DeletionOrder(rules: Rules, matches: Matcher, c: Cluster, e: Event, n: string)
    requires Inv(matches, c) && rules != Code && Legal(rules, matches, c, e)
    ensures Orderly(At(c, n), At(Next(matches, c, e), n))
  {
    StepOrderly(matches, At(c, e.name), e.action, c.clock);
  }

  /** Once a record is marked, no run creates an LV for it. */
  lemma {:induction false} MarkedOnlyShrinks(rules: Rules, matches: Matcher, c: Cluster, es: seq<Event>, n: string)
    requires Inv(matches, c) && rules != Code && Run(rules, matches, c, es)
    requires At(c, n).rec.Some? && At(c, n).rec.value.marked
    ensures var v' := At(Exec(rules, matches, c, es), n);
            v'.rec.Some? && v'.rec.value.uid < c.clock ==> v'.lvs <= At(c, n).lvs
    decreases |es|
  {
    if es != [] {
      var c1 := Next(matches, c, es[0]);
      NextKeepsInv(rules, matches, c, es[0]);
      NextKeepsVersions(rules, matches, c, es[0]);
      DeletionOrder(rules, matches, c, es[0], n);
      NoLostUpdates(rules, matches, c1, es[1..]);
      if At(c1, n).rec.Some? && At(c1, n).rec.value.uid < c.clock {
        MarkedOnlyShrinks(rules, matches, c1, es[1..], n);
      }
    }
  }

  // ----- Runs about one name, written out state by state -----

  /** `a` takes `v` to `v'`. */
  predicate Takes(rules: Rules, matches: Matcher, v: Volume, a: Action, now: nat, v': Volume) {
    VolumeLegal(rules, matches, v, a) && v' == Apply(matches, v, a, now)
  }

  predicate Path(rules: Rules, matches: Matcher, vs: seq<Volume>, acts: seq<Action>, now: nat) {
    && |vs| == |acts| + 1
    && forall i | 0 <= i < |acts| :: Takes(rules, matches, vs[i], acts[i], now + i, vs[i + 1])
  }

  function On(n: string, acts: seq<Action>): seq<Event> {
    seq(|acts|, i requires 0 <= i < |acts| => Event(n, acts[i]))
  }

  /** A path grows at its end. */
  lemma PathGrows(rules: Rules, matches: Matcher, vs: seq<Volume>, acts: seq<Action>, now: nat, a: Action, v: Volume)
    requires Path(rules, matches, vs, acts, now) && Takes(rules, matches, vs[|acts|], a, now + |acts|, v)
    ensures Path(rules, matches, vs + [v], acts + [a], now)
  {
    var vs', acts' := vs + [v], acts + [a];
    forall i | 0 <= i < |acts'|
      ensures Takes(rules, matches, vs'[i], acts'[i], now + i, vs'[i + 1])
    {
      assert i < |acts| ==> Takes(rules, matches, vs[i], acts[i], now + i, vs[i + 1]);
    }
  }

  /** Two paths that meet make one. */
  lemma PathsJoin(rules: Rules, matches: Matcher, vs: seq<Volume>, acts: seq<Action>, us: seq<Volume>,
                  more: seq<Action>, now: nat)
    requires Path(rules, matches, vs, acts, now) && Path(rules, matches, us, more, now + |acts|) && us[0] == vs[|acts|]
    ensures Path(rules, matches, vs + us[1..], acts + more, now)
    ensures (vs + us[1..])[|acts| + |more|] == us[|more|]
  {
    var ws, all := vs + us[1..], acts + more;
    forall i | 0 <= i < |all|
      ensures Takes(rules, matches, ws[i], all[i], now + i, ws[i + 1])
    {
      if i < |acts| {
        assert ws[i] == vs[i] && all[i] == acts[i] && ws[i + 1] == vs[i + 1];
      } else {
        var j := i - |acts|;
        assert ws[i] == us[j] && all[i] == more[j] && ws[i + 1] == us[j + 1] && now + i == now + |acts| + j;
      }
    }
  }

  lemma PathTail(rules: Rules, matches: Matcher, vs: seq<Volume>, acts: seq<Action>, now: nat)
    requires Path(rules, matches, vs, acts, now) && acts != []
    ensures Takes(rules, matches, vs[0], acts[0], now, vs[1])
    ensures Path(rules, matches, vs[1..], acts[1..], now + 1)
  {
    assert Takes(rules, matches, vs[0], acts[0], now + 0, vs[1]);
    forall i | 0 <= i < |acts[1..]|
      ensures Takes(rules, matches, vs[1..][i], acts[1..][i], now + 1 + i, vs[1..][i + 1])
    {
      assert Takes(rules, matches, vs[i + 1], acts[i + 1], now + (i + 1), vs[i + 2]);
    }
  }

  /** The first step of a path, and the rest. */
  lemma PathSplits(rules: Rules, matches: Matcher, vs: seq<Volume>, acts: seq<Action>, now: nat)
    returns (v: Volume, us: seq<Volume>, more: seq<Action>)
    requires Path(rules, matches, vs, acts, now) && acts != []
    ensures Takes(rules, matches, vs[0], acts[0], now, v) && |more| + 1 == |acts|
    ensures Path(rules, matches, us, more, now + 1) && us[0] == v && us[|more|] == vs[|acts|]
    ensures forall a | a in more :: a in acts
  {
    PathTail(rules, matches, vs, acts, now);
    v, us, more := vs[1], vs[1..], acts[1..];
  }

  lemma {:induction false} PathIsRun(rules: Rules, matches: Matcher, c: Cluster, n: string, vs: seq<Volume>,
                                     acts: seq<Action>)
    requires Path(rules, matches, vs, acts, c.clock) && vs[0] == At(c, n)
    ensures Run(rules, matches, c, On(n, acts))
    ensures At(Exec(rules, matches, c, On(n, acts)), n) == vs[|acts|]
    decreases |acts|
  {
    if acts != [] {
      PathTail(rules, matches, vs, acts, c.clock);
      var c1 := Next(matches, c, Event(n, acts[0]));
      assert On(n, acts)[1..] == On(n, acts[1..]);
      PathIsRun(rules, matches, c1, n, vs[1..], acts[1..]);
    }
  }

  /** A path under the premises keeps the invariant of its volume. */
  lemma {:induction false} PathKeepsSound(rules: Rules, matches: Matcher, vs: seq<Volume>, acts: seq<Action>, now: nat)
    requires rules != Code && Path(rules, matches, vs, acts, now) && Sound(matches, vs[0]) && Versioned(vs[0], now)
    ensures Sound(matches, vs[|acts|]) && Versioned(vs[|acts|], now + |acts|)
    decreases |acts|
  {
    if acts != [] {
      var v, us, more := PathSplits(rules, matches, vs, acts, now);
      StepSound(matches, vs[0], acts[0], now);
      StepStamps(matches, vs[0], acts[0], now);
      StampedKeepsVersions(vs[0], v, now);
      PathKeepsSound(rules, matches, us, more, now + 1);
    }
  }

  function Resynced(v: Volume, node: string): Volume {
    Crashed(v, node).(queue := v.queue + {node})
  }

  /** An agent that restarts finds its records again and syncs them. */
  lemma RestartTakes(matches: Matcher, v: Volume, node: string, now: nat)
    requires v.rec.Some? && v.rec.value.owner == node
    ensures Takes(Serial, matches, v, Crash(node), now, Crashed(v, node))
    ensures Takes(Serial, matches, Crashed(v, node), Resync(node), now + 1, Resynced(v, node))
    ensures Takes(Serial, matches, Resynced(v, node), Start(node), now + 2, DoStart(Crashed(v, node), node))
  {
    assert v.queue - {node} + {node} == v.queue + {node};
    assert v.queue + {node} - {node} == v.queue - {node} - {node};
  }

  /** The agent's own way out of a half-finished deletion: restart, sync again. */
  function Repair(node: string): seq<Action> {
    [Crash(node), Resync(node), Start(node), Destroy(node, true), Finalize(node)]
  }

  lemma RepairTakes(matches: Matcher, v: Volume, v3: Volume, now: nat)
    requires Sound(matches, v) && v.rec.Some? && v.rec.value.marked
    requires v3 == DoStart(Crashed(v, v.rec.value.owner), v.rec.value.owner)
    ensures var node := v.rec.value.owner;
            var v4 := DoDestroy(v3, node, true);
            var v5 := DoFinalize(v4, node, now + 4);
            && Takes(Serial, matches, v3, Destroy(node, true), now + 3, v4)
            && Takes(Serial, matches, v4, Finalize(node), now + 4, v5)
            && v5.rec.None? && v5.lvs == {}
  {
    var r := v.rec.value;
    assert v3.syncs[r.owner] == Sync(Destroying, r) && v3.lvs == v.lvs && v3.rec == v.rec;
    assert v.lvs - {Lv(r.owner, r.volGroup)} == {};
    var v4 := DoDestroy(v3, r.owner, true);
    assert v4.lvs == {} && v4.rec == v.rec && v4.syncs[r.owner] == Sync(Finalizing, r);
  }

  /** Whatever a deletion was interrupted at, re-running the owner's sync finishes it. */
  lemma DeletionIsRepairable(matches: Matcher, c: Cluster, n: string)
    requires Inv(matches, c) && At(c, n).rec.Some? && At(c, n).rec.value.marked
    ensures var es := On(n, Repair(At(c, n).rec.value.owner));
            && Run(Serial, matches, c, es)
            && At(Exec(Serial, matches, c, es), n).rec.None?
            && At(Exec(Serial, matches, c, es), n).lvs == {}
  {
    var v, now := At(c, n), c.clock;
    var node := v.rec.value.owner;
    var v3 := DoStart(Crashed(v, node), node);
    RestartTakes(matches, v, node, now);
    RepairTakes(matches, v, v3, now);
    var v4 := DoDestroy(v3, node, true);
    var vs := [v, Crashed(v, node), Resynced(v, node), v3, v4, DoFinalize(v4, node, now + 4)];
    PathIsRun(Serial, matches, c, n, vs, Repair(node));
  }
}
