/**
 No work is forgotten, with no premise at all: a record that wants something done is on its owner's
 queue, in the owner's hands, or waiting for the owner's agent to come back after a crash.
 */
module WorkQueue {
  import opened Records
  import opened Protocol
  import opened Versions

  predicate HasWork(r: Record) {
    r.state == Pending || r.marked
  }

  /** `down` holds the nodes whose agent crashed and has not listed the record again. */
  predicate Attended(v: Volume, down: set<string>) {
    v.rec.Some? && HasWork(v.rec.value) ==>
      v.rec.value.owner in v.queue || v.rec.value.owner in v.syncs || v.rec.value.owner in down
  }

  /** Only a Ready record has a finalizer, and only one with a finalizer is marked. */
  predicate RecordShaped(r: Record) {
    (r.finalizer ==> r.state == Ready) && (r.marked ==> r.finalizer)
  }

  /** A sync that destroys started from a marked record, one that provisions from a Pending one. */
  predicate Shaped(v: Volume) {
    && (v.rec.Some? ==> RecordShaped(v.rec.value))
    && forall node | node in v.syncs ::
         var y := v.syncs[node];
         && RecordShaped(y.copy)
         && if y.phase.Destroying? || y.phase.Finalizing? then y.copy.marked else y.copy.state == Pending
  }

  function DownAfter(down: set<string>, a: Action): set<string> {
    match a
    case Crash(node) => down + {node}
    case Resync(node) => down - {node}
    case _ => down
  }

  /** The nodes that crashed and did not come back to this name. */
  function Down(es: seq<Event>, n: string, down: set<string>): set<string> {
    if es == [] then down else Down(es[1..], n, if es[0].name == n then DownAfter(down, es[0].action) else down)
  }

  lemma SyncStepAttended(matches: Matcher, v: Volume, a: Action, now: nat, down: set<string>)
    requires Enabled(matches, v, a) && Attended(v, down) && Shaped(v)
    requires a.Destroy? || a.Create? || a.List?
    ensures var v' := Apply(matches, v, a, now); Attended(v', down) && Shaped(v')
  {
  }

  lemma AssignStepAttended(matches: Matcher, v: Volume, a: Action, now: nat, down: set<string>)
    requires Versioned(v, now) && Enabled(matches, v, a) && Attended(v, down) && Shaped(v) && a.Assign?
    ensures var v' := Apply(matches, v, a, now); Attended(v', down) && Shaped(v')
  {
    assert Fresh(v, v.syncs[a.node].copy, now);
  }

  lemma LastStepAttended(matches: Matcher, v: Volume, a: Action, now: nat, down: set<string>)
    requires Versioned(v, now) && Enabled(matches, v, a) && Attended(v, down) && Shaped(v)
    requires a.Finalize? || a.Publish?
    ensures var v' := Apply(matches, v, a, now); Attended(v', down) && Shaped(v')
  {
    assert Fresh(v, v.syncs[a.node].copy, now);
  }

  lemma AgentStepAttended(matches: Matcher, v: Volume, a: Action, now: nat, down: set<string>)
    requires Enabled(matches, v, a) && Attended(v, down) && Shaped(v)
    requires a.Start? || a.Abort? || a.Crash? || a.Resync?
    ensures var v' := Apply(matches, v, a, now); Attended(v', DownAfter(down, a)) && Shaped(v')
  {
  }

  lemma ExpandStepAttended(v: Volume, id: nat, owner: string, now: nat, down: set<string>)
    requires Versioned(v, now) && id in v.calls && v.calls[id].IsExpand() && Attended(v, down) && Shaped(v)
    ensures var v' := DoStep(v, id, owner, now); Attended(v', down) && Shaped(v')
  {
    assert FreshCall(v, v.calls[id], now);
  }

  lemma CallStepAttended(v: Volume, id: nat, owner: string, now: nat, down: set<string>)
    requires id in v.calls && !v.calls[id].IsExpand() && Attended(v, down) && Shaped(v)
    ensures var v' := DoStep(v, id, owner, now); Attended(v', down) && Shaped(v')
  {
    assert DoStep(v, id, owner, now).syncs == v.syncs;
  }

  lemma StepAttended(matches: Matcher, v: Volume, a: Action, now: nat, down: set<string>)
    requires Versioned(v, now) && Enabled(matches, v, a) && Attended(v, down) && Shaped(v)
    ensures var v' := Apply(matches, v, a, now); Attended(v', DownAfter(down, a)) && Shaped(v')
  {
    if a.Step? && v.calls[a.id].IsExpand() { ExpandStepAttended(v, a.id, a.owner, now, down); }
    else if a.Step? { CallStepAttended(v, a.id, a.owner, now, down); }
    else if a.Assign? { AssignStepAttended(matches, v, a, now, down); }
    else if a.Destroy? || a.Create? || a.List? { SyncStepAttended(matches, v, a, now, down); }
    else if a.Finalize? || a.Publish? { LastStepAttended(matches, v, a, now, down); }
    else if a.Start? || a.Abort? || a.Crash? || a.Resync? { AgentStepAttended(matches, v, a, now, down); }
  }

  /** What happens to a record shows up on its owner's queue: that it appears, changes while marked, or goes. */
  predicate OwnerNotified(v: Volume, v': Volume) {
    && (v'.rec.Some? && (v.rec.None? || (v'.rec != v.rec && v'.rec.value.marked)) ==> v'.rec.value.owner in v'.queue)
    && (v.rec.Some? && v'.rec.None? ==> v.rec.value.owner in v'.queue)
  }

  lemma CallsNotify(v: Volume, id: nat, owner: string, now: nat)
    requires Versioned(v, now) && id in v.calls
    ensures OwnerNotified(v, DoStep(v, id, owner, now))
  {
    assert FreshCall(v, v.calls[id], now);
  }

  /** With no premise, every step that does something of the kind tells the owner. */
  lemma OwnersAreNotified(matches: Matcher, v: Volume, a: Action, now: nat)
    requires Versioned(v, now) && Enabled(matches, v, a)
    ensures OwnerNotified(v, Apply(matches, v, a, now))
  {
    if a.Step? {
      CallsNotify(v, a.id, a.owner, now);
    } else if a.Finalize? || a.Assign? || a.Publish? {
      assert Fresh(v, v.syncs[a.node].copy, now);
    }
  }

  /** A crash loses the key and the sync, and the restart finds the record again: nothing less will do. */
  lemma RestartFindsWork(matches: Matcher, v: Volume, now: nat)
    requires v.rec.Some? && HasWork(v.rec.value)
    ensures var node := v.rec.value.owner;
            var v' := Apply(matches, v, Crash(node), now);
            && !Attended(v', {}) && v'.rec == v.rec
            && Enabled(matches, v', Resync(node)) && Attended(Apply(matches, v', Resync(node), now + 1), {})
  {
  }

  /** Deleting a record again changes nothing, once it is marked or gone. */
  lemma DeletingAgainChangesNothing(v: Volume, now: nat, later: nat)
    requires v.rec.Some?
    ensures var v' := ApiDelete(v, now);
            if v.rec.value.finalizer then v'.rec.Some? && v'.rec.value.marked && ApiDelete(v', later) == v'
            else v'.rec.None?
  {
  }

  lemma {:induction false} RunAttended(rules: Rules, matches: Matcher, c: Cluster, es: seq<Event>, n: string,
                                       down: set<string>)
    requires AllVersioned(c) && Run(rules, matches, c, es) && Attended(At(c, n), down) && Shaped(At(c, n))
    ensures Attended(At(Exec(rules, matches, c, es), n), Down(es, n, down))
    decreases |es|
  {
    if es != [] {
      NextKeepsVersions(rules, matches, c, es[0]);
      var down' := if es[0].name == n then DownAfter(down, es[0].action) else down;
      if es[0].name == n {
        StepAttended(matches, At(c, n), es[0].action, c.clock, down);
      }
      RunAttended(rules, matches, Next(matches, c, es[0]), es[1..], n, down');
    }
  }

  /**
   In every reachable state a Pending or marked record is queued at its owner, being synced there, or its
   owner is down.
   */
  lemma NoWorkForgotten(rules: Rules, matches: Matcher, es: seq<Event>, n: string)
    requires Run(rules, matches, INIT, es)
    ensures Attended(At(Exec(rules, matches, INIT, es), n), Down(es, n, {}))
  {
    RunAttended(rules, matches, INIT, es, n, {});
  }
}
