/**
 No work on snapshots is forgotten, with no premise at all: a snapshot record that wants something
 done is on its owner's queue, in the owner's hands, or waiting for the owner's agent to come back
 after a crash.
 */
module SnapshotQueue {
  import opened Records
  import opened Snapshots
  import opened SnapshotVersions

  predicate SnapHasWork(r: SnapRecord) {
    r.state == Pending || r.marked
  }

  /** `down` holds the nodes whose agent crashed and has not listed the record again. */
  predicate SnapAttended(s: Snap, down: set<string>) {
    s.rec.Some? && SnapHasWork(s.rec.value) ==>
      s.rec.value.owner in s.queue || s.rec.value.owner in s.syncs || s.rec.value.owner in down
  }

  /** Exactly a Ready record has a finalizer, and only one with a finalizer is marked. */
  predicate SnapRecordShaped(r: SnapRecord) {
    r.state != Failed && (r.finalizer <==> r.state == Ready) && (r.marked ==> r.finalizer)
  }

  /** A sync that destroys started from a marked record, one that creates from a Pending one. */
  predicate SnapShaped(s: Snap) {
    && (s.rec.Some? ==> SnapRecordShaped(s.rec.value))
    && forall node | node in s.syncs ::
         var y := s.syncs[node];
         && SnapRecordShaped(y.copy)
         && if y.phase == SnapDestroying || y.phase == SnapFinalizing then y.copy.marked else y.copy.state == Pending
  }

  function SnapDownAfter(down: set<string>, a: SnapAction): set<string> {
    match a
    case SnapCrash(node) => down + {node}
    case SnapResync(node) => down - {node}
    case _ => down
  }

  /** The nodes that crashed and did not come back to this snapshot. */
  function SnapDown(es: seq<WorldEvent>, s: string, down: set<string>): set<string> {
    if es == [] then down
    else SnapDown(es[1..], s, if es[0].OnSnap? && es[0].snap == s then SnapDownAfter(down, es[0].action) else down)
  }

  lemma SnapWriteAttended(w: World, s: Snap, a: SnapAction, down: set<string>)
    requires SnapVersioned(s, w.c.clock) && SnapEnabled(w, s, a) && SnapAttended(s, down) && SnapShaped(s)
    requires a.SnapFinalize? || a.SnapPublish?
    ensures SnapAttended(SnapApply(w, s, a), down) && SnapShaped(SnapApply(w, s, a))
  {
    assert SnapFresh(s, s.syncs[a.node].copy, w.c.clock);
  }

  lemma SnapStepAttended(w: World, s: Snap, a: SnapAction, down: set<string>)
    requires SnapVersioned(s, w.c.clock) && SnapEnabled(w, s, a) && SnapAttended(s, down) && SnapShaped(s)
    ensures SnapAttended(SnapApply(w, s, a), SnapDownAfter(down, a)) && SnapShaped(SnapApply(w, s, a))
  {
    if a.SnapFinalize? || a.SnapPublish? {
      SnapWriteAttended(w, s, a, down);
    }
  }

  /** What happens to a record shows up on its owner's queue: that it appears, is marked, or goes. */
  predicate SnapOwnerNotified(s: Snap, s': Snap) {
    && (s'.rec.Some? && (s.rec.None? || (s'.rec != s.rec && s'.rec.value.marked)) ==> s'.rec.value.owner in s'.queue)
    && (s.rec.Some? && s'.rec.None? ==> s.rec.value.owner in s'.queue)
  }

  lemma SnapOwnersAreNotified(w: World, s: Snap, a: SnapAction)
    requires SnapVersioned(s, w.c.clock) && SnapEnabled(w, s, a)
    ensures SnapOwnerNotified(s, SnapApply(w, s, a))
  {
    if a.SnapFinalize? || a.SnapPublish? {
      assert SnapFresh(s, s.syncs[a.node].copy, w.c.clock);
    }
  }

  /** Keys go to owners, and back to nodes that have them. */
  lemma SnapKeysStay(w: World, s: Snap, a: SnapAction, node: string)
    requires SnapVersioned(s, w.c.clock) && SnapEnabled(w, s, a)
    requires node in SnapApply(w, s, a).queue || node in SnapApply(w, s, a).syncs
    ensures var s' := SnapApply(w, s, a);
            || node in s.queue || node in s.syncs
            || (s.rec.Some? && s.rec.value.owner == node) || (s'.rec.Some? && s'.rec.value.owner == node)
  {
    if a.SnapFinalize? || a.SnapPublish? {
      assert SnapFresh(s, s.syncs[a.node].copy, w.c.clock);
    }
  }

  /** A crash loses the key and the sync, and the restart finds the record again: nothing less will do. */
  lemma SnapRestartFindsWork(w: World, s: Snap)
    requires s.rec.Some? && SnapHasWork(s.rec.value)
    ensures var node := s.rec.value.owner;
            var s' := SnapApply(w, s, SnapCrash(node));
            && !SnapAttended(s', {}) && s'.rec == s.rec
            && SnapEnabled(w, s', SnapResync(node)) && SnapAttended(SnapApply(w, s', SnapResync(node)), {})
  {
  }

  /** Deleting a snapshot again changes nothing, once it is marked or gone. */
  lemma DroppingAgainChangesNothing(s: Snap, now: nat, later: nat)
    requires s.rec.Some?
    ensures var s' := DoDrop(s, now);
            && (if s.rec.value.finalizer then s'.rec.Some? && s'.rec.value.marked else s'.rec.None?)
            && DoDrop(s', later) == s'
  {
  }

  lemma {:induction false} SnapRunAttended(rules: WorldRules, matches: Matcher, w: World, es: seq<WorldEvent>,
                                           s: string, down: set<string>)
    requires WorldSized(w) && WorldRun(rules, matches, w, es)
    requires SnapAttended(SnapAt(w, s), down) && SnapShaped(SnapAt(w, s))
    ensures SnapAttended(SnapAt(WorldExec(rules, matches, w, es), s), SnapDown(es, s, down))
    decreases |es|
  {
    if es != [] {
      var down' := if es[0].OnSnap? && es[0].snap == s then SnapDownAfter(down, es[0].action) else down;
      match es[0] {
        case OnVolume(e) => OnVolumeSized(matches, w, e);
        case OnSnap(t, a) =>
          OnSnapSized(matches, w, t, a);
          if t == s {
            SnapStepAttended(w, SnapAt(w, s), a, down);
          }
      }
      SnapRunAttended(rules, matches, WorldNext(matches, w, es[0]), es[1..], s, down');
    }
  }

  /** In every reachable state a Pending or marked snapshot is queued or synced at its owner, or its owner is down. */
  lemma NoSnapshotForgotten(rules: WorldRules, matches: Matcher, es: seq<WorldEvent>, s: string)
    requires WorldRun(rules, matches, WORLD_INIT, es)
    ensures SnapAttended(SnapAt(WorldExec(rules, matches, WORLD_INIT, es), s), SnapDown(es, s, {}))
  {
    SnapRunAttended(rules, matches, WORLD_INIT, es, s, {});
  }
}
