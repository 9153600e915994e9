/**
 A Pending snapshot whose origin stands elsewhere holds it there, and is never made: not on its own
 node, and not on another whose sync does not look where the origin is.
 */
module SnapshotAway {
  import opened Records
  import opened Protocol
  import opened Theorems
  import opened Calls
  import opened Snapshots
  import opened SnapshotSafety
  import opened SnapshotStuck

  /** The nodes on which a sync of the snapshot may look for its origin. The code does not compare the owner. */
  function Lookers(rules: WorldRules, x: Snap): set<string>
    requires x.rec.Some?
  {
    {x.rec.value.owner} + if rules == Checked then {} else x.queue + x.syncs.Keys
  }

  /** What a sync of such a snapshot may be at. */
  predicate AwaySync(x: Snap, node: string, y: SnapSync, now: nat, lv: Lv)
    requires x.rec.Some?
  {
    && y.copy.rv < now && (SnapCurrent(x, y.copy) ==> x.rec.value == y.copy)
    && match y.phase
       case SnapDestroying => y.copy.marked
       case SnapFinalizing => y.copy.marked
       case SnapCreating => y.copy.origin == x.rec.value.origin && Lv(node, y.copy.volGroup) != lv
       case SnapPublishing => !SnapCurrent(x, y.copy)
  }

  predicate AwayLocal(rules: WorldRules, x: Snap, now: nat, n: string, lv: Lv) {
    && x.rec.Some? && x.rec.value.state == Pending && !x.rec.value.marked && x.rec.value.rv < now
    && x.rec.value.origin == n && x.lvs == {}
    && (forall node | node in Lookers(rules, x) :: Lv(node, x.rec.value.volGroup) != lv)
    && (forall node | node in x.syncs :: AwaySync(x, node, x.syncs[node], now, lv))
  }

  predicate AwayInv(rules: WorldRules, matches: Matcher, w: World, s: string, n: string, lv: Lv) {
    && SerialInv(matches, w.c) && s in w.snaps && AwayLocal(rules, w.snaps[s], w.c.clock, n, lv)
    && At(w.c, n).lvs == {lv} && CanTake(At(w.c, n)) && !Cleared(At(w.c, n))
  }

  lemma AwayStarts(rules: WorldRules, matches: Matcher, w: World, s: string, n: string, lv: Lv)
    requires WorldInv(matches, w) && s in w.snaps && w.snaps[s].rec.Some? && w.snaps[s].rec.value.state == Pending
    requires w.snaps[s].rec.value.origin == n && w.snaps[s].lvs == {} && At(w.c, n).lvs == {lv}
    requires forall node | node in Lookers(rules, w.snaps[s]) :: Lv(node, w.snaps[s].rec.value.volGroup) != lv
    ensures AwayInv(rules, matches, w, s, n, lv)
  {
    var x := w.snaps[s];
    SnapAtIsSound(matches, w, s);
    assert x.rec.value.owner in Lookers(rules, x);
    forall node | node in x.syncs
      ensures AwaySync(x, node, x.syncs[node], w.c.clock, lv)
    {
      assert SnapSyncSound(x, node, x.syncs[node], w.c.clock);
    }
  }

  lemma AwayAgentStep(rules: WorldRules, w: World, x: Snap, n: string, lv: Lv, a: SnapAction)
    requires AwayLocal(rules, x, w.c.clock, n, lv) && At(w.c, n).lvs == {lv} && rules != Open
    requires SnapLegal(rules, w, x, a) && (a.SnapDestroy? || a.SnapFinalize? || a.SnapCreate? || a.SnapPublish?)
    ensures var x' := SnapApply(w, x, a);
            || x' == SnapRequeue(x, a.node) || x' == SnapDone(x, a.node)
            || (a.SnapDestroy? && x' == SnapGoto(x, a.node, SnapSync(SnapFinalizing, x.syncs[a.node].copy)))
  {
    assert AwaySync(x, a.node, x.syncs[a.node], w.c.clock, lv);
  }

  lemma AwaySnapStep(rules: WorldRules, w: World, x: Snap, n: string, lv: Lv, a: SnapAction)
    requires AwayLocal(rules, x, w.c.clock, n, lv) && At(w.c, n).lvs == {lv} && rules != Open
    requires SnapLegal(rules, w, x, a) && !a.Drop?
    ensures AwayLocal(rules, SnapApply(w, x, a), w.c.clock + 1, n, lv)
  {
    if a.SnapDestroy? || a.SnapFinalize? || a.SnapCreate? || a.SnapPublish? {
      AwayAgentStep(rules, w, x, n, lv, a);
    }
  }

  lemma AwayMayAge(rules: WorldRules, x: Snap, now: nat, n: string, lv: Lv)
    requires AwayLocal(rules, x, now, n, lv)
    ensures AwayLocal(rules, x, now + 1, n, lv)
  {
    forall node | node in x.syncs
      ensures AwaySync(x, node, x.syncs[node], now + 1, lv)
    {
      assert AwaySync(x, node, x.syncs[node], now, lv);
    }
  }

  lemma AwayOnSnap(rules: WorldRules, matches: Matcher, w: World, s: string, n: string, lv: Lv, t: string,
                   a: SnapAction)
    requires AwayInv(rules, matches, w, s, n, lv) && rules != Open
    requires WorldLegal(rules, matches, w, OnSnap(t, a)) && !(t == s && a.Drop?)
    ensures AwayInv(rules, matches, WorldNext(matches, w, OnSnap(t, a)), s, n, lv)
  {
    ClockMayPass(matches, w.c);
    assert At(WorldNext(matches, w, OnSnap(t, a)).c, n) == At(w.c, n);
    if t == s {
      AwaySnapStep(rules, w, w.snaps[s], n, lv, a);
    } else {
      AwayMayAge(rules, w.snaps[s], w.c.clock, n, lv);
    }
  }

  lemma AwayOnVolume(rules: WorldRules, matches: Matcher, w: World, s: string, n: string, lv: Lv, e: Event)
    requires AwayInv(rules, matches, w, s, n, lv) && rules != Open && WorldLegal(rules, matches, w, OnVolume(e))
    ensures AwayInv(rules, matches, WorldNext(matches, w, OnVolume(e)), s, n, lv)
  {
    var v := At(w.c, e.name);
    NextKeepsInv(Serial, matches, w.c, e);
    StepCallsSound(matches, v, e.action, w.c.clock);
    AwayMayAge(rules, w.snaps[s], w.c.clock, n, lv);
    if e.name == n {
      ValidatedHasNoSnapshot(matches, w, e, s);
      HeldStaysHeld(matches, v, e.action, w.c.clock, lv);
    }
  }

  lemma {:induction false} AwayRun(rules: WorldRules, matches: Matcher, w: World, es: seq<WorldEvent>, s: string,
                                   n: string, lv: Lv)
    requires AwayInv(rules, matches, w, s, n, lv) && rules != Open && WorldRun(rules, matches, w, es)
    requires forall e | e in es :: Spares(e, s)
    ensures AwayInv(rules, matches, WorldExec(rules, matches, w, es), s, n, lv)
    decreases |es|
  {
    if es != [] {
      assert Spares(es[0], s);
      match es[0] {
        case OnVolume(e) => AwayOnVolume(rules, matches, w, s, n, lv, e);
        case OnSnap(t, a) => AwayOnSnap(rules, matches, w, s, n, lv, t, a);
      }
      AwayRun(rules, matches, WorldNext(matches, w, es[0]), es[1..], s, n, lv);
    }
  }
}
