/**
 A stuck snapshot has its LV and no sync that remembers having made it. Short of deleting it, no
 step of the code gets it on, and it holds its origin where it is.
 */
module SnapshotStuck {
  import opened Records
  import opened Protocol
  import opened Versions
  import opened Safety
  import opened Theorems
  import opened Calls
  import opened Snapshots
  import opened SnapshotSafety

  /** What a sync of a stuck snapshot may be at, on its own node or on another. */
  predicate StuckSync(x: Snap, node: string, y: SnapSync, now: nat)
    requires x.rec.Some?
  {
    && y.copy.rv < now && (SnapCurrent(x, y.copy) ==> x.rec.value == y.copy)
    && match y.phase
       case SnapDestroying => y.copy.marked && node != x.rec.value.owner
       case SnapFinalizing => y.copy.marked
       case SnapCreating => y.copy.volGroup == x.rec.value.volGroup && y.copy.origin == x.rec.value.origin
       case SnapPublishing => !SnapCurrent(x, y.copy)
  }

  predicate StuckLocal(x: Snap, now: nat) {
    && x.rec.Some? && x.rec.value.state == Pending && !x.rec.value.marked && x.rec.value.rv < now
    && x.lvs == {SnapLv(x.rec.value.owner, x.rec.value.volGroup, x.rec.value.origin)}
    && forall node | node in x.syncs :: StuckSync(x, node, x.syncs[node], now)
  }

  /** The only LV of the origin is the one the snapshot was made of. */
  predicate OriginHeld(w: World, x: Snap)
    requires x.rec.Some?
  {
    var r := x.rec.value;
    && At(w.c, r.origin).lvs == {Lv(r.owner, r.volGroup)}
    && CanTake(At(w.c, r.origin)) && !Cleared(At(w.c, r.origin))
  }

  predicate StuckInv(matches: Matcher, w: World, s: string) {
    SerialInv(matches, w.c) && s in w.snaps && StuckLocal(w.snaps[s], w.c.clock) && OriginHeld(w, w.snaps[s])
  }

  lemma StuckStarts(matches: Matcher, w: World, s: string)
    requires WorldInv(matches, w) && s in w.snaps && Stuck(w.snaps[s])
    ensures StuckInv(matches, w, s)
  {
    var x := w.snaps[s];
    var r := x.rec.value;
    assert x.lvs == {SnapLv(r.owner, r.volGroup, r.origin)};
    forall node | node in x.syncs
      ensures StuckSync(x, node, x.syncs[node], w.c.clock)
    {
      assert SnapSyncSound(x, node, x.syncs[node], w.c.clock);
    }
    assert Lv(r.owner, r.volGroup) in At(w.c, r.origin).lvs;
  }

  lemma StuckIsStuck(matches: Matcher, w: World, s: string)
    requires StuckInv(matches, w, s)
    ensures Stuck(w.snaps[s])
  {
    forall node | node in w.snaps[s].syncs
      ensures !AboutToPublish(w.snaps[s], node)
    {
      assert StuckSync(w.snaps[s], node, w.snaps[s].syncs[node], w.c.clock);
    }
  }

  /** No step of an agent, not even of the wrong node, gets a stuck snapshot on. */
  lemma StuckSnapStep(w: World, x: Snap, a: SnapAction)
    requires StuckLocal(x, w.c.clock) && OriginHeld(w, x) && SnapEnabled(w, x, a) && !a.Drop?
    ensures StuckLocal(SnapApply(w, x, a), w.c.clock + 1) && SnapApply(w, x, a).rec == x.rec
  {
    if a.SnapCreate? || a.SnapDestroy? || a.SnapFinalize? || a.SnapPublish? {
      assert StuckSync(x, a.node, x.syncs[a.node], w.c.clock);
      var r := x.rec.value;
      assert SnapLv(r.owner, r.volGroup, r.origin) in SnapLvsIn(x.lvs, r.owner, r.volGroup);
      if a.SnapDestroy? {
        assert SnapLvsIn(x.lvs, a.node, x.syncs[a.node].copy.volGroup) == {};
      }
    }
  }

  lemma StuckMayAge(x: Snap, now: nat)
    requires StuckLocal(x, now)
    ensures StuckLocal(x, now + 1)
  {
    forall node | node in x.syncs
      ensures StuckSync(x, node, x.syncs[node], now + 1)
    {
      assert StuckSync(x, node, x.syncs[node], now);
    }
  }

  lemma HeldMayAge(w: World, w': World, x: Snap, y: Snap)
    requires x.rec.Some? && OriginHeld(w, x) && w'.c.vols == w.c.vols && y.rec == x.rec
    ensures OriginHeld(w', y)
  {
    assert At(w'.c, x.rec.value.origin) == At(w.c, x.rec.value.origin);
  }

  lemma StuckOnSnap(matches: Matcher, w: World, s: string, t: string, a: SnapAction)
    requires StuckInv(matches, w, s) && WorldLegal(Unchecked, matches, w, OnSnap(t, a)) && !(t == s && a.Drop?)
    ensures var w' := WorldNext(matches, w, OnSnap(t, a));
            StuckInv(matches, w', s) && w'.snaps[s].rec == w.snaps[s].rec
  {
    var w' := WorldNext(matches, w, OnSnap(t, a));
    ClockMayPass(matches, w.c);
    if t == s {
      StuckSnapStep(w, w.snaps[s], a);
    } else {
      StuckMayAge(w.snaps[s], w.c.clock);
    }
    HeldMayAge(w, w', w.snaps[s], w'.snaps[s]);
  }

  lemma HeldStaysHeld(matches: Matcher, v: Volume, a: Action, now: nat, lv: Lv)
    requires Sound(matches, v) && Versioned(v, now) && CallsSound(v) && CanTake(v) && !Cleared(v) && v.lvs == {lv}
    requires Enabled(matches, v, a) && Premise(v, a) && !(a.Validate? && a.ok)
    ensures Apply(matches, v, a, now).lvs == {lv}
    ensures CanTake(Apply(matches, v, a, now)) && !Cleared(Apply(matches, v, a, now))
  {
    var v' := Apply(matches, v, a, now);
    StepSparesOrigin(matches, v, a, now);
    StepSound(matches, v, a, now);
    assert lv in v.lvs && v.rec.Some? && !v.rec.value.marked;
    assert lv in v'.lvs;
    forall l | l in v'.lvs
      ensures l == lv
    {
    }
  }

  lemma StuckOnVolume(matches: Matcher, w: World, s: string, e: Event)
    requires StuckInv(matches, w, s) && WorldLegal(Unchecked, matches, w, OnVolume(e))
    ensures StuckInv(matches, WorldNext(matches, w, OnVolume(e)), s)
  {
    var v, x := At(w.c, e.name), w.snaps[s];
    NextKeepsInv(Serial, matches, w.c, e);
    StepCallsSound(matches, v, e.action, w.c.clock);
    StuckMayAge(x, w.c.clock);
    var r := x.rec.value;
    if r.origin == e.name {
      ValidatedHasNoSnapshot(matches, w, e, s);
      HeldStaysHeld(matches, v, e.action, w.c.clock, Lv(r.owner, r.volGroup));
    }
  }

  predicate Spares(e: WorldEvent, s: string) {
    e.OnSnap? && e.snap == s ==> !e.action.Drop?
  }

  lemma {:induction false} StuckRun(matches: Matcher, w: World, es: seq<WorldEvent>, s: string)
    requires StuckInv(matches, w, s) && WorldRun(Unchecked, matches, w, es)
    requires forall e | e in es :: Spares(e, s)
    ensures var w' := WorldExec(Unchecked, matches, w, es);
            StuckInv(matches, w', s) && w'.snaps[s].rec == w.snaps[s].rec
    decreases |es|
  {
    if es != [] {
      assert Spares(es[0], s);
      match es[0] {
        case OnVolume(e) => StuckOnVolume(matches, w, s, e);
        case OnSnap(t, a) => StuckOnSnap(matches, w, s, t, a);
      }
      StuckRun(matches, WorldNext(matches, w, es[0]), es[1..], s);
    }
  }

  /** Until it is deleted, a stuck snapshot stays stuck, with its record as it is, in every run of the code. */
  lemma StuckForGood(matches: Matcher, w: World, es: seq<WorldEvent>, s: string)
    requires WorldInv(matches, w) && s in w.snaps && Stuck(w.snaps[s]) && WorldRun(Unchecked, matches, w, es)
    requires forall e | e in es :: Spares(e, s)
    ensures var w' := WorldExec(Unchecked, matches, w, es);
            s in w'.snaps && Stuck(w'.snaps[s]) && w'.snaps[s].rec == w.snaps[s].rec
  {
    StuckStarts(matches, w, s);
    StuckRun(matches, w, es, s);
    StuckIsStuck(matches, WorldExec(Unchecked, matches, w, es), s);
  }

  /** Under the premises a stuck snapshot is never dropped, so it stays. */
  lemma {:induction false} StuckStays(matches: Matcher, w: World, es: seq<WorldEvent>, s: string)
    requires WorldInv(matches, w) && s in w.snaps && Stuck(w.snaps[s]) && WorldRun(Checked, matches, w, es)
    ensures var w' := WorldExec(Checked, matches, w, es); s in w'.snaps && Stuck(w'.snaps[s])
    decreases |es|
  {
    if es != [] {
      StuckStarts(matches, w, s);
      var w1 := WorldNext(matches, w, es[0]);
      match es[0] {
        case OnVolume(e) => StuckOnVolume(matches, w, s, e);
        case OnSnap(t, a) => StuckOnSnap(matches, w, s, t, a);
      }
      WorldStepKeepsInv(matches, w, es[0]);
      StuckIsStuck(matches, w1, s);
      StuckStays(matches, w1, es[1..], s);
    }
  }
}
