/**
 The premises on snapshots are what their safety needs, and the code enforces none of them:
 taking a snapshot does not look at the origin's deletion mark, deleting one does not look at
 its state, and a sync does not look at the record's owner again.
 */
module SnapshotPremise {
  import opened Records
  import opened Versions
  import opened Safety
  import opened SnapshotSize
  import opened Snapshots
  import opened SnapshotSafety
  import opened SnapshotReach
  import opened SnapshotMoving
  import opened SnapshotRogue

  lemma InvIsSafeForever(matches: Matcher, w: World)
    requires WorldInv(matches, w)
    ensures SafeForever(matches, w)
  {
    forall w' | Reaches(Checked, matches, w, w')
      ensures SnapshotsSafe(w')
    {
      ReachedKeepsInv(matches, w, w');
    }
  }

  /** A step that keeps to the premises keeps all snapshots safe for ever, whatever is there of the origin. */
  lemma CheckedStepIsSafe(matches: Matcher, w: World, s: string, a: SnapAction)
    requires WorldInv(matches, w) && SnapLegal(Checked, w, SnapAt(w, s), a)
    ensures SafeForever(matches, WorldNext(matches, w, OnSnap(s, a)))
  {
    SnapStepKeepsInv(matches, w, s, a);
    InvIsSafeForever(matches, WorldNext(matches, w, OnSnap(s, a)));
  }

  lemma ReachesUnsafe(matches: Matcher, w: World, w': World, s: string, l: SnapLv)
    requires Reaches(Checked, matches, w, w') && s in w'.snaps && l in w'.snaps[s].lvs
    requires var rec := w'.snaps[s].rec;
             || Lv(l.node, l.vg) !in At(w'.c, l.origin).lvs
             || rec.None? || l != SnapLv(rec.value.owner, rec.value.volGroup, rec.value.origin)
    ensures !SafeForever(matches, w)
  {
    assert !SnapshotsSafe(w');
  }

  // ----- P5: taking a snapshot -----

  lemma UnsafeTakeOrphans(matches: Matcher, w: World, s: string, n: string, arg: SnapSizeArg)
    requires WorldInv(matches, w) && SnapLegal(Unchecked, w, SnapAt(w, s), Take(n, arg)) && !CanTake(At(w.c, n))
    ensures !SafeForever(matches, WorldNext(matches, w, OnSnap(s, Take(n, arg))))
  {
    var w1 := WorldNext(matches, w, OnSnap(s, Take(n, arg)));
    var r := At(w.c, n).rec.value;
    assert SnapAt(w, s).lvs == {};
    assert At(w1.c, n) == At(w.c, n) && Lv(r.owner, r.volGroup) in At(w.c, n).lvs;
    var w2 := SnapshotGetsMade(matches, w1, s);
    var l := SnapLv(r.owner, r.volGroup, n);
    assert At(w2.c, n) == At(w.c, n) && n in w2.c.vols;
    var w3 := VolumeGetsDestroyed(matches, w1, w2, n);
    ReachesUnsafe(matches, w1, w3, s, l);
  }

  /**
   A snapshot may be taken of a volume, with all snapshots safe for ever after, if and only if
   the volume is not marked for deletion or has no LV left.
   */
  lemma TakeSafeIff(matches: Matcher, w: World, s: string, n: string, arg: SnapSizeArg)
    requires WorldInv(matches, w) && SnapLegal(Unchecked, w, SnapAt(w, s), Take(n, arg))
    ensures CanTake(At(w.c, n)) <==> SafeForever(matches, WorldNext(matches, w, OnSnap(s, Take(n, arg))))
  {
    if CanTake(At(w.c, n)) {
      CheckedStepIsSafe(matches, w, s, Take(n, arg));
    } else {
      UnsafeTakeOrphans(matches, w, s, n, arg);
    }
  }

  // ----- A sync about to make an LV that nothing will name -----

  /** When such a sync finds the origin's LV on its node, it makes the LV. */
  lemma RogueStrikes(matches: Matcher, w: World, w': World, s: string, node: string)
    requires Reaches(Checked, matches, w, w') && s in w'.snaps && SnapInPhase(w'.snaps[s], node, SnapCreating)
    requires var x, copy := w'.snaps[s], w'.snaps[s].syncs[node].copy;
             && Lv(node, copy.volGroup) in At(w'.c, copy.origin).lvs && x.lvs == {}
             && (x.rec.Some? ==> x.rec.value.owner != node)
    ensures !SafeForever(matches, w)
  {
    var x, copy := w'.snaps[s], w'.snaps[s].syncs[node].copy;
    assert SnapLvsIn(x.lvs, node, copy.volGroup) == {};
    var w'' := SnapStepSpares(Checked, matches, w', s, SnapCreate(node, true));
    ReachesTwice(Checked, matches, w, w', w'');
    ReachesUnsafe(matches, w, w'', s, SnapLv(node, copy.volGroup, copy.origin));
  }

  /** What holds of a volume in a sound world holds while only snapshots move. */
  lemma VolumeStaysSound(matches: Matcher, w: World, w': World, n: string)
    requires WorldInv(matches, w) && w'.c.vols == w.c.vols && w.c.clock <= w'.c.clock
    ensures Sound(matches, At(w'.c, n)) && Versioned(At(w'.c, n), w'.c.clock) && At(w'.c, n) == At(w.c, n)
  {
    if n in w.c.vols {
      assert Sound(matches, w.c.vols[n]) && Versioned(w.c.vols[n], w.c.clock);
    }
  }

  /** The others are as sound as they were. */
  lemma OthersStaySound(matches: Matcher, w: World, w': World, n: string, s: string)
    requires WorldInv(matches, w) && OnlySnap(w, w', s) && forall t | t in OthersOf(w, n, s) :: !Stuck(w.snaps[t])
    ensures forall t | t in OthersOf(w', n, s) :: SnapLocal(w'.snaps[t], w'.c.clock) && !Stuck(w'.snaps[t])
  {
    forall t | t in OthersOf(w', n, s)
      ensures SnapLocal(w'.snaps[t], w'.c.clock) && !Stuck(w'.snaps[t])
    {
      OtherSnapsStay(w, w', s, t);
      assert t in OthersOf(w, n, s) && SnapLocal(w.snaps[t], w.c.clock);
      LocalMayAgeTo(w.snaps[t], w.c.clock, w'.c.clock);
    }
  }

  /** With the snapshot's record gone and no other snapshot stuck, the origin is brought to the sync. */
  lemma OriginIsBrought(matches: Matcher, w: World, w1: World, s: string, node: string, p: string)
    requires WorldInv(matches, w) && OnlySnap(w, w1, s)
    requires IsGone(w1.snaps[s]) && SnapInPhase(w1.snaps[s], node, SnapCreating)
    requires var copy := w1.snaps[s].syncs[node].copy;
             && p != "" && copy.volGroup != "" && matches(p, copy.volGroup)
             && At(w.c, copy.origin).lvs != {} && CanTake(At(w.c, copy.origin))
             && forall t | t in OthersOf(w, copy.origin, s) :: !Stuck(w.snaps[t])
    ensures !SafeForever(matches, w1)
  {
    var copy := w1.snaps[s].syncs[node].copy;
    OthersStaySound(matches, w, w1, copy.origin, s);
    var w2 := OthersGo(matches, w1, copy.origin, s);
    assert NoSnapshotOf(w2, copy.origin) by {
      forall t | t in w2.snaps && w2.snaps[t].rec.Some?
        ensures w2.snaps[t].rec.value.origin != copy.origin
      {
        assert t !in OthersOf(w2, copy.origin, s);
      }
    }
    VolumeStaysSound(matches, w, w2, copy.origin);
    var w3 := StandingMoves(matches, w2, copy.origin, p, node, copy.volGroup);
    ReachesTwice(Checked, matches, w1, w2, w3);
    RogueStrikes(matches, w1, w3, s, node);
  }

  /** A volume without an LV is brought to the sync without more ado. */
  lemma EmptyIsBrought(matches: Matcher, w: World, w1: World, s: string, node: string, p: string)
    requires WorldInv(matches, w) && OnlySnap(w, w1, s)
    requires SnapInPhase(w1.snaps[s], node, SnapCreating) && w1.snaps[s].lvs == {}
    requires w1.snaps[s].rec.Some? ==> w1.snaps[s].rec.value.owner != node
    requires var copy := w1.snaps[s].syncs[node].copy;
             p != "" && copy.volGroup != "" && matches(p, copy.volGroup) && At(w.c, copy.origin).lvs == {}
    ensures !SafeForever(matches, w1)
  {
    var copy := w1.snaps[s].syncs[node].copy;
    VolumeStaysSound(matches, w, w1, copy.origin);
    var w2 := EmptyMoves(matches, w1, copy.origin, p, node, copy.volGroup);
    RogueStrikes(matches, w1, w2, s, node);
  }

  // ----- P3: deleting a snapshot -----

  /** The origin's LV is not where a sync of the snapshot looks for it, and a stuck snapshot holds it there. */
  predicate HeldAway(w: World, r: SnapRecord, node: string) {
    At(w.c, r.origin).lvs != {} && Lv(node, r.volGroup) !in At(w.c, r.origin).lvs && HeldByStuck(w, r.origin)
  }

  /**
   `CanDrop`, or there is no LV, and the one sync that may be about to make it never finds the
   origin.
   */
  predicate DropIsSafe(w: World, s: string)
    requires s in w.snaps
  {
    var x := w.snaps[s];
    CanDrop(x) || (x.lvs == {} && HeldAway(w, x.rec.value, x.rec.value.owner))
  }

  lemma NoOtherStuck(w: World, n: string, s: string)
    requires !HeldByStuck(w, n)
    ensures forall t | t in OthersOf(w, n, s) :: !Stuck(w.snaps[t])
  {
  }

  /** The sync that is about to make the LV of a Pending snapshot. */
  lemma CreatorIsOwner(matches: Matcher, w: World, s: string) returns (node: string)
    requires WorldInv(matches, w) && s in w.snaps && w.snaps[s].rec.Some?
    requires !CanDrop(w.snaps[s]) && w.snaps[s].lvs == {}
    ensures var x, r := w.snaps[s], w.snaps[s].rec.value;
            && node == r.owner && SnapInPhase(x, node, SnapCreating) && r.volGroup != "" && r.state == Pending
            && x.syncs[node].copy.volGroup == r.volGroup && x.syncs[node].copy.origin == r.origin
  {
    var x := w.snaps[s];
    node :| node in x.syncs && x.syncs[node].phase == SnapCreating;
    assert SnapSyncSound(x, node, x.syncs[node], w.c.clock);
  }

  /** Deleting a snapshot that can leave something behind does so. */
  lemma UnsafeDropLeaks(matches: Matcher, w: World, s: string, p: string)
    requires WorldInv(matches, w) && s in w.snaps && w.snaps[s].rec.Some? && !DropIsSafe(w, s)
    requires p != "" && matches(p, w.snaps[s].rec.value.volGroup)
    ensures !SafeForever(matches, WorldNext(matches, w, OnSnap(s, Drop)))
  {
    var x, r := w.snaps[s], w.snaps[s].rec.value;
    var w1 := SnapStepSpares(Unchecked, matches, w, s, Drop);
    ReachesItself(Checked, matches, w1);
    if x.lvs != {} {
      var l :| l in x.lvs;
      ReachesUnsafe(matches, w1, w1, s, l);
    } else {
      var node := CreatorIsOwner(matches, w, s);
      assert w1.snaps[s] == SnapRemoved(x);
      if At(w.c, r.origin).lvs == {} {
        EmptyIsBrought(matches, w, w1, s, node, p);
      } else if Lv(node, r.volGroup) in At(w.c, r.origin).lvs {
        VolumeStaysSound(matches, w, w1, r.origin);
        RogueStrikes(matches, w1, w1, s, node);
      } else {
        NoOtherStuck(w, r.origin, s);
        assert OriginSafe(w, x);
        OriginIsBrought(matches, w, w1, s, node, p);
      }
    }
  }

  /** A sync left behind that never finds the origin does no harm. */
  lemma HeldAwayDropIsSafe(matches: Matcher, w: World, s: string)
    requires WorldInv(matches, w) && s in w.snaps && w.snaps[s].rec.Some? && !CanDrop(w.snaps[s]) && DropIsSafe(w, s)
    ensures SafeForever(matches, WorldNext(matches, w, OnSnap(s, Drop)))
  {
    var x, r := w.snaps[s], w.snaps[s].rec.value;
    var node := CreatorIsOwner(matches, w, s);
    var w1 := SnapStepSpares(Unchecked, matches, w, s, Drop);
    assert w1.snaps[s] == SnapRemoved(x);
    StrippedDropIsSound(matches, w, s, node);
    var lv := OnlyLv(matches, w, r.origin);
    var t :| t in w.snaps && Stuck(w.snaps[t]) && IsSnapshotOf(w, t, r.origin);
    OtherSnapsStay(w, w1, s, t);
    assert IsSnapshotOf(w1, t, r.origin);
    RogueIsSafe(matches, w1, s, node, lv);
  }

  lemma OnlyLv(matches: Matcher, w: World, n: string) returns (lv: Lv)
    requires WorldInv(matches, w) && At(w.c, n).lvs != {}
    ensures At(w.c, n).lvs == {lv}
  {
    lv :| lv in At(w.c, n).lvs;
    assert Sound(matches, At(w.c, n));
  }

  /** Without the sync that is left behind, the delete would have been one that may go ahead. */
  lemma StrippedDropIsSound(matches: Matcher, w: World, s: string, node: string)
    requires WorldInv(matches, w) && s in w.snaps && w.snaps[s].rec.Some? && !w.snaps[s].rec.value.finalizer
    requires w.snaps[s].lvs == {} && node == w.snaps[s].rec.value.owner
    ensures WorldInv(matches, Stripped(WorldNext(matches, w, OnSnap(s, Drop)), s, node))
  {
    var x := w.snaps[s];
    SnapAtIsSound(matches, w, s);
    RemovedIsLocal(w, x, node);
    SnapUpdateKeepsInv(matches, w, s, SnapDone(SnapRemoved(x), node));
    StrippedDrop(matches, w, s, node);
  }

  lemma StrippedDrop(matches: Matcher, w: World, s: string, node: string)
    requires s in w.snaps && w.snaps[s].rec.Some? && !w.snaps[s].rec.value.finalizer
    ensures Stripped(WorldNext(matches, w, OnSnap(s, Drop)), s, node)
            == World(w.c.(clock := w.c.clock + 1), w.snaps[s := SnapDone(SnapRemoved(w.snaps[s]), node)])
  {
    var x := w.snaps[s];
    UpdateTwice(w.snaps, s, SnapRemoved(x), SnapDone(SnapRemoved(x), node));
  }

  lemma RemovedIsLocal(w: World, x: Snap, node: string)
    requires SnapLocal(x, w.c.clock) && x.rec.Some? && !x.rec.value.finalizer
    requires x.lvs == {} && node == x.rec.value.owner
    ensures SnapLocal(SnapDone(SnapRemoved(x), node), w.c.clock + 1)
  {
    var y := SnapDone(x, node);
    OwnerLetsGo(x, node, w.c.clock);
    SnapStepLocal(w, y, Drop);
    assert SnapApply(w, y, Drop) == SnapDone(SnapRemoved(x), node);
  }

  lemma OwnerLetsGo(x: Snap, node: string, now: nat)
    requires SnapLocal(x, now) && x.rec.Some? && x.lvs == {} && node == x.rec.value.owner
    ensures SnapLocal(SnapDone(x, node), now) && CanDrop(SnapDone(x, node))
  {
    var y := SnapDone(x, node);
    forall other | other in y.syncs
      ensures SnapSyncSound(y, other, y.syncs[other], now)
      ensures !x.rec.value.finalizer ==> y.syncs[other].phase != SnapCreating
    {
      assert SnapSyncSound(x, other, x.syncs[other], now);
    }
  }

  /**
   A snapshot may be deleted, with all snapshots safe for ever after, if and only if `DropIsSafe`
   holds: `CanDrop` does, or a stuck snapshot holds the origin away from the sync that would
   make this one. `p` is some pattern that accepts the snapshot's volume group.
   */
  lemma DropSafeIff(matches: Matcher, w: World, s: string, p: string)
    requires WorldInv(matches, w) && s in w.snaps && w.snaps[s].rec.Some?
    requires p != "" && matches(p, w.snaps[s].rec.value.volGroup)
    ensures DropIsSafe(w, s) <==> SafeForever(matches, WorldNext(matches, w, OnSnap(s, Drop)))
  {
    if CanDrop(w.snaps[s]) {
      CheckedStepIsSafe(matches, w, s, Drop);
    } else if DropIsSafe(w, s) {
      HeldAwayDropIsSafe(matches, w, s);
    } else {
      UnsafeDropLeaks(matches, w, s, p);
    }
  }

  /** Seen from the record alone: a snapshot that has left Pending may be deleted. */
  lemma LeftPendingCanDrop(matches: Matcher, w: World, s: string)
    requires WorldInv(matches, w) && s in w.snaps && w.snaps[s].rec.Some? && w.snaps[s].rec.value.state != Pending
    ensures CanDrop(w.snaps[s])
  {
  }

  /**
   Nothing weaker can be read off the record: with the very same record, the owner's agent can be
   about to create, and then deleting the snapshot is unsafe unless its origin is held away.
   */
  lemma PendingDropIsTight(matches: Matcher, w: World, s: string, p: string) returns (w': World)
    requires WorldInv(matches, w) && s in w.snaps && w.snaps[s].rec.Some? && w.snaps[s].rec.value.state == Pending
    requires p != "" && matches(p, w.snaps[s].rec.value.volGroup)
    ensures Reaches(Checked, matches, w, w') && OnlySnap(w, w', s) && w'.snaps[s].rec == w.snaps[s].rec
    ensures !CanDrop(w'.snaps[s])
    ensures !HeldAway(w', w.snaps[s].rec.value, w.snaps[s].rec.value.owner) ==>
              !SafeForever(matches, WorldNext(matches, w', OnSnap(s, Drop)))
  {
    w' := SnapOwnerStarts(matches, w, s);
    ReachedKeepsInv(matches, w, w');
    assert SnapInPhase(w'.snaps[s], w.snaps[s].rec.value.owner, SnapCreating);
    DropSafeIff(matches, w', s, p);
  }

  // ----- P2: starting a sync of a snapshot -----

  /**
   `SnapCanStart`, or the snapshot is Pending and its origin's LV is neither where the sync looks
   for it nor can ever get there: it is where the snapshot cannot be made and so not be deleted
   either, or a stuck snapshot holds it.
   */
  predicate StartIsSafe(w: World, s: string, node: string)
    requires s in w.snaps
  {
    var x := w.snaps[s];
    SnapCanStart(x, node) ||
    var r, lvs := x.rec.value, At(w.c, x.rec.value.origin).lvs;
    && r.state == Pending && lvs != {} && Lv(node, r.volGroup) !in lvs
    && (Lv(r.owner, r.volGroup) in lvs ==> HeldByStuck(w, r.origin))
  }

  /** A sync of another node's marked snapshot finds no LV to destroy and lets the record go. */
  lemma ForeignSnapDestroyLeaks(matches: Matcher, w: World, s: string, node: string)
    requires WorldInv(matches, w) && s in w.snaps && w.snaps[s].rec.Some? && w.snaps[s].rec.value.marked
    requires w.snaps[s].rec.value.owner != node && w.snaps[s].lvs != {} && SnapEnabled(w, w.snaps[s], SnapStart(node))
    ensures !SafeForever(matches, WorldNext(matches, w, OnSnap(s, SnapStart(node))))
  {
    var x, w1 := w.snaps[s], WorldNext(matches, w, OnSnap(s, SnapStart(node)));
    var x1 := w1.snaps[s];
    var x2 := DoSnapDestroy(x1, node, true);
    var w2 := WithSnap(w1, s, x2);
    ReachesItself(Checked, matches, w1);
    SnapStepReaches(Checked, matches, w1, w1, s, SnapDestroy(node, true), x2);
    assert SnapLvsIn(x1.lvs, node, x.rec.value.volGroup) == {} && x2.lvs == x.lvs;
    var x3 := DoSnapFinalize(x2, node, w2.c.clock);
    SnapStepReaches(Checked, matches, w1, w2, s, SnapFinalize(node), x3);
    var l :| l in x.lvs;
    ReachesUnsafe(matches, w1, WithSnap(w2, s, x3), s, l);
  }

  /** The snapshot is made and deleted on its owner, under the eyes of the other node's sync. */
  lemma SnapshotComesAndGoes(matches: Matcher, w: World, w1: World, s: string, node: string) returns (w': World)
    requires WorldInv(matches, w) && s in w.snaps && w.snaps[s].rec.Some? && !Stuck(w.snaps[s]) && OnlySnap(w, w1, s)
    requires var x, r := w.snaps[s], w.snaps[s].rec.value;
             && r.state == Pending && r.owner != node && Lv(r.owner, r.volGroup) in At(w.c, r.origin).lvs
             && w1.snaps[s].rec == x.rec && w1.snaps[s].lvs == x.lvs
             && w1.snaps[s].syncs == x.syncs[node := SnapSync(SnapCreating, r)] && node !in x.syncs
    ensures Reaches(Checked, matches, w1, w') && OnlySnap(w, w', s) && IsGone(w'.snaps[s])
    ensures node in w'.snaps[s].syncs && w'.snaps[s].syncs[node] == SnapSync(SnapCreating, w.snaps[s].rec.value)
  {
    var x, r := w.snaps[s], w.snaps[s].rec.value;
    assert SnapLocal(x, w.c.clock);
    ReachesItself(Checked, matches, w1);
    var w2 := w1;
    if x.lvs == {} {
      VolumeStaysSound(matches, w, w1, r.origin);
      w2 := SnapshotGetsMade(matches, w1, s);
    } else {
      var other :| other in x.syncs && AboutToPublish(x, other);
      assert SnapSyncSound(x, other, x.syncs[other], w.c.clock);
      assert AboutToPublish(w1.snaps[s], r.owner) && w1.snaps[s].syncs[r.owner].copy == r;
    }
    w' := PublisherGoes(matches, w2, s, r.owner);
    ReachesTwice(Checked, matches, w1, w2, w');
    assert w1.snaps[s].syncs[node] == (w1.snaps[s].syncs - {r.owner})[node];
    assert w'.snaps[s].syncs - {r.owner} == w1.snaps[s].syncs - {r.owner};
    assert node in w'.snaps[s].syncs - {r.owner};
  }

  lemma UnsafeStartLeaks(matches: Matcher, w: World, s: string, node: string, p: string)
    requires WorldInv(matches, w) && s in w.snaps && SnapEnabled(w, w.snaps[s], SnapStart(node))
    requires !StartIsSafe(w, s, node)
    requires w.snaps[s].rec.value.state == Pending && p != "" && matches(p, w.snaps[s].rec.value.volGroup)
    ensures !SafeForever(matches, WorldNext(matches, w, OnSnap(s, SnapStart(node))))
  {
    var x, r := w.snaps[s], w.snaps[s].rec.value;
    var w1 := SnapStepSpares(Unchecked, matches, w, s, SnapStart(node));
    assert SnapLocal(x, w.c.clock) && SnapAnchored(w, x);
    ReachesItself(Checked, matches, w1);
    VolumeStaysSound(matches, w, w1, r.origin);
    if At(w.c, r.origin).lvs == {} {
      EmptyIsBrought(matches, w, w1, s, node, p);
    } else if Lv(node, r.volGroup) in At(w.c, r.origin).lvs {
      var lv := OnlyLv(matches, w, r.origin);
      RogueStrikes(matches, w1, w1, s, node);
    } else {
      assert !Stuck(x);
      var w2 := SnapshotComesAndGoes(matches, w, w1, s, node);
      NoOtherStuck(w, r.origin, s);
      OriginIsBrought(matches, w, w2, s, node, p);
      UnsafeFromThere(matches, w1, w2);
    }
  }

  lemma UnsafeFromThere(matches: Matcher, w: World, w': World)
    requires Reaches(Checked, matches, w, w') && !SafeForever(matches, w')
    ensures !SafeForever(matches, w)
  {
    var w'' :| Reaches(Checked, matches, w', w'') && !SnapshotsSafe(w'');
    ReachesTwice(Checked, matches, w, w', w'');
  }

  lemma BlindStartIsSafe(matches: Matcher, w: World, s: string, node: string)
    requires WorldInv(matches, w) && s in w.snaps && SnapEnabled(w, w.snaps[s], SnapStart(node))
    requires StartIsSafe(w, s, node) && !SnapCanStart(w.snaps[s], node)
    ensures SafeForever(matches, WorldNext(matches, w, OnSnap(s, SnapStart(node))))
  {
    var x, r := w.snaps[s], w.snaps[s].rec.value;
    var w1 := SnapStepSpares(Unchecked, matches, w, s, SnapStart(node));
    StrippedStartIsSound(matches, w, s, node);
    var lv := OnlyLv(matches, w, r.origin);
    assert w1.snaps[s].syncs[node] == SnapSync(SnapCreating, r);
    if Lv(r.owner, r.volGroup) in At(w.c, r.origin).lvs {
      HolderSurvivesStart(w, w1, s, node, r.origin);
    } else {
      SnapAtIsSound(matches, w, s);
      assert MadeOf(w1.snaps[s], r.origin, lv);
    }
    RogueIsSafe(matches, w1, s, node, lv);
  }

  lemma HolderSurvivesStart(w: World, w1: World, s: string, node: string, n: string)
    requires s in w.snaps && OnlySnap(w, w1, s) && HeldByStuck(w, n)
    requires w1.snaps[s].rec == w.snaps[s].rec && w1.snaps[s].lvs == w.snaps[s].lvs
    requires SnapInPhase(w1.snaps[s], node, SnapCreating) && w1.snaps[s].syncs - {node} == w.snaps[s].syncs - {node}
    ensures HeldByStuck(w1, n)
  {
    var t :| t in w.snaps && Stuck(w.snaps[t]) && IsSnapshotOf(w, t, n);
    if t == s {
      var x, x1 := w.snaps[s], w1.snaps[s];
      forall other | other in x1.syncs
        ensures !AboutToPublish(x1, other)
      {
        if other != node {
          assert x1.syncs[other] == (x1.syncs - {node})[other] && other in x.syncs - {node};
          assert x.syncs[other] == (x.syncs - {node})[other];
        }
      }
    } else {
      OtherSnapsStay(w, w1, s, t);
    }
    assert Stuck(w1.snaps[t]) && IsSnapshotOf(w1, t, n);
  }

  lemma StrippedStartIsSound(matches: Matcher, w: World, s: string, node: string)
    requires WorldInv(matches, w) && s in w.snaps && SnapEnabled(w, w.snaps[s], SnapStart(node))
    ensures WorldInv(matches, Stripped(WorldNext(matches, w, OnSnap(s, SnapStart(node))), s, node))
  {
    var x1 := DoSnapStart(w.snaps[s], node);
    StartedAndStripped(w.snaps[s], node);
    QueueUpdateKeepsInv(matches, w, s, x1.queue);
    UpdateTwice(w.snaps, s, x1, SnapDone(x1, node));
  }

  lemma StartedAndStripped(x: Snap, node: string)
    requires node !in x.syncs
    ensures SnapDone(DoSnapStart(x, node), node) == x.(queue := DoSnapStart(x, node).queue)
  {
    assert x.syncs - {node} == x.syncs;
    assert forall y: SnapSync {:trigger x.syncs[node := y]} :: x.syncs[node := y] - {node} == x.syncs;
  }

  /**
   A sync of a snapshot may start on a node, with all snapshots safe for ever after, if and only
   if `StartIsSafe` holds. `p` is some pattern that accepts the snapshot's volume group.
   */
  lemma SnapStartSafeIff(matches: Matcher, w: World, s: string, node: string, p: string)
    requires WorldInv(matches, w) && s in w.snaps && SnapEnabled(w, w.snaps[s], SnapStart(node))
    requires p != "" && (w.snaps[s].rec.Some? ==> matches(p, w.snaps[s].rec.value.volGroup))
    ensures StartIsSafe(w, s, node) <==> SafeForever(matches, WorldNext(matches, w, OnSnap(s, SnapStart(node))))
  {
    if SnapCanStart(w.snaps[s], node) {
      CheckedStepIsSafe(matches, w, s, SnapStart(node));
    } else if StartIsSafe(w, s, node) {
      BlindStartIsSafe(matches, w, s, node);
    } else if w.snaps[s].rec.value.marked {
      ForeignSnapDestroyLeaks(matches, w, s, node);
    } else {
      UnsafeStartLeaks(matches, w, s, node, p);
    }
  }
}
