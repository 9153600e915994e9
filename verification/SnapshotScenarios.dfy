/**
 Runs of the code from the start, for any names and nodes, that break what snapshots promise.
 */
module SnapshotScenarios {
  import opened Records
  import opened Protocol
  import opened Progress
  import opened SnapshotSize
  import opened Snapshots
  import opened SnapshotSafety
  import opened SnapshotReach
  import opened SnapshotMoving
  import opened SnapshotRogue
  import opened SnapshotPremise

  /** The volume is Ready on the node, with its LV, and no call about it runs. */
  predicate StandsOn(w: World, n: string, node: string, vg: string) {
    var v := At(w.c, n);
    && v.rec.Some? && v.rec.value.state == Ready && !v.rec.value.marked && v.rec.value.owner == node
    && v.rec.value.volGroup == vg != "" && v.lvs == {Lv(node, vg)} && v.calls == map[]
  }

  lemma VolumeGetsReady(matches: Matcher, w: World, n: string, req: Request, node: string, vg: string)
    returns (w': World)
    requires WorldInv(matches, w) && At(w.c, n) == IDLE
    requires req.vgPattern != "" && vg != "" && matches(req.vgPattern, vg)
    ensures Reaches(Checked, matches, w, w') && WorldInv(matches, w') && w'.snaps == w.snaps
    ensures StandsOn(w', n, node, vg) && forall m | m != n :: At(w'.c, m) == At(w.c, m)
  {
    var v, later := VolumeCanBeMade(matches, IDLE, w.c.clock, req, node, vg);
    w' := LeadsReaches(Checked, matches, w, n, v, later);
    ReachedKeepsInv(matches, w, w');
    forall m | m != n
      ensures At(w'.c, m) == At(w.c, m)
    {
      OthersStay(w.c, w'.c, n, m);
    }
  }

  lemma TakeReaches(matches: Matcher, w: World, s: string, n: string, node: string, vg: string) returns (w': World)
    requires WorldInv(matches, w) && SnapAt(w, s).rec.None? && StandsOn(w, n, node, vg)
    ensures Reaches(Checked, matches, w, w') && WorldInv(matches, w') && OnlySnap(w, w', s)
    ensures var x, r := SnapAt(w, s), At(w.c, n).rec.value;
            && w'.snaps[s] == x.(rec := w'.snaps[s].rec, queue := x.queue + {node}) && x.lvs == {}
            && w'.snaps[s].rec.Some?
            && var q := w'.snaps[s].rec.value;
               && q.origin == n && q.owner == node && q.volGroup == r.volGroup
               && q.state == Pending && !q.finalizer && !q.marked
  {
    ReachesItself(Checked, matches, w);
    SnapAtIsSound(matches, w, s);
    var x := SnapApply(w, SnapAt(w, s), Take(n, Missing));
    w' := WithSnap(w, s, x);
    SnapStepReaches(Checked, matches, w, w, s, Take(n, Missing), x);
    ReachedKeepsInv(matches, w, w');
    UpdateSpares(w.snaps, s, x);
  }

  /** A snapshot is made, and its agent has not said so yet. */
  lemma SnapshotIsMade(matches: Matcher, n: string, s: string, req: Request, node: string, vg: string)
    returns (w: World, l: SnapLv)
    requires req.vgPattern != "" && vg != "" && matches(req.vgPattern, vg)
    ensures Reaches(Checked, matches, WORLD_INIT, w) && WorldInv(matches, w) && StandsOn(w, n, node, vg)
    ensures s in w.snaps && w.snaps - {s} == map[]
    ensures w.snaps[s].rec.Some? && !w.snaps[s].rec.value.finalizer && l in w.snaps[s].lvs && l.origin == n
  {
    var w1 := VolumeGetsReady(matches, WORLD_INIT, n, req, node, vg);
    var w2 := TakeReaches(matches, w1, s, n, node, vg);
    ReachesTwice(Checked, matches, WORLD_INIT, w1, w2);
    assert At(w2.c, n) == At(w1.c, n);
    w := SnapshotGetsMade(matches, w2, s);
    ReachesTwice(Checked, matches, WORLD_INIT, w2, w);
    ReachedKeepsInv(matches, WORLD_INIT, w);
    assert At(w.c, n) == At(w1.c, n);
    l := SnapLv(node, w2.snaps[s].rec.value.volGroup, n);
  }

  /**
   The code, with calls that do not overlap, can end with a snapshot LV that has neither a record
   nor an origin: the snapshot is deleted while Pending, and then its origin.
   */
  lemma DroppingPendingOrphans(matches: Matcher, n: string, s: string, req: Request, node: string, vg: string)
    returns (w: World)
    requires req.vgPattern != "" && vg != "" && matches(req.vgPattern, vg)
    ensures Reaches(Unchecked, matches, WORLD_INIT, w) && s in w.snaps && w.snaps[s].rec.None?
    ensures exists l | l in w.snaps[s].lvs :: Lv(l.node, l.vg) !in At(w.c, l.origin).lvs
  {
    var w1, l := SnapshotIsMade(matches, n, s, req, node, vg);
    CheckedReaches(matches, WORLD_INIT, w1);
    var w2 := SnapStepSpares(Unchecked, matches, w1, s, Drop);
    ReachesTwice(Unchecked, matches, WORLD_INIT, w1, w2);
    VolumeStaysSound(matches, w1, w2, n);
    assert NoSnapshotOf(w2, n) by {
      forall t | t in w2.snaps
        ensures w2.snaps[t].rec.None?
      {
        assert t != s ==> t in w2.snaps - {s};
      }
    }
    w := RestingGoes(matches, w2, n);
    CheckedReaches(matches, w2, w);
    ReachesTwice(Unchecked, matches, WORLD_INIT, w2, w);
    assert l in w.snaps[s].lvs && Lv(l.node, l.vg) !in At(w.c, l.origin).lvs;
  }

  lemma TwoVolumesStand(matches: Matcher, m: string, n: string, req: Request, a: string, b: string, vg: string)
    returns (w: World)
    requires m != n && req.vgPattern != "" && vg != "" && matches(req.vgPattern, vg)
    ensures Reaches(Checked, matches, WORLD_INIT, w) && WorldInv(matches, w) && w.snaps == map[]
    ensures StandsOn(w, m, b, vg) && StandsOn(w, n, a, vg)
  {
    var w1 := VolumeGetsReady(matches, WORLD_INIT, m, req, b, vg);
    w := VolumeGetsReady(matches, w1, n, req, a, vg);
    ReachesTwice(Checked, matches, WORLD_INIT, w1, w);
  }

  /** A snapshot of a volume on `b` that is deleted at once leaves its key on the queue there. */
  lemma KeyIsLeft(matches: Matcher, w: World, m: string, s: string, b: string, vg: string) returns (w': World)
    requires WorldInv(matches, w) && w.snaps == map[] && StandsOn(w, m, b, vg)
    ensures Reaches(Checked, matches, w, w') && WorldInv(matches, w') && OnlySnap(w, w', s)
    ensures w'.snaps[s].rec.None? && w'.snaps[s].syncs == map[] && b in w'.snaps[s].queue
  {
    var w1 := TakeReaches(matches, w, s, m, b, vg);
    w' := SnapStepSpares(Checked, matches, w1, s, Drop);
    ReachesTwice(Checked, matches, w, w1, w');
    ReachedKeepsInv(matches, w, w');
  }

  /** The snapshot is taken anew of the volume on `a`, made, published and marked for deletion there. */
  lemma SnapshotGetsMarked(matches: Matcher, w: World, n: string, s: string, a: string, b: string, vg: string)
    returns (w': World)
    requires WorldInv(matches, w) && StandsOn(w, n, a, vg) && a != b
    requires s in w.snaps && w.snaps[s].rec.None? && w.snaps[s].syncs == map[] && b in w.snaps[s].queue
    ensures Reaches(Checked, matches, w, w') && WorldInv(matches, w')
    ensures s in w'.snaps && SnapEnabled(w', w'.snaps[s], SnapStart(b)) && w'.snaps[s].lvs != {}
    ensures w'.snaps[s].rec.Some? && w'.snaps[s].rec.value.marked && w'.snaps[s].rec.value.owner == a
  {
    var w1 := TakeReaches(matches, w, s, n, a, vg);
    assert At(w1.c, n) == At(w.c, n);
    var w2 := SnapshotGetsMade(matches, w1, s);
    ReachesTwice(Checked, matches, w, w1, w2);
    var w3 := SnapshotGetsPublished(matches, w2, s, a);
    ReachesTwice(Checked, matches, w, w2, w3);
    w' := SnapStepSpares(Checked, matches, w3, s, Drop);
    ReachesTwice(Checked, matches, w, w3, w');
    ReachedKeepsInv(matches, w, w');
  }

  /** Two volumes stand on two nodes, and the key of a snapshot name is on the queue of `b`. */
  lemma KeyAndVolumes(matches: Matcher, m: string, n: string, s: string, req: Request, a: string, b: string, vg: string)
    returns (w: World)
    requires m != n && a != b && req.vgPattern != "" && vg != "" && matches(req.vgPattern, vg)
    ensures Reaches(Checked, matches, WORLD_INIT, w) && WorldInv(matches, w) && StandsOn(w, n, a, vg)
    ensures s in w.snaps && w.snaps - {s} == map[]
    ensures w.snaps[s].rec.None? && w.snaps[s].syncs == map[] && b in w.snaps[s].queue
  {
    var w1 := TwoVolumesStand(matches, m, n, req, a, b, vg);
    w := KeyIsLeft(matches, w1, m, s, b, vg);
    ReachesTwice(Checked, matches, WORLD_INIT, w1, w);
    assert At(w.c, n) == At(w1.c, n);
  }

  /**
   A run under the premises leads to a state in which the code lets node `b` sync a marked snapshot
   that node `a` owns: the record goes, and the LV on `a` is left.
   */
  lemma StaleSnapKeyLeaks(matches: Matcher, m: string, n: string, s: string, req: Request, a: string, b: string,
                          vg: string)
    returns (w: World)
    requires m != n && a != b && req.vgPattern != "" && vg != "" && matches(req.vgPattern, vg)
    ensures Reaches(Checked, matches, WORLD_INIT, w) && s in w.snaps && SnapEnabled(w, w.snaps[s], SnapStart(b))
    ensures w.snaps[s].rec.Some? && w.snaps[s].rec.value.marked && w.snaps[s].rec.value.owner == a
    ensures !SafeForever(matches, WorldNext(matches, w, OnSnap(s, SnapStart(b))))
  {
    var w1 := KeyAndVolumes(matches, m, n, s, req, a, b, vg);
    w := SnapshotGetsMarked(matches, w1, n, s, a, b, vg);
    ReachesTwice(Checked, matches, WORLD_INIT, w1, w);
    ForeignSnapDestroyLeaks(matches, w, s, b);
  }

  /**
   The same with a Pending snapshot, whose origin stands on its owner: node `b` keeps its sync until
   the snapshot and its origin are gone and the origin's name is back, on `b`.
   */
  lemma StalePendingKeyLeaks(matches: Matcher, m: string, n: string, s: string, req: Request, a: string, b: string,
                             vg: string)
    returns (w: World)
    requires m != n && a != b && req.vgPattern != "" && vg != "" && matches(req.vgPattern, vg)
    ensures Reaches(Checked, matches, WORLD_INIT, w) && s in w.snaps && SnapEnabled(w, w.snaps[s], SnapStart(b))
    ensures w.snaps[s].rec.Some? && w.snaps[s].rec.value.state == Pending && StandsOn(w, n, a, vg)
    ensures !SafeForever(matches, WorldNext(matches, w, OnSnap(s, SnapStart(b))))
  {
    var w1 := KeyAndVolumes(matches, m, n, s, req, a, b, vg);
    w := TakeReaches(matches, w1, s, n, a, vg);
    ReachesTwice(Checked, matches, WORLD_INIT, w1, w);
    assert At(w.c, n) == At(w1.c, n);
    assert !HeldByStuck(w, n) by {
      forall t | t in w.snaps
        ensures !Stuck(w.snaps[t])
      {
        assert t != s ==> t in w.snaps - {s};
      }
    }
    UnsafeStartLeaks(matches, w, s, b, req.vgPattern);
  }

  /** The delete call for a volume that stands marks its record, and is given up. */
  lemma VolumeGetsMarked(matches: Matcher, w: World, n: string, node: string, vg: string) returns (w': World)
    requires WorldInv(matches, w) && StandsOn(w, n, node, vg) && NoSnapshotOf(w, n)
    ensures Reaches(Checked, matches, w, w') && w'.snaps == w.snaps
    ensures var v, v' := At(w.c, n), At(w'.c, n);
            && v'.lvs == v.lvs && v'.calls == map[]
            && v'.rec.Some? && v'.rec.value.marked && v'.rec.value.volGroup == vg
  {
    var v := At(w.c, n);
    VolumeStaysSound(matches, w, w, n);
    var w1 := DeleteGetsValidated(matches, w, n);
    var t := w1.c.clock;
    var v4 := ApiDelete(v, t + 1);
    MarkingLeads(matches, v, t);
    w' := LeadsReaches(Checked, matches, w1, n, v4, t + 3);
    ReachesTwice(Checked, matches, w, w1, w');
  }

  /** The call finds the record, asks for its deletion, and ends. */
  lemma MarkingLeads(matches: Matcher, v: Volume, t: nat)
    requires v.rec.Some? && v.rec.value.finalizer && !v.rec.value.marked && v.calls == map[]
    ensures Leads(matches, WithCall(v, DeleteGet), t, ApiDelete(v, t + 1), t + 3)
  {
    var v1, v2, v3 := WithCall(v, DeleteGet), WithCall(v, DeleteDelete), WithCall(ApiDelete(v, t + 1), DeleteWait);
    GetTakes(matches, v1, t, v2);
    assert v2.calls[0 := DeleteWait] == v3.calls;
    assert v3.calls - {0} == map[];
    LeadsNowhere(matches, v1, t);
    LeadsOn(matches, v1, t, v1, t, Step(0, ""), v2);
    LeadsOn(matches, v1, t, v2, t + 1, Step(0, ""), v3);
    LeadsOn(matches, v1, t, v3, t + 2, Cancel(0), ApiDelete(v, t + 1));
  }

  /** A run under the premises leads to a state in which the code takes a snapshot of a volume on its way out. */
  lemma TakingMarkedOrphans(matches: Matcher, n: string, s: string, req: Request, node: string, vg: string)
    returns (w: World)
    requires req.vgPattern != "" && vg != "" && matches(req.vgPattern, vg)
    ensures Reaches(Checked, matches, WORLD_INIT, w) && SnapLegal(Unchecked, w, SnapAt(w, s), Take(n, Missing))
    ensures !SafeForever(matches, WorldNext(matches, w, OnSnap(s, Take(n, Missing))))
  {
    var w1 := VolumeGetsReady(matches, WORLD_INIT, n, req, node, vg);
    w := VolumeGetsMarked(matches, w1, n, node, vg);
    ReachesTwice(Checked, matches, WORLD_INIT, w1, w);
    ReachedKeepsInv(matches, WORLD_INIT, w);
    UnsafeTakeOrphans(matches, w, s, n, Missing);
  }
}
