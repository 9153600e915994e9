/**
 What it takes to move a volume that snapshots are taken of: none of its snapshots may be in the
 way. One that is not stuck can be deleted first; one that is stuck holds the volume for good.
 */
module SnapshotMoving {
  import opened Records
  import opened Protocol
  import opened Versions
  import opened Safety
  import opened Progress
  import opened Moving
  import opened Snapshots
  import opened SnapshotSafety
  import opened SnapshotReach

  // ----- Deleting the snapshots of a volume -----

  predicate IsSnapshotOf(w: World, t: string, n: string) {
    t in w.snaps && w.snaps[t].rec.Some? && w.snaps[t].rec.value.origin == n
  }

  function OthersOf(w: World, n: string, s: string): set<string> {
    set t | t in w.snaps && t != s && IsSnapshotOf(w, t, n)
  }

  lemma LocalMayAgeTo(x: Snap, now: nat, later: nat)
    requires SnapLocal(x, now) && now <= later
    ensures SnapLocal(x, later)
  {
    forall node | node in x.syncs
      ensures SnapSyncSound(x, node, x.syncs[node], later)
    {
      assert SnapSyncSound(x, node, x.syncs[node], now);
    }
  }

  lemma OneGoes(matches: Matcher, w: World, n: string, s: string, t: string) returns (w': World)
    requires forall u | u in OthersOf(w, n, s) :: SnapLocal(w.snaps[u], w.c.clock) && !Stuck(w.snaps[u])
    requires t in OthersOf(w, n, s)
    ensures Reaches(Checked, matches, w, w') && w'.c.vols == w.c.vols && w.c.clock <= w'.c.clock
    ensures s in w.snaps ==> s in w'.snaps && w'.snaps[s] == w.snaps[s]
    ensures OthersOf(w', n, s) == OthersOf(w, n, s) - {t}
    ensures forall u | u in OthersOf(w', n, s) :: SnapLocal(w'.snaps[u], w'.c.clock) && !Stuck(w'.snaps[u])
  {
    w' := SnapshotGoes(matches, w, t);
    forall u | u != t
      ensures u in w'.snaps <==> u in w.snaps
      ensures u in w.snaps ==> w'.snaps[u] == w.snaps[u]
    {
      OtherSnapsStay(w, w', t, u);
    }
    forall u | u in OthersOf(w', n, s)
      ensures SnapLocal(w'.snaps[u], w'.c.clock) && !Stuck(w'.snaps[u])
    {
      assert u in OthersOf(w, n, s) && u != t;
      LocalMayAgeTo(w.snaps[u], w.c.clock, w'.c.clock);
    }
  }

  /** All other snapshots of a volume can be deleted when none of them is stuck. */
  lemma {:induction false} OthersGo(matches: Matcher, w: World, n: string, s: string) returns (w': World)
    requires forall u | u in OthersOf(w, n, s) :: SnapLocal(w.snaps[u], w.c.clock) && !Stuck(w.snaps[u])
    ensures Reaches(Checked, matches, w, w') && w'.c.vols == w.c.vols && w.c.clock <= w'.c.clock
    ensures s in w.snaps ==> s in w'.snaps && w'.snaps[s] == w.snaps[s]
    ensures OthersOf(w', n, s) == {}
    decreases |OthersOf(w, n, s)|
  {
    if OthersOf(w, n, s) == {} {
      ReachesItself(Checked, matches, w);
      w' := w;
    } else {
      var t :| t in OthersOf(w, n, s);
      var w1 := OneGoes(matches, w, n, s, t);
      w' := OthersGo(matches, w1, n, s);
      ReachesTwice(Checked, matches, w, w1, w');
    }
  }

  // ----- Moving the volume -----

  lemma EmptyMoves(matches: Matcher, w: World, n: string, p: string, node: string, vg: string) returns (w': World)
    requires Sound(matches, At(w.c, n)) && Versioned(At(w.c, n), w.c.clock) && At(w.c, n).lvs == {}
    requires p != "" && vg != "" && matches(p, vg)
    ensures Reaches(Checked, matches, w, w') && w'.snaps == w.snaps && Lv(node, vg) in At(w'.c, n).lvs
  {
    var v, later := EmptyCanMove(matches, At(w.c, n), w.c.clock, p, node, vg);
    w' := LeadsReaches(Checked, matches, w, n, v, later);
  }

  /** A volume with its LV can come to rest: Ready, and no call about it. */
  lemma StandingRests(matches: Matcher, v: Volume, now: nat) returns (v': Volume, later: nat)
    requires Sound(matches, v) && Versioned(v, now) && v.lvs != {} && CanTake(v)
    ensures Leads(matches, v, now, v', later) && Sound(matches, v') && Versioned(v', later)
    ensures v'.rec.Some? && v'.rec.value.state == Ready && v'.calls == map[]
  {
    var u := v.(calls := map[]);
    var t := CallsCanEnd(matches, v, now);
    LeadsKeepsSound(matches, v, now, u, t);
    var lv :| lv in v.lvs;
    v', later := u, t;
    if u.rec.value.state == Pending {
      v', later := PendingCanGetReady(matches, u, t, "");
      LeadsThrough(matches, v, now, u, t, v', later);
    }
    LeadsKeepsSound(matches, v, now, v', later);
  }

  /** A delete call passes the check for snapshots. */
  lemma DeleteGetsValidated(matches: Matcher, w: World, n: string) returns (w': World)
    requires At(w.c, n).calls == map[] && NoSnapshotOf(w, n)
    ensures Reaches(Checked, matches, w, w') && w'.snaps == w.snaps && w'.c.clock == w.c.clock + 2
    ensures At(w'.c, n) == WithCall(At(w.c, n), DeleteGet)
  {
    var v := At(w.c, n);
    ValidationTakes(matches, v, w.c.clock, DeleteValidate, DeleteGet);
    var w1 := FirstStepReaches(Checked, matches, w, n, Begin(0, DeleteValidate), WithCall(v, DeleteValidate));
    w' := FirstStepReaches(Checked, matches, w1, n, Validate(0, true), WithCall(v, DeleteGet));
    ReachesTwice(Checked, matches, w, w1, w');
  }

  /** It goes on to take the volume away. */
  lemma RestingGoes(matches: Matcher, w: World, n: string) returns (w': World)
    requires Sound(matches, At(w.c, n)) && Versioned(At(w.c, n), w.c.clock) && At(w.c, n).calls == map[]
    requires At(w.c, n).rec.Some? && At(w.c, n).rec.value.state == Ready && NoSnapshotOf(w, n)
    ensures Reaches(Checked, matches, w, w') && w'.snaps == w.snaps && At(w'.c, n).lvs == {}
    ensures Sound(matches, At(w'.c, n)) && Versioned(At(w'.c, n), w'.c.clock)
  {
    var v := At(w.c, n);
    DeletableSuffices(matches, v);
    ValidatedCanFinish(matches, v, w.c.clock);
    CallsDoNotMatter(matches, v, w.c.clock, DeleteGet, w.c.clock + 2);
    var w1 := DeleteGetsValidated(matches, w, n);
    var v', later :| Leads(matches, WithCall(v, DeleteGet), w.c.clock + 2, v', later) && ReportsDeleted(v', later);
    LeadsKeepsSound(matches, WithCall(v, DeleteGet), w.c.clock + 2, v', later);
    w' := LeadsReaches(Checked, matches, w1, n, v', later);
    ReachesTwice(Checked, matches, w, w1, w');
  }

  /** A volume without snapshots can be deleted and made anew, on any node. */
  lemma StandingMoves(matches: Matcher, w: World, n: string, p: string, node: string, vg: string) returns (w': World)
    requires Sound(matches, At(w.c, n)) && Versioned(At(w.c, n), w.c.clock) && At(w.c, n).lvs != {}
    requires CanTake(At(w.c, n)) && NoSnapshotOf(w, n)
    requires p != "" && vg != "" && matches(p, vg)
    ensures Reaches(Checked, matches, w, w') && w'.snaps == w.snaps && Lv(node, vg) in At(w'.c, n).lvs
  {
    var v, later := StandingRests(matches, At(w.c, n), w.c.clock);
    var w1 := LeadsReaches(Checked, matches, w, n, v, later);
    var w2 := RestingGoes(matches, w1, n);
    ReachesTwice(Checked, matches, w, w1, w2);
    w' := EmptyMoves(matches, w2, n, p, node, vg);
    ReachesTwice(Checked, matches, w, w2, w');
  }
}
