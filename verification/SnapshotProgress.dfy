/**
 What can still become of a snapshot: when it can become Ready, when it can be deleted, and what a
 crash between lvcreate and the record's update does to it.
 */
module SnapshotProgress {
  import opened Records
  import opened Moving
  import opened Snapshots
  import opened SnapshotSafety
  import opened SnapshotReach
  import opened SnapshotStuck
  import opened SnapshotAway
  import opened SnapshotRogue
  import opened SnapshotPremise

  // ----- Becoming Ready -----

  predicate IsReady(w: World, s: string) {
    s in w.snaps && w.snaps[s].rec.Some? && w.snaps[s].rec.value.state == Ready
  }

  /** The run does not delete the snapshot, and it is Ready at the end. */
  predicate MakesReady(rules: WorldRules, matches: Matcher, w: World, es: seq<WorldEvent>, s: string) {
    && WorldRun(rules, matches, w, es) && (forall e | e in es :: Spares(e, s))
    && IsReady(WorldExec(rules, matches, w, es), s)
  }

  /** Without being deleted, the snapshot becomes Ready in some run. */
  ghost predicate CanGetReady(rules: WorldRules, matches: Matcher, w: World, s: string) {
    exists es :: MakesReady(rules, matches, w, es, s)
  }

  /** Not stuck, and its LV is there, or its origin's is where some sync looks for it, or nowhere yet. */
  predicate MayGetReady(rules: WorldRules, w: World, x: Snap)
    requires x.rec.Some?
  {
    var lvs := At(w.c, x.rec.value.origin).lvs;
    && !Stuck(x)
    && (x.lvs != {} || lvs == {} || exists node | node in Lookers(rules, x) :: Lv(node, x.rec.value.volGroup) in lvs)
  }

  lemma ReadyAfterRun(rules: WorldRules, matches: Matcher, w: World, s: string, es: seq<WorldEvent>, w1: World)
    requires WorldRun(rules, matches, w, es) && WorldExec(rules, matches, w, es) == w1
    requires (forall e | e in es :: Spares(e, s)) && CanGetReady(rules, matches, w1, s)
    ensures CanGetReady(rules, matches, w, s)
  {
    var more :| MakesReady(rules, matches, w1, more, s);
    RunsJoin(rules, matches, w, es, more);
    assert MakesReady(rules, matches, w, es + more, s);
  }

  /** One step of the snapshot's agent first. */
  lemma ReadyAfterStep(rules: WorldRules, matches: Matcher, w: World, s: string, a: SnapAction, x: Snap)
    requires s in w.snaps && SnapLegal(rules, w, w.snaps[s], a) && !a.Drop?
    requires x == SnapApply(w, w.snaps[s], a) && CanGetReady(rules, matches, WithSnap(w, s, x), s)
    ensures CanGetReady(rules, matches, w, s)
  {
    var first, w1 := OnSnap(s, a), WithSnap(w, s, x);
    assert WorldNext(matches, w, first) == w1 && [first][1..] == [];
    assert WorldRun(rules, matches, w1, []) && WorldExec(rules, matches, w1, []) == w1;
    ReadyAfterRun(rules, matches, w, s, [first], w1);
  }

  lemma ReadyNow(rules: WorldRules, matches: Matcher, w: World, s: string)
    requires IsReady(w, s)
    ensures CanGetReady(rules, matches, w, s)
  {
    assert MakesReady(rules, matches, w, [], s);
  }

  /** A record an agent can take up. */
  predicate IsPending(x: Snap) {
    x.rec.Some? && x.rec.value.state == Pending && !x.rec.value.marked && !x.rec.value.finalizer
  }

  lemma PublishingCanGetReady(rules: WorldRules, matches: Matcher, w: World, s: string, node: string)
    requires s in w.snaps && IsPending(w.snaps[s]) && AboutToPublish(w.snaps[s], node)
    requires w.snaps[s].rec.value == w.snaps[s].syncs[node].copy
    ensures CanGetReady(rules, matches, w, s)
  {
    var x := DoSnapPublish(w.snaps[s], node, w.c.clock);
    ReadyNow(rules, matches, WithSnap(w, s, x), s);
    ReadyAfterStep(rules, matches, w, s, SnapPublish(node), x);
  }

  /** A node whose key is queued and that has the origin's LV can make the snapshot, if it may sync it. */
  lemma QueuedCanGetReady(rules: WorldRules, matches: Matcher, w: World, s: string, node: string)
    requires s in w.snaps && IsPending(w.snaps[s]) && w.snaps[s].lvs == {}
    requires node in w.snaps[s].queue && node !in w.snaps[s].syncs
    requires Lv(node, w.snaps[s].rec.value.volGroup) in At(w.c, w.snaps[s].rec.value.origin).lvs
    requires rules == Checked ==> node == w.snaps[s].rec.value.owner
    ensures CanGetReady(rules, matches, w, s)
  {
    var x, n := w.snaps[s], w.snaps[s].rec.value.origin;
    var x1 := DoSnapStart(x, node);
    var x2 := DoSnapCreate(x1, At(w.c, n), node, true);
    var w1 := WithSnap(w, s, x1);
    assert At(w1.c, n) == At(w.c, n);
    PublishingCanGetReady(rules, matches, WithSnap(w1, s, x2), s, node);
    ReadyAfterStep(rules, matches, w1, s, SnapCreate(node, true), x2);
    ReadyAfterStep(rules, matches, w, s, SnapStart(node), x1);
  }

  lemma OwnerCanGetReady(rules: WorldRules, matches: Matcher, w: World, s: string)
    requires s in w.snaps && IsPending(w.snaps[s]) && w.snaps[s].lvs == {}
    requires var r := w.snaps[s].rec.value; Lv(r.owner, r.volGroup) in At(w.c, r.origin).lvs
    ensures CanGetReady(rules, matches, w, s)
  {
    var x, r := w.snaps[s], w.snaps[s].rec.value;
    var x1 := SnapCrashed(x, r.owner);
    var x2 := x1.(queue := x1.queue + {r.owner});
    var w1 := WithSnap(w, s, x1);
    var w2 := WithSnap(w1, s, x2);
    assert At(w2.c, r.origin) == At(w.c, r.origin);
    QueuedCanGetReady(rules, matches, w2, s, r.owner);
    ReadyAfterStep(rules, matches, w1, s, SnapResync(r.owner), x2);
    ReadyAfterStep(rules, matches, w, s, SnapCrash(r.owner), x1);
  }

  /** A node that is not the owner, by a key that it still has or gets back from a sync that ends early. */
  lemma ForeignCanGetReady(matches: Matcher, w: World, s: string, node: string)
    requires s in w.snaps && IsPending(w.snaps[s]) && w.snaps[s].lvs == {}
    requires node in w.snaps[s].queue || node in w.snaps[s].syncs
    requires Lv(node, w.snaps[s].rec.value.volGroup) in At(w.c, w.snaps[s].rec.value.origin).lvs
    ensures CanGetReady(Unchecked, matches, w, s)
  {
    var x := w.snaps[s];
    if node in x.syncs {
      var x1 := SnapRequeue(x, node);
      var w1 := WithSnap(w, s, x1);
      assert At(w1.c, x.rec.value.origin) == At(w.c, x.rec.value.origin);
      QueuedCanGetReady(Unchecked, matches, w1, s, node);
      ReadyAfterStep(Unchecked, matches, w, s, SnapAbort(node), x1);
    } else {
      QueuedCanGetReady(Unchecked, matches, w, s, node);
    }
  }

  /** The origin gets its LV first. */
  lemma EarlyCanGetReady(rules: WorldRules, matches: Matcher, w: World, s: string, p: string)
    requires rules != Open && WorldInv(matches, w) && s in w.snaps && IsPending(w.snaps[s]) && w.snaps[s].lvs == {}
    requires At(w.c, w.snaps[s].rec.value.origin).lvs == {} && p != "" && matches(p, w.snaps[s].rec.value.volGroup)
    ensures CanGetReady(rules, matches, w, s)
  {
    var r := w.snaps[s].rec.value;
    VolumeStaysSound(matches, w, w, r.origin);
    SnapAtIsSound(matches, w, s);
    var v, later := EmptyCanMove(matches, At(w.c, r.origin), w.c.clock, p, r.owner, r.volGroup);
    var es, w1 := LeadsRuns(rules, matches, w, r.origin, v, later);
    OwnerCanGetReady(rules, matches, w1, s);
    assert forall e | e in es :: Spares(e, s);
    ReadyAfterRun(rules, matches, w, s, es, w1);
  }

  lemma NotStuckCanGetReady(rules: WorldRules, matches: Matcher, w: World, s: string, p: string)
    requires rules != Open && WorldInv(matches, w) && s in w.snaps
    requires w.snaps[s].rec.Some? && w.snaps[s].rec.value.state == Pending
    requires MayGetReady(rules, w, w.snaps[s]) && p != "" && matches(p, w.snaps[s].rec.value.volGroup)
    ensures CanGetReady(rules, matches, w, s)
  {
    var x := w.snaps[s];
    SnapAtIsSound(matches, w, s);
    if x.lvs != {} {
      var node :| node in x.syncs && AboutToPublish(x, node);
      assert SnapSyncSound(x, node, x.syncs[node], w.c.clock);
      PublishingCanGetReady(rules, matches, w, s, node);
    } else if At(w.c, x.rec.value.origin).lvs == {} {
      EarlyCanGetReady(rules, matches, w, s, p);
    } else {
      var node :| node in Lookers(rules, x) && Lv(node, x.rec.value.volGroup) in At(w.c, x.rec.value.origin).lvs;
      if node == x.rec.value.owner {
        OwnerCanGetReady(rules, matches, w, s);
      } else {
        ForeignCanGetReady(matches, w, s, node);
      }
    }
  }

  lemma CheckedIsUnchecked(matches: Matcher, w: World, s: string)
    requires CanGetReady(Checked, matches, w, s)
    ensures CanGetReady(Unchecked, matches, w, s)
  {
    var es :| MakesReady(Checked, matches, w, es, s);
    CheckedRunIsRun(matches, w, es);
    assert MakesReady(Unchecked, matches, w, es, s);
  }

  lemma StuckNeverReady(matches: Matcher, w: World, s: string)
    requires WorldInv(matches, w) && s in w.snaps && Stuck(w.snaps[s])
    ensures !CanGetReady(Unchecked, matches, w, s) && !CanGetReady(Checked, matches, w, s)
  {
    forall es
      ensures !MakesReady(Unchecked, matches, w, es, s)
    {
      if WorldRun(Unchecked, matches, w, es) && forall e | e in es :: Spares(e, s) {
        StuckForGood(matches, w, es, s);
      }
    }
    if CanGetReady(Checked, matches, w, s) {
      CheckedIsUnchecked(matches, w, s);
    }
  }

  lemma AwayNeverReady(rules: WorldRules, matches: Matcher, w: World, s: string)
    requires rules != Open && WorldInv(matches, w) && s in w.snaps
    requires w.snaps[s].rec.Some? && w.snaps[s].rec.value.state == Pending
    requires !MayGetReady(rules, w, w.snaps[s]) && !Stuck(w.snaps[s])
    ensures !CanGetReady(rules, matches, w, s)
  {
    var n := w.snaps[s].rec.value.origin;
    var lv := OnlyLv(matches, w, n);
    AwayStarts(rules, matches, w, s, n, lv);
    forall es
      ensures !MakesReady(rules, matches, w, es, s)
    {
      if WorldRun(rules, matches, w, es) && forall e | e in es :: Spares(e, s) {
        AwayRun(rules, matches, w, es, s, n, lv);
      }
    }
  }

  /**
   Without being deleted, a Pending snapshot can become Ready if and only if `MayGetReady` holds:
   under the premises, and with snapshots as the code handles them. `p` is some pattern that
   accepts the snapshot's volume group.
   */
  lemma SnapshotReadyIff(rules: WorldRules, matches: Matcher, w: World, s: string, p: string)
    requires rules != Open && WorldInv(matches, w) && s in w.snaps
    requires w.snaps[s].rec.Some? && w.snaps[s].rec.value.state == Pending
    requires p != "" && matches(p, w.snaps[s].rec.value.volGroup)
    ensures CanGetReady(rules, matches, w, s) <==> MayGetReady(rules, w, w.snaps[s])
  {
    if MayGetReady(rules, w, w.snaps[s]) {
      NotStuckCanGetReady(rules, matches, w, s, p);
    } else if Stuck(w.snaps[s]) {
      StuckNeverReady(matches, w, s);
    } else {
      AwayNeverReady(rules, matches, w, s);
    }
  }

  lemma OnePublisher(matches: Matcher, w: World, s: string, node: string, other: string)
    requires WorldInv(matches, w) && s in w.snaps
    requires AboutToPublish(w.snaps[s], node) && AboutToPublish(w.snaps[s], other)
    ensures node == other
  {
    var x := w.snaps[s];
    assert SnapSyncSound(x, other, x.syncs[other], w.c.clock);
    assert SnapSyncSound(x, node, x.syncs[node], w.c.clock);
  }

  /** A crash of the agent between lvcreate and the update is what makes a snapshot stuck. */
  lemma CrashMakesStuck(matches: Matcher, w: World, s: string, node: string)
    requires WorldInv(matches, w) && s in w.snaps && AboutToPublish(w.snaps[s], node)
    ensures Stuck(SnapApply(w, w.snaps[s], SnapCrash(node)))
    ensures !CanGetReady(Unchecked, matches, WithSnap(w, s, SnapApply(w, w.snaps[s], SnapCrash(node))), s)
  {
    var x := w.snaps[s];
    forall other | other in x.syncs && other != node
      ensures !AboutToPublish(x, other)
    {
      if AboutToPublish(x, other) {
        OnePublisher(matches, w, s, node, other);
      }
    }
    assert SnapSyncSound(x, node, x.syncs[node], w.c.clock);
    SnapStepKeepsInv(matches, w, s, SnapCrash(node));
    StuckNeverReady(matches, WithSnap(w, s, SnapApply(w, x, SnapCrash(node))), s);
  }

  // ----- Being deleted -----

  /** The code deletes a stuck snapshot's record at once and leaves its LV. */
  lemma StuckDropLeaks(matches: Matcher, w: World, s: string)
    requires WorldInv(matches, w) && s in w.snaps && Stuck(w.snaps[s])
    ensures !CanDrop(w.snaps[s])
    ensures var x := SnapAt(WorldNext(matches, w, OnSnap(s, Drop)), s); x.rec.None? && x.lvs != {}
    ensures !SafeForever(matches, WorldNext(matches, w, OnSnap(s, Drop)))
  {
    SnapAtIsSound(matches, w, s);
    var w1 := SnapStepSpares(Unchecked, matches, w, s, Drop);
    ReachesItself(Checked, matches, w1);
    var l :| l in w.snaps[s].lvs;
    ReachesUnsafe(matches, w1, w1, s, l);
  }

  /** Some run under the premises leaves neither the snapshot's record nor its LV. */
  ghost predicate CanBeDeleted(matches: Matcher, w: World, s: string) {
    exists w' :: Reaches(Checked, matches, w, w') && s in w'.snaps && IsGone(w'.snaps[s])
  }

  /** A snapshot can be deleted without a trace if and only if it is not stuck. */
  lemma SnapshotDeletableIff(matches: Matcher, w: World, s: string)
    requires WorldInv(matches, w) && s in w.snaps && w.snaps[s].rec.Some?
    ensures CanBeDeleted(matches, w, s) <==> !Stuck(w.snaps[s])
  {
    if Stuck(w.snaps[s]) {
      forall w' | Reaches(Checked, matches, w, w')
        ensures !(s in w'.snaps && IsGone(w'.snaps[s]))
      {
        var es :| WorldRun(Checked, matches, w, es) && WorldExec(Checked, matches, w, es) == w';
        StuckStays(matches, w, es, s);
      }
    } else {
      SnapAtIsSound(matches, w, s);
      var w' := SnapshotGoes(matches, w, s);
    }
  }
}
