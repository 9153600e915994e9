/**
 A sync that may be about to make a snapshot's LV, although it should not, does no harm as long as
 it finds no origin to copy. It finds none when another LV of the origin's name is held elsewhere.
 */
module SnapshotRogue {
  import opened Records
  import opened Protocol
  import opened Versions
  import opened Safety
  import opened Calls
  import opened Snapshots
  import opened SnapshotSafety
  import opened SnapshotReach
  import opened SnapshotMoving
  import opened SnapshotStuck

  /** However the world goes on under the premises, every snapshot LV keeps its origin and its record. */
  ghost predicate SafeForever(matches: Matcher, w: World) {
    forall w' | Reaches(Checked, matches, w, w') :: SnapshotsSafe(w')
  }

  // ----- The world without the rogue sync -----

  function Stripped(w: World, s: string, node: string): World
    requires s in w.snaps
  {
    w.(snaps := w.snaps[s := SnapDone(w.snaps[s], node)])
  }

  /** Some snapshot of the volume is stuck. */
  predicate HeldByStuck(w: World, n: string) {
    exists t | t in w.snaps :: Stuck(w.snaps[t]) && IsSnapshotOf(w, t, n)
  }

  /** The snapshot itself is Pending, of a volume whose LV is not where the snapshot would be made. */
  predicate MadeOf(x: Snap, n: string, lv: Lv) {
    && x.rec.Some? && x.rec.value.state == Pending && x.lvs == {} && x.rec.value.origin == n
    && Lv(x.rec.value.owner, x.rec.value.volGroup) != lv
  }

  /**
   But for one sync, all is as it should be. That sync looks for an LV of its origin that is not
   there, and something holds the origin where it is.
   */
  predicate RogueInv(matches: Matcher, w: World, s: string, node: string, lv: Lv) {
    && s in w.snaps && SnapInPhase(w.snaps[s], node, SnapCreating) && WorldInv(matches, Stripped(w, s, node))
    && var copy := w.snaps[s].syncs[node].copy;
       && At(w.c, copy.origin).lvs == {lv} && lv != Lv(node, copy.volGroup)
       && (HeldByStuck(w, copy.origin) || MadeOf(w.snaps[s], copy.origin, lv))
  }

  lemma RogueIsSafeNow(matches: Matcher, w: World, s: string, node: string, lv: Lv)
    requires RogueInv(matches, w, s, node, lv)
    ensures SnapshotsSafe(w)
  {
    InvIsSafeNow(matches, Stripped(w, s, node));
    SameLvsSameSafety(Stripped(w, s, node), w);
  }

  lemma InvIsSafeNow(matches: Matcher, w: World)
    requires WorldInv(matches, w)
    ensures SnapshotsSafe(w)
  {
  }

  /** Safety is about volumes, records and LVs, not about syncs. */
  lemma SameLvsSameSafety(w: World, w': World)
    requires SnapshotsSafe(w) && w'.c == w.c && w'.snaps.Keys == w.snaps.Keys
    requires forall t | t in w.snaps :: w'.snaps[t].rec == w.snaps[t].rec && w'.snaps[t].lvs == w.snaps[t].lvs
    ensures SnapshotsSafe(w')
  {
  }

  lemma StrippedStaysStuck(w: World, s: string, node: string, t: string)
    requires s in w.snaps && SnapInPhase(w.snaps[s], node, SnapCreating) && t in w.snaps
    ensures Stuck(w.snaps[t]) <==> Stuck(Stripped(w, s, node).snaps[t])
  {
    if t == s {
      var x, y := w.snaps[s], SnapDone(w.snaps[s], node);
      forall other | other in x.syncs
        ensures AboutToPublish(x, other) ==> other in y.syncs && AboutToPublish(y, other)
      {
      }
    }
  }

  // ----- Steps of volumes -----

  /** The record that holds the origin. */
  lemma HolderIsSnapshot(matches: Matcher, w: World, s: string, node: string, lv: Lv) returns (t: string)
    requires RogueInv(matches, w, s, node, lv)
    ensures IsSnapshotOf(w, t, w.snaps[s].syncs[node].copy.origin)
  {
    if HeldByStuck(w, w.snaps[s].syncs[node].copy.origin) {
      t :| t in w.snaps && Stuck(w.snaps[t]) && IsSnapshotOf(w, t, w.snaps[s].syncs[node].copy.origin);
    } else {
      t := s;
    }
  }

  lemma OriginIsSafe(matches: Matcher, w: World, s: string, node: string, t: string)
    requires s in w.snaps && WorldInv(matches, Stripped(w, s, node)) && t in w.snaps && w.snaps[t].rec.Some?
    ensures var v := At(w.c, w.snaps[t].rec.value.origin); CanTake(v) && !Cleared(v)
  {
    var w0 := Stripped(w, s, node);
    assert t in w0.snaps && w0.snaps[t].rec == w.snaps[t].rec && SnapAnchored(w0, w0.snaps[t]);
  }

  lemma VolumeStepCommutes(matches: Matcher, w: World, s: string, node: string, e: Event)
    requires s in w.snaps && WorldLegal(Checked, matches, w, OnVolume(e))
    ensures WorldLegal(Checked, matches, Stripped(w, s, node), OnVolume(e))
    ensures Stripped(WorldNext(matches, w, OnVolume(e)), s, node)
            == WorldNext(matches, Stripped(w, s, node), OnVolume(e))
  {
    StrippedSnapshots(w, s, node, e.name);
  }

  lemma RogueOnVolume(matches: Matcher, w: World, s: string, node: string, lv: Lv, e: Event)
    requires RogueInv(matches, w, s, node, lv) && WorldLegal(Checked, matches, w, OnVolume(e))
    ensures RogueInv(matches, WorldNext(matches, w, OnVolume(e)), s, node, lv)
  {
    var w' := WorldNext(matches, w, OnVolume(e));
    var n, v := w.snaps[s].syncs[node].copy.origin, At(w.c, e.name);
    VolumeStepCommutes(matches, w, s, node, e);
    VolumeStepKeepsInv(matches, Stripped(w, s, node), e);
    if e.name == n {
      var t := HolderIsSnapshot(matches, w, s, node, lv);
      OriginIsSafe(matches, w, s, node, t);
      ValidatedHasNoSnapshot(matches, w, e, t);
      assert Sound(matches, v) && Versioned(v, w.c.clock) && CallsSound(v);
      HeldStaysHeld(matches, v, e.action, w.c.clock, lv);
    }
    HolderStays(w, w', n);
  }

  lemma StrippedSnapshots(w: World, s: string, node: string, n: string)
    requires s in w.snaps
    ensures NoSnapshotOf(w, n) <==> NoSnapshotOf(Stripped(w, s, node), n)
  {
    var w0 := Stripped(w, s, node);
    assert w0.snaps.Keys == w.snaps.Keys && forall t | t in w.snaps :: w0.snaps[t].rec == w.snaps[t].rec;
  }

  lemma HolderStays(w: World, w': World, n: string)
    requires w'.snaps == w.snaps
    ensures HeldByStuck(w', n) <==> HeldByStuck(w, n)
  {
  }

  // ----- Steps of snapshots -----

  lemma UpdatesCommute<T>(m: map<string, T>, k: string, x: T, l: string, y: T)
    requires k != l
    ensures m[k := x][l := y] == m[l := y][k := x]
  {
  }

  lemma OtherStepCommutes(matches: Matcher, w: World, s: string, node: string, t: string, a: SnapAction)
    requires s in w.snaps && t != s && WorldLegal(Checked, matches, w, OnSnap(t, a))
    ensures WorldLegal(Checked, matches, Stripped(w, s, node), OnSnap(t, a))
    ensures s in WorldNext(matches, w, OnSnap(t, a)).snaps && WorldNext(matches, w, OnSnap(t, a)).snaps[s] == w.snaps[s]
    ensures Stripped(WorldNext(matches, w, OnSnap(t, a)), s, node)
            == WorldNext(matches, Stripped(w, s, node), OnSnap(t, a))
  {
    var w0, x := Stripped(w, s, node), SnapAt(w, t);
    assert SnapAt(w0, t) == x;
    StepSeesCluster(w, w0, x, a);
    UpdatesCommute(w.snaps, t, SnapApply(w, x, a), s, SnapDone(w.snaps[s], node));
  }

  /** A step on another snapshot does not see the rogue sync. */
  lemma RogueOnOther(matches: Matcher, w: World, s: string, node: string, lv: Lv, t: string, a: SnapAction)
    requires RogueInv(matches, w, s, node, lv) && WorldLegal(Checked, matches, w, OnSnap(t, a)) && t != s
    ensures RogueInv(matches, WorldNext(matches, w, OnSnap(t, a)), s, node, lv)
  {
    var w' := WorldNext(matches, w, OnSnap(t, a));
    var n := w.snaps[s].syncs[node].copy.origin;
    OtherStepCommutes(matches, w, s, node, t, a);
    SnapStepKeepsInv(matches, Stripped(w, s, node), t, a);
    assert At(w'.c, n) == At(w.c, n);
    if HeldByStuck(w, n) {
      HolderStepsOn(matches, w, s, node, n, OnSnap(t, a));
    }
  }

  /** A stuck snapshot stays stuck through every step under the premises. */
  lemma HolderStepsOn(matches: Matcher, w: World, s: string, node: string, n: string, e: WorldEvent)
    requires s in w.snaps && SnapInPhase(w.snaps[s], node, SnapCreating) && WorldInv(matches, Stripped(w, s, node))
    requires HeldByStuck(w, n) && e.OnSnap? && WorldLegal(Checked, matches, w, e)
    requires WorldLegal(Checked, matches, Stripped(w, s, node), e)
    requires var w' := WorldNext(matches, w, e);
             && s in w'.snaps && SnapInPhase(w'.snaps[s], node, SnapCreating)
             && Stripped(w', s, node) == WorldNext(matches, Stripped(w, s, node), e)
    ensures HeldByStuck(WorldNext(matches, w, e), n)
  {
    var w0, w' := Stripped(w, s, node), WorldNext(matches, w, e);
    var u :| u in w.snaps && Stuck(w.snaps[u]) && IsSnapshotOf(w, u, n);
    StrippedStaysStuck(w, s, node, u);
    StuckStarts(matches, w0, u);
    StuckOnSnap(matches, w0, u, e.snap, e.action);
    StuckIsStuck(matches, WorldNext(matches, w0, e), u);
    StrippedStaysStuck(w', s, node, u);
    assert Stripped(w', s, node).snaps[u].rec == w'.snaps[u].rec && w0.snaps[u].rec == w.snaps[u].rec;
    assert IsSnapshotOf(w', u, n);
  }

  lemma UpdateThenRemove(m: map<string, SnapSync>, k: string, z: SnapSync, l: string)
    requires k != l
    ensures m[k := z] - {l} == (m - {l})[k := z]
  {
  }

  predicate TouchesSync(a: SnapAction, node: string) {
    (a.SnapCreate? || a.SnapAbort? || a.SnapCrash?) && a.node == node
  }

  /** A step that is not the rogue sync's own does the same with and without it. */
  lemma StepsCommute(w: World, x: Snap, node: string, a: SnapAction)
    requires SnapInPhase(x, node, SnapCreating) && SnapLegal(Checked, w, x, a) && !TouchesSync(a, node)
    ensures SnapLegal(Checked, w, SnapDone(x, node), a)
    ensures SnapApply(w, SnapDone(x, node), a) == SnapDone(SnapApply(w, x, a), node)
    ensures SnapInPhase(SnapApply(w, x, a), node, SnapCreating)
    ensures SnapApply(w, x, a).syncs[node] == x.syncs[node]
  {
    var y := SnapDone(x, node);
    if !(a.Take? || a.Drop? || a.SnapResync?) {
      assert a.node != node;
      if a.node in SnapApply(w, x, a).syncs {
        UpdateThenRemove(x.syncs, a.node, SnapApply(w, x, a).syncs[a.node], node);
      }
      assert x.syncs - {a.node} - {node} == x.syncs - {node} - {a.node};
    }
  }

  /** A Pending snapshot whose origin is elsewhere stays as it is while a sync is about to create it. */
  lemma MadeOfStays(w: World, x: Snap, n: string, lv: Lv, a: SnapAction)
    requires SnapLocal(x, w.c.clock) && MadeOf(x, n, lv) && At(w.c, n).lvs == {lv}
    requires SnapEnabled(w, x, a) && !a.Drop?
    ensures MadeOf(SnapApply(w, x, a), n, lv)
  {
    if a.SnapCreate? || a.SnapDestroy? || a.SnapFinalize? || a.SnapPublish? {
      assert SnapSyncSound(x, a.node, x.syncs[a.node], w.c.clock);
    }
  }

  lemma RogueOnOwn(matches: Matcher, w: World, s: string, node: string, lv: Lv, a: SnapAction)
    requires RogueInv(matches, w, s, node, lv) && WorldLegal(Checked, matches, w, OnSnap(s, a)) && !TouchesSync(a, node)
    ensures RogueInv(matches, WorldNext(matches, w, OnSnap(s, a)), s, node, lv)
  {
    var w', n := WorldNext(matches, w, OnSnap(s, a)), w.snaps[s].syncs[node].copy.origin;
    OwnStepCommutes(matches, w, s, node, a);
    SnapStepKeepsInv(matches, Stripped(w, s, node), s, a);
    assert At(w'.c, n) == At(w.c, n);
    if HeldByStuck(w, n) {
      HolderStepsOn(matches, w, s, node, n, OnSnap(s, a));
    } else {
      OwnStepLeavesPending(matches, w, s, node, n, lv, a);
    }
  }

  lemma OwnStepLeavesPending(matches: Matcher, w: World, s: string, node: string, n: string, lv: Lv, a: SnapAction)
    requires s in w.snaps && SnapInPhase(w.snaps[s], node, SnapCreating) && WorldInv(matches, Stripped(w, s, node))
    requires WorldLegal(Checked, matches, w, OnSnap(s, a)) && !TouchesSync(a, node)
    requires MadeOf(w.snaps[s], n, lv) && At(w.c, n).lvs == {lv}
    ensures MadeOf(WorldNext(matches, w, OnSnap(s, a)).snaps[s], n, lv)
  {
    var w0 := Stripped(w, s, node);
    OwnStepCommutes(matches, w, s, node, a);
    SnapAtIsSound(matches, w0, s);
    assert MadeOf(w0.snaps[s], n, lv) && !a.Drop?;
    MadeOfStays(w0, w0.snaps[s], n, lv, a);
  }

  lemma OwnStepCommutes(matches: Matcher, w: World, s: string, node: string, a: SnapAction)
    requires s in w.snaps && SnapInPhase(w.snaps[s], node, SnapCreating)
    requires WorldLegal(Checked, matches, w, OnSnap(s, a)) && !TouchesSync(a, node)
    ensures WorldLegal(Checked, matches, Stripped(w, s, node), OnSnap(s, a))
    ensures var w' := WorldNext(matches, w, OnSnap(s, a));
            && s in w'.snaps && SnapInPhase(w'.snaps[s], node, SnapCreating)
            && w'.snaps[s].syncs[node] == w.snaps[s].syncs[node]
            && Stripped(w', s, node) == WorldNext(matches, Stripped(w, s, node), OnSnap(s, a))
  {
    var w0, x := Stripped(w, s, node), w.snaps[s];
    StepsCommute(w, x, node, a);
    StepSeesCluster(w, w0, SnapDone(x, node), a);
    var x' := SnapApply(w, x, a);
    assert w.snaps[s := x'][s := SnapDone(x', node)] == w.snaps[s := SnapDone(x, node)][s := SnapDone(x', node)];
  }

  /** A step of a snapshot looks at volumes, not at other snapshots. */
  lemma StepSeesCluster(w: World, w0: World, x: Snap, a: SnapAction)
    requires w0.c == w.c && SnapLegal(Checked, w, x, a)
    ensures SnapLegal(Checked, w0, x, a) && SnapApply(w0, x, a) == SnapApply(w, x, a)
  {
  }

  /** The rogue sync's own step: it finds nothing to copy, and is gone. */
  lemma RogueEnds(matches: Matcher, w: World, s: string, node: string, a: SnapAction)
    requires s in w.snaps && WorldInv(matches, Stripped(w, s, node)) && SnapInPhase(w.snaps[s], node, SnapCreating)
    requires WorldLegal(Checked, matches, w, OnSnap(s, a)) && TouchesSync(a, node)
    requires var copy := w.snaps[s].syncs[node].copy; Lv(node, copy.volGroup) !in At(w.c, copy.origin).lvs
    ensures WorldInv(matches, WorldNext(matches, w, OnSnap(s, a)))
  {
    var w0, x' := Stripped(w, s, node), SnapApply(w, w.snaps[s], a);
    GivesUp(w, w.snaps[s], node, a);
    UpdateTwice(w.snaps, s, SnapDone(w.snaps[s], node), x');
    assert WorldNext(matches, w, OnSnap(s, a)) == WithSnap(w0, s, w0.snaps[s].(queue := x'.queue));
    QueueUpdateKeepsInv(matches, w0, s, x'.queue);
  }

  lemma UpdateTwice(m: map<string, Snap>, s: string, x: Snap, y: Snap)
    ensures m[s := x][s := y] == m[s := y]
  {
  }

  lemma QueueUpdateKeepsInv(matches: Matcher, w: World, s: string, queue: set<string>)
    requires WorldInv(matches, w) && s in w.snaps
    ensures WorldInv(matches, WithSnap(w, s, w.snaps[s].(queue := queue)))
  {
    SnapAtIsSound(matches, w, s);
    QueueDoesNotMatter(w, w.snaps[s], queue, w.c.clock);
    LocalMayAge(w.snaps[s].(queue := queue), w.c.clock);
    SnapUpdateKeepsInv(matches, w, s, w.snaps[s].(queue := queue));
  }

  lemma GivesUp(w: World, x: Snap, node: string, a: SnapAction)
    requires SnapInPhase(x, node, SnapCreating) && SnapEnabled(w, x, a) && TouchesSync(a, node)
    requires Lv(node, x.syncs[node].copy.volGroup) !in At(w.c, x.syncs[node].copy.origin).lvs
    ensures SnapApply(w, x, a) == SnapDone(x, node).(queue := SnapApply(w, x, a).queue)
  {
  }

  lemma QueueDoesNotMatter(w: World, y: Snap, queue: set<string>, now: nat)
    requires SnapLocal(y, now) && SnapAnchored(w, y)
    ensures SnapLocal(y.(queue := queue), now) && SnapAnchored(w, y.(queue := queue))
  {
    var z := y.(queue := queue);
    forall node | node in z.syncs
      ensures SnapSyncSound(z, node, z.syncs[node], now)
    {
      assert SnapSyncSound(y, node, y.syncs[node], now);
    }
  }

  // ----- Runs -----

  lemma {:induction false} RogueRunIsSafe(matches: Matcher, w: World, es: seq<WorldEvent>, s: string, node: string,
                                          lv: Lv)
    requires RogueInv(matches, w, s, node, lv) && WorldRun(Checked, matches, w, es)
    ensures SnapshotsSafe(WorldExec(Checked, matches, w, es))
    decreases |es|
  {
    if es == [] {
      RogueIsSafeNow(matches, w, s, node, lv);
    } else {
      var w1 := WorldNext(matches, w, es[0]);
      match es[0]
      case OnVolume(e) =>
        RogueOnVolume(matches, w, s, node, lv, e);
        RogueRunIsSafe(matches, w1, es[1..], s, node, lv);
      case OnSnap(t, a) =>
        if t == s && TouchesSync(a, node) {
          RogueEnds(matches, w, s, node, a);
          WorldRunKeepsInv(matches, w1, es[1..]);
        } else {
          if t == s {
            RogueOnOwn(matches, w, s, node, lv, a);
          } else {
            RogueOnOther(matches, w, s, node, lv, t, a);
          }
          RogueRunIsSafe(matches, w1, es[1..], s, node, lv);
        }
    }
  }

  /** A rogue sync does no harm, whatever happens under the premises. */
  lemma RogueIsSafe(matches: Matcher, w: World, s: string, node: string, lv: Lv)
    requires RogueInv(matches, w, s, node, lv)
    ensures SafeForever(matches, w)
  {
    forall w' | Reaches(Checked, matches, w, w')
      ensures SnapshotsSafe(w')
    {
      var es :| WorldRun(Checked, matches, w, es) && WorldExec(Checked, matches, w, es) == w';
      RogueRunIsSafe(matches, w, es, s, node, lv);
    }
  }
}
