/**
 An origin outlives its snapshots.
 */
module SnapshotSafety {
  import opened Records
  import opened Protocol
  import opened Versions
  import opened Safety
  import opened Theorems
  import opened Calls
  import opened Snapshots

  /** A delete call that has passed the check for snapshots and not yet deleted the record. */
  predicate Cleared(v: Volume) {
    exists id | id in v.calls :: v.calls[id].DeleteGet? || v.calls[id].DeleteDelete?
  }

  /** The origin of a snapshot record is not on its way out. */
  predicate OriginSafe(w: World, s: Snap) {
    s.rec.Some? ==> var v := At(w.c, s.rec.value.origin); CanTake(v) && !Cleared(v)
  }

  predicate SnapStateSound(s: Snap, now: nat) {
    s.rec.Some? ==>
      && s.rec.value.rv < now && s.rec.value.state != Failed && s.rec.value.volGroup != ""
      && (if s.rec.value.state == Pending then !s.rec.value.finalizer && !s.rec.value.marked else s.rec.value.finalizer)
  }

  predicate SnapHolds(s: Snap, node: string, copy: SnapRecord) {
    && s.rec.Some? && s.rec.value.state == Pending && s.rec.value.owner == node
    && s.rec.value.volGroup == copy.volGroup && s.rec.value.origin == copy.origin
  }

  predicate SnapSyncSound(s: Snap, node: string, y: SnapSync, now: nat) {
    && y.copy.rv < now && (SnapCurrent(s, y.copy) ==> s.rec.value == y.copy)
    && match y.phase
       case SnapDestroying =>
         && y.copy.marked
         && (forall l | l in s.lvs && l.node == node :: s.rec.Some? && s.rec.value.marked)
         && (SnapCurrent(s, y.copy) ==> y.copy.owner == node || s.lvs == {})
       case SnapFinalizing => y.copy.marked && (SnapCurrent(s, y.copy) ==> s.lvs == {})
       case SnapCreating => SnapHolds(s, node, y.copy)
       case SnapPublishing => SnapHolds(s, node, y.copy) && SnapLv(node, y.copy.volGroup, y.copy.origin) in s.lvs
  }

  /** What depends on the snapshot alone. */
  predicate SnapLocal(s: Snap, now: nat) {
    && SnapStateSound(s, now)
    && (forall l | l in s.lvs ::
          s.rec.Some? && l == SnapLv(s.rec.value.owner, s.rec.value.volGroup, s.rec.value.origin))
    && (forall node | node in s.syncs :: SnapSyncSound(s, node, s.syncs[node], now))
  }

  /** What ties the snapshot to its origin. */
  predicate SnapAnchored(w: World, s: Snap) {
    && (forall l | l in s.lvs :: Lv(l.node, l.vg) in At(w.c, l.origin).lvs)
    && OriginSafe(w, s)
  }

  predicate WorldInv(matches: Matcher, w: World) {
    && SerialInv(matches, w.c)
    && forall s | s in w.snaps :: SnapLocal(w.snaps[s], w.c.clock) && SnapAnchored(w, w.snaps[s])
  }

  // ----- Steps of the snapshot agent -----

  lemma SnapRecordStepLocal(w: World, s: Snap, a: SnapAction)
    requires SnapLocal(s, w.c.clock) && SnapLegal(Checked, w, s, a)
    requires a.Take? || a.Drop? || a.SnapFinalize? || a.SnapPublish?
    ensures SnapLocal(SnapApply(w, s, a), w.c.clock + 1)
  {
  }

  lemma SnapDestroyLocal(w: World, s: Snap, a: SnapAction)
    requires SnapLocal(s, w.c.clock) && SnapLegal(Checked, w, s, a) && a.SnapDestroy?
    ensures SnapLocal(SnapApply(w, s, a), w.c.clock + 1)
  {
    assert SnapSyncSound(s, a.node, s.syncs[a.node], w.c.clock);
  }

  lemma SnapCreateLocal(w: World, s: Snap, a: SnapAction)
    requires SnapLocal(s, w.c.clock) && SnapLegal(Checked, w, s, a) && a.SnapCreate?
    ensures SnapLocal(SnapApply(w, s, a), w.c.clock + 1)
  {
    assert SnapSyncSound(s, a.node, s.syncs[a.node], w.c.clock);
  }

  lemma SnapQuietStepLocal(w: World, s: Snap, a: SnapAction)
    requires SnapLocal(s, w.c.clock) && SnapLegal(Checked, w, s, a)
    requires a.SnapStart? || a.SnapAbort? || a.SnapCrash? || a.SnapResync?
    ensures SnapLocal(SnapApply(w, s, a), w.c.clock + 1)
  {
  }

  lemma SnapStepLocal(w: World, s: Snap, a: SnapAction)
    requires SnapLocal(s, w.c.clock) && SnapLegal(Checked, w, s, a)
    ensures SnapLocal(SnapApply(w, s, a), w.c.clock + 1)
  {
    if a.SnapDestroy? { SnapDestroyLocal(w, s, a); }
    else if a.SnapCreate? { SnapCreateLocal(w, s, a); }
    else if a.Take? || a.Drop? || a.SnapFinalize? || a.SnapPublish? { SnapRecordStepLocal(w, s, a); }
    else { SnapQuietStepLocal(w, s, a); }
  }

  /** A step of a snapshot keeps or removes its record's origin, or takes one that is safe. */
  lemma SnapStepAnchored(w: World, s: Snap, a: SnapAction)
    requires SnapLocal(s, w.c.clock) && SnapAnchored(w, s) && SnapLegal(Checked, w, s, a)
    ensures SnapAnchored(w, SnapApply(w, s, a))
  {
    match a
    case SnapCreate(node, _) => assert SnapSyncSound(s, node, s.syncs[node], w.c.clock);
    case SnapFinalize(node) => assert SnapSyncSound(s, node, s.syncs[node], w.c.clock);
    case SnapPublish(node) => assert SnapSyncSound(s, node, s.syncs[node], w.c.clock);
    case _ =>
  }

  lemma ClockMayPass(matches: Matcher, c: Cluster)
    requires SerialInv(matches, c)
    ensures SerialInv(matches, c.(clock := c.clock + 1))
  {
    forall n | n in c.vols
      ensures Versioned(c.vols[n], c.clock + 1)
    {
      assert Versioned(c.vols[n], c.clock);
    }
  }

  lemma LocalMayAge(s: Snap, now: nat)
    requires SnapLocal(s, now)
    ensures SnapLocal(s, now + 1)
  {
    forall node | node in s.syncs
      ensures SnapSyncSound(s, node, s.syncs[node], now + 1)
    {
      assert SnapSyncSound(s, node, s.syncs[node], now);
    }
  }

  /** Anchoring looks at the volumes only. */
  lemma AnchoredMayAge(w: World, w': World, s: Snap)
    requires SnapAnchored(w, s) && w'.c.vols == w.c.vols
    ensures SnapAnchored(w', s)
  {
    assert forall n :: At(w'.c, n) == At(w.c, n);
  }

  lemma SnapUpdateKeepsInv(matches: Matcher, w: World, s: string, x: Snap)
    requires WorldInv(matches, w) && SnapLocal(x, w.c.clock + 1) && SnapAnchored(w, x)
    ensures WorldInv(matches, World(w.c.(clock := w.c.clock + 1), w.snaps[s := x]))
  {
    var w' := World(w.c.(clock := w.c.clock + 1), w.snaps[s := x]);
    ClockMayPass(matches, w.c);
    AnchoredMayAge(w, w', x);
    forall t | t in w'.snaps && t != s
      ensures SnapLocal(w'.snaps[t], w'.c.clock) && SnapAnchored(w', w'.snaps[t])
    {
      LocalMayAge(w.snaps[t], w.c.clock);
      AnchoredMayAge(w, w', w.snaps[t]);
    }
  }

  lemma SnapAtIsSound(matches: Matcher, w: World, s: string)
    requires WorldInv(matches, w)
    ensures SnapLocal(SnapAt(w, s), w.c.clock) && SnapAnchored(w, SnapAt(w, s))
  {
  }

  lemma SnapStepKeepsInv(matches: Matcher, w: World, s: string, a: SnapAction)
    requires WorldInv(matches, w) && WorldLegal(Checked, matches, w, OnSnap(s, a))
    ensures WorldInv(matches, WorldNext(matches, w, OnSnap(s, a)))
  {
    var x := SnapAt(w, s);
    SnapAtIsSound(matches, w, s);
    var x' := SnapApply(w, x, a);
    assert SnapLocal(x', w.c.clock + 1) by { SnapStepLocal(w, x, a); }
    assert SnapAnchored(w, x') by { SnapStepAnchored(w, x, a); }
    SnapUpdateKeepsInv(matches, w, s, x');
    assert WorldNext(matches, w, OnSnap(s, a)) == World(w.c.(clock := w.c.clock + 1), w.snaps[s := x']);
  }

  // ----- Steps of the volume protocol -----

  /** What a step must not do to the origin of a snapshot. */
  predicate SparesOrigin(v: Volume, v': Volume) {
    && CanTake(v') && !Cleared(v')
    && (v.rec.Some? && !v.rec.value.marked ==> v.lvs <= v'.lvs)
  }

  /** Only a delete call that was cleared can mark a record. */
  lemma CallSparesOrigin(matches: Matcher, v: Volume, id: nat, owner: string, now: nat)
    requires Sound(matches, v) && Versioned(v, now) && CanTake(v) && !Cleared(v)
    requires id in v.calls && (Deletes(v.calls[id]) ==> CanDelete(v)) && CallSound(v, v.calls[id])
    ensures SparesOrigin(v, DoStep(v, id, owner, now))
  {
    assert FreshCall(v, v.calls[id], now);
  }

  lemma StepSparesOrigin(matches: Matcher, v: Volume, a: Action, now: nat)
    requires Sound(matches, v) && Versioned(v, now) && CallsSound(v) && CanTake(v) && !Cleared(v)
    requires Enabled(matches, v, a) && Premise(v, a) && !(a.Validate? && a.ok)
    ensures SparesOrigin(v, Apply(matches, v, a, now))
  {
    StepOrderly(matches, v, a, now);
    if a.Step? {
      CallSparesOrigin(matches, v, a.id, a.owner, now);
    } else if !IsCallAction(a) {
      AgentStepKeeps(matches, v, a, now);
    }
  }

  lemma VolumeStepKeepsInv(matches: Matcher, w: World, e: Event)
    requires WorldInv(matches, w) && WorldLegal(Checked, matches, w, OnVolume(e))
    ensures WorldInv(matches, WorldNext(matches, w, OnVolume(e)))
  {
    var w' := WorldNext(matches, w, OnVolume(e));
    var v := At(w.c, e.name);
    NextKeepsInv(Serial, matches, w.c, e);
    StepCallsSound(matches, v, e.action, w.c.clock);
    forall t | t in w'.snaps
      ensures SnapLocal(w'.snaps[t], w'.c.clock) && SnapAnchored(w', w'.snaps[t])
    {
      LocalMayAge(w.snaps[t], w.c.clock);
      var s := w.snaps[t];
      if s.rec.Some? && s.rec.value.origin == e.name {
        ValidatedHasNoSnapshot(matches, w, e, t);
        StepSparesOrigin(matches, v, e.action, w.c.clock);
      }
    }
  }

  lemma ValidatedHasNoSnapshot(matches: Matcher, w: World, e: Event, t: string)
    requires WorldLegal(Checked, matches, w, OnVolume(e))
    requires t in w.snaps && w.snaps[t].rec.Some? && w.snaps[t].rec.value.origin == e.name
    ensures !(e.action.Validate? && e.action.ok)
  {
  }

  lemma WorldStepKeepsInv(matches: Matcher, w: World, e: WorldEvent)
    requires WorldInv(matches, w) && WorldLegal(Checked, matches, w, e)
    ensures WorldInv(matches, WorldNext(matches, w, e))
  {
    match e
    case OnVolume(event) => VolumeStepKeepsInv(matches, w, event);
    case OnSnap(s, a) => SnapStepKeepsInv(matches, w, s, a);
  }

  lemma {:induction false} WorldRunKeepsInv(matches: Matcher, w: World, es: seq<WorldEvent>)
    requires WorldInv(matches, w) && WorldRun(Checked, matches, w, es)
    ensures WorldInv(matches, WorldExec(Checked, matches, w, es))
    decreases |es|
  {
    if es != [] {
      WorldStepKeepsInv(matches, w, es[0]);
      WorldRunKeepsInv(matches, WorldNext(matches, w, es[0]), es[1..]);
    }
  }

  /** Every snapshot LV has its origin's LV beside it. */
  predicate OriginsPresent(w: World) {
    forall s, l | s in w.snaps && l in w.snaps[s].lvs :: Lv(l.node, l.vg) in At(w.c, l.origin).lvs
  }

  /** Every snapshot LV has a record that names its node, volume group and origin. */
  predicate SnapsRecorded(w: World) {
    forall s, l | s in w.snaps && l in w.snaps[s].lvs ::
      var rec := w.snaps[s].rec;
      rec.Some? && l == SnapLv(rec.value.owner, rec.value.volGroup, rec.value.origin)
  }

  predicate SnapshotsSafe(w: World) {
    OriginsPresent(w) && SnapsRecorded(w)
  }

  /**
   In every reachable state every snapshot LV has its origin, and has a record that names its
   node, volume group and origin: no step destroys an origin under a snapshot.
   */
  lemma OriginOutlivesSnapshots(matches: Matcher, es: seq<WorldEvent>)
    requires WorldRun(Checked, matches, WORLD_INIT, es)
    ensures SnapshotsSafe(WorldExec(Checked, matches, WORLD_INIT, es))
  {
    WorldRunKeepsInv(matches, WORLD_INIT, es);
  }

  // ----- What callers and nodes can see to themselves -----

  /** Take from a volume that is not marked, delete a snapshot that has left Pending, sync on its owner. */
  predicate SnapCareful(w: World, s: Snap, a: SnapAction) {
    match a
    case Take(origin, _) => At(w.c, origin).rec.Some? ==> !At(w.c, origin).rec.value.marked
    case Drop => s.rec.Some? ==> s.rec.value.state != Pending
    case SnapStart(node) => s.rec.Some? ==> s.rec.value.owner == node
    case _ => true
  }

  predicate CarefulWorldRun(matches: Matcher, w: World, es: seq<WorldEvent>)
    decreases |es|
  {
    es != [] ==>
      && WorldLegal(Unchecked, matches, w, es[0])
      && (es[0].OnSnap? ==> SnapCareful(w, SnapAt(w, es[0].snap), es[0].action))
      && CarefulWorldRun(matches, WorldNext(matches, w, es[0]), es[1..])
  }

  lemma {:induction false} CarefulWorldRunIsChecked(matches: Matcher, w: World, es: seq<WorldEvent>)
    requires WorldInv(matches, w) && CarefulWorldRun(matches, w, es)
    ensures WorldRun(Checked, matches, w, es)
    decreases |es|
  {
    if es != [] {
      if es[0].OnSnap? {
        SnapAtIsSound(matches, w, es[0].snap);
      }
      assert WorldLegal(Checked, matches, w, es[0]);
      WorldStepKeepsInv(matches, w, es[0]);
      CarefulWorldRunIsChecked(matches, WorldNext(matches, w, es[0]), es[1..]);
    }
  }

  /** The same for the code under conditions that are visible in the records alone. */
  lemma CarefulWorldRunsAreSafe(matches: Matcher, es: seq<WorldEvent>)
    requires CarefulWorldRun(matches, WORLD_INIT, es)
    ensures WorldRun(Checked, matches, WORLD_INIT, es) && SnapshotsSafe(WorldExec(Checked, matches, WORLD_INIT, es))
  {
    CarefulWorldRunIsChecked(matches, WORLD_INIT, es);
    OriginOutlivesSnapshots(matches, es);
  }
}
