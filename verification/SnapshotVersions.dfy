/**
 What compare-and-swap gives for snapshot records, with no premise at all: a record keeps what it
 was taken with, and its size stays within its origin, also when an expansion overtakes it. With
 calls that do not overlap, an origin is not expanded at all.
 */
module SnapshotVersions {
  import opened Capacity
  import opened Records
  import opened Protocol
  import opened Versions
  import opened SnapshotSize
  import opened Snapshots

  predicate SnapFresh(s: Snap, copy: SnapRecord, now: nat) {
    copy.rv < now && (SnapCurrent(s, copy) ==> s.rec.value == copy)
  }

  predicate SnapVersioned(s: Snap, now: nat) {
    && (s.rec.Some? ==> s.rec.value.rv < now && s.rec.value.uid < now && s.rec.value.originUid < now)
    && forall node | node in s.syncs :: SnapFresh(s, s.syncs[node].copy, now)
  }

  /** What no step changes in a snapshot record. */
  predicate SnapDescends(r: SnapRecord, r': SnapRecord) {
    && r'.uid == r.uid && r'.origin == r.origin && r'.originUid == r.originUid
    && r'.owner == r.owner && r'.volGroup == r.volGroup && r'.size == r.size
    && (r.marked ==> r'.marked) && (r.state == Ready ==> r'.state == Ready)
  }

  /** A record older than `now` was there before, and descends from what it was. */
  predicate SnapEvolves(s: Snap, s': Snap, now: nat) {
    s'.rec.Some? && s'.rec.value.uid < now ==> s.rec.Some? && SnapDescends(s.rec.value, s'.rec.value)
  }

  lemma SnapWriteVersions(w: World, s: Snap, a: SnapAction)
    requires SnapVersioned(s, w.c.clock) && SnapEnabled(w, s, a)
    requires a.SnapFinalize? || a.SnapPublish?
    ensures SnapVersioned(SnapApply(w, s, a), w.c.clock + 1) && SnapEvolves(s, SnapApply(w, s, a), w.c.clock)
  {
    assert SnapFresh(s, s.syncs[a.node].copy, w.c.clock);
  }

  lemma SnapStepVersions(w: World, s: Snap, a: SnapAction)
    requires AllVersioned(w.c) && SnapVersioned(s, w.c.clock) && SnapEnabled(w, s, a)
    ensures SnapVersioned(SnapApply(w, s, a), w.c.clock + 1) && SnapEvolves(s, SnapApply(w, s, a), w.c.clock)
  {
    if a.SnapFinalize? || a.SnapPublish? {
      SnapWriteVersions(w, s, a);
    }
  }

  // ----- The size against the origin -----

  predicate HistoryInRange(h: History) {
    InRange(h.created) && forall q | q in h.expanded :: InRange(q)
  }

  /** While the origin is the volume the snapshot was taken of, and its requests are in range, the size fits. */
  predicate SizeFits(v: Volume, r: SnapRecord) {
    r.size.Some? && v.rec.Some? && v.rec.value.uid == r.originUid && HistoryInRange(v.hist) ==>
      0 <= r.size.value <= v.rec.value.capacity && (v.hist.created > 0 ==> 0 < r.size.value)
  }

  /** Requests in range leave a capacity the driver hands out. */
  lemma PeakIsAllocatable(h: History)
    requires HistoryInRange(h)
    ensures InRange(Peak(h)) && Allocatable(Peak(h)) && (h.created > 0 ==> Peak(h) > 0)
  {
    PeakIsMaximum(h);
    var q :| (q == h.created || q in h.expanded) && Peak(h) == RoundedCapacity(q);
    RoundedIsLeast(q);
    RoundedIsLeast(h.created);
  }

  lemma TakenSizeFits(v: Volume, origin: string, arg: SnapSizeArg, s: Snap, now: nat)
    requires Accepted(arg) && v.rec.Some? && VersionedRecord(v, now)
    ensures SizeFits(v, DoTake(s, origin, v.rec.value, arg, now).rec.value)
  {
    if HistoryInRange(v.hist) {
      PeakIsAllocatable(v.hist);
      RecordedSizeFits(arg, v.rec.value.thin, v.rec.value.capacity);
    }
  }

  /** The size recorded for a volume is what the argument asks for: none, the whole, or the least that covers it. */
  ghost predicate SizeAnswers(arg: SnapSizeArg, thin: bool, capacity: Int64, size: Option<Int64>)
    requires Accepted(arg)
  {
    match arg
    case Missing => size == if thin then None else Some(capacity)
    case _ =>
      && size.Some? && Allocatable(size.value) && Covers(arg, capacity, size.value)
      && forall y | Allocatable(y) && Covers(arg, capacity, y) :: size.value <= y
  }

  lemma RecordedSizeAnswers(arg: SnapSizeArg, thin: bool, capacity: Int64)
    requires Accepted(arg) && Representable(arg) && capacity > 0 && InRange(capacity) && Allocatable(capacity)
    ensures SizeAnswers(arg, thin, capacity, RecordedSize(SnapSize(Params(arg), capacity), thin, capacity))
  {
    SnapSizeBounds(arg, capacity);
    RecordedSizeCovers(arg, thin, capacity);
  }

  /**
   A snapshot record appears only when a snapshot is taken. It names the volume it was taken of,
   by name and uid, and where that is, and its size answers what was asked for.
   */
  lemma RecordsComeFromTakes(matches: Matcher, w: World, e: WorldEvent, s: string)
    requires AllVersioned(w.c) && WorldLegal(Open, matches, w, e)
    requires SnapAt(w, s).rec.None? && SnapAt(WorldNext(matches, w, e), s).rec.Some?
    ensures e.OnSnap? && e.snap == s && e.action.Take? && At(w.c, e.action.origin).rec.Some?
    ensures var r, q := At(w.c, e.action.origin).rec.value, SnapAt(WorldNext(matches, w, e), s).rec.value;
            && q.origin == e.action.origin && q.originUid == r.uid && q.owner == r.owner && q.volGroup == r.volGroup
            && (Representable(e.action.arg) && HistoryInRange(At(w.c, e.action.origin).hist) && r.capacity > 0 ==>
                  SizeAnswers(e.action.arg, r.thin, r.capacity, q.size))
  {
    assert e.OnSnap? && e.snap == s && e.action.Take?;
    var v := At(w.c, e.action.origin);
    if Representable(e.action.arg) && HistoryInRange(v.hist) && v.rec.value.capacity > 0 {
      PeakIsAllocatable(v.hist);
      RecordedSizeAnswers(e.action.arg, v.rec.value.thin, v.rec.value.capacity);
    }
  }

  /** A volume's history grows while its record lasts. */
  predicate HistoryGrows(v: Volume, v': Volume, now: nat) {
    v'.rec.Some? && v'.rec.value.uid < now ==>
      v'.hist.created == v.hist.created && v.hist.expanded <= v'.hist.expanded
  }

  lemma CallGrowsHistory(v: Volume, id: nat, owner: string, now: nat)
    requires id in v.calls
    ensures HistoryGrows(v, DoStep(v, id, owner, now), now)
  {
  }

  lemma StepGrowsHistory(matches: Matcher, v: Volume, a: Action, now: nat)
    requires Enabled(matches, v, a)
    ensures HistoryGrows(v, Apply(matches, v, a, now), now)
  {
    if a.Step? {
      CallGrowsHistory(v, a.id, a.owner, now);
    } else {
      assert Apply(matches, v, a, now).hist == v.hist;
    }
  }

  lemma SizeKeepsFitting(v: Volume, v': Volume, r: SnapRecord, now: nat)
    requires SizeFits(v, r) && r.originUid < now && Evolves(v, v', now) && HistoryGrows(v, v', now)
    ensures SizeFits(v', r)
  {
    if HistoryInRange(v'.hist) && v.hist.expanded <= v'.hist.expanded {
      assert forall q | q in v.hist.expanded :: q in v'.hist.expanded;
    }
  }

  predicate SnapSized(w: World, s: Snap) {
    SnapVersioned(s, w.c.clock) && (s.rec.Some? ==> SizeFits(At(w.c, s.rec.value.origin), s.rec.value))
  }

  predicate WorldSized(w: World) {
    AllVersioned(w.c) && forall s | s in w.snaps :: SnapSized(w, w.snaps[s])
  }

  lemma SnapMayAge(s: Snap, now: nat)
    requires SnapVersioned(s, now)
    ensures SnapVersioned(s, now + 1)
  {
  }

  lemma VersionsMayAge(c: Cluster)
    requires AllVersioned(c)
    ensures AllVersioned(c.(clock := c.clock + 1))
  {
    forall n | n in c.vols
      ensures Versioned(c.vols[n], c.clock + 1)
    {
      assert Versioned(c.vols[n], c.clock);
    }
  }

  lemma SnapStepSized(w: World, x: Snap, a: SnapAction, w': World)
    requires AllVersioned(w.c) && SnapSized(w, x) && SnapEnabled(w, x, a)
    requires w'.c == w.c.(clock := w.c.clock + 1)
    ensures SnapSized(w', SnapApply(w, x, a))
  {
    SnapStepVersions(w, x, a);
    assert forall n :: At(w'.c, n) == At(w.c, n);
    if a.Take? {
      TakenSizeFits(At(w.c, a.origin), a.origin, a.arg, x, w.c.clock);
    }
  }

  lemma OnSnapSized(matches: Matcher, w: World, s: string, a: SnapAction)
    requires WorldSized(w) && WorldLegal(Open, matches, w, OnSnap(s, a))
    ensures WorldSized(WorldNext(matches, w, OnSnap(s, a)))
  {
    var w' := WorldNext(matches, w, OnSnap(s, a));
    VersionsMayAge(w.c);
    assert SnapSized(w, SnapAt(w, s));
    SnapStepSized(w, SnapAt(w, s), a, w');
    forall t | t in w'.snaps && t != s
      ensures SnapSized(w', w'.snaps[t])
    {
      SnapMayAge(w.snaps[t], w.c.clock);
      assert forall n :: At(w'.c, n) == At(w.c, n);
    }
  }

  lemma OnVolumeSized(matches: Matcher, w: World, e: Event)
    requires WorldSized(w) && WorldLegal(Open, matches, w, OnVolume(e))
    ensures WorldSized(WorldNext(matches, w, OnVolume(e)))
  {
    var w' := WorldNext(matches, w, OnVolume(e));
    NextKeepsVersions(Code, matches, w.c, e);
    StepGrowsHistory(matches, At(w.c, e.name), e.action, w.c.clock);
    forall t | t in w'.snaps
      ensures SnapSized(w', w'.snaps[t])
    {
      var x := w.snaps[t];
      SnapMayAge(x, w.c.clock);
      if x.rec.Some? && x.rec.value.origin == e.name {
        SizeKeepsFitting(At(w.c, e.name), At(w'.c, e.name), x.rec.value, w.c.clock);
      }
    }
  }

  lemma StepEvolves(matches: Matcher, w: World, e: WorldEvent, s: string)
    requires WorldSized(w) && WorldLegal(Open, matches, w, e)
    ensures SnapEvolves(SnapAt(w, s), SnapAt(WorldNext(matches, w, e), s), w.c.clock)
  {
    if e.OnSnap? && e.snap == s {
      assert SnapSized(w, SnapAt(w, s));
      SnapStepVersions(w, SnapAt(w, s), e.action);
    }
  }

  /**
   Over any run of the code a snapshot record that is still the same one kept its origin, its
   owner, its volume group and its size, and stayed marked or Ready if it was.
   */
  lemma {:induction false} SnapshotRecordsLast(rules: WorldRules, matches: Matcher, w: World, es: seq<WorldEvent>,
                                               s: string)
    requires WorldSized(w) && WorldRun(rules, matches, w, es)
    ensures WorldSized(WorldExec(rules, matches, w, es)) && w.c.clock <= WorldExec(rules, matches, w, es).c.clock
    ensures SnapEvolves(SnapAt(w, s), SnapAt(WorldExec(rules, matches, w, es), s), w.c.clock)
    decreases |es|
  {
    if es != [] {
      match es[0] {
        case OnVolume(e) => OnVolumeSized(matches, w, e);
        case OnSnap(t, a) => OnSnapSized(matches, w, t, a);
      }
      StepEvolves(matches, w, es[0], s);
      SnapshotRecordsLast(rules, matches, WorldNext(matches, w, es[0]), es[1..], s);
    }
  }

  /**
   In every reachable state the size in a snapshot record is within the capacity of the volume it
   was taken of, however that was expanded, and positive if a positive size was asked for it.
   */
  lemma SnapshotFitsOrigin(rules: WorldRules, matches: Matcher, es: seq<WorldEvent>, s: string)
    requires WorldRun(rules, matches, WORLD_INIT, es)
    ensures var w := WorldExec(rules, matches, WORLD_INIT, es);
            SnapAt(w, s).rec.Some? ==> SizeFits(At(w.c, SnapAt(w, s).rec.value.origin), SnapAt(w, s).rec.value)
  {
    SnapshotRecordsLast(rules, matches, WORLD_INIT, es, s);
    var w := WorldExec(rules, matches, WORLD_INIT, es);
    assert SnapSized(w, SnapAt(w, s));
  }

  /** The bound is put to the test: an expand call validated before a snapshot was taken lands after it. */
  lemma ExpansionOvertakes(matches: Matcher, w: World, n: string, s: string, id: nat, size: Int64, arg: SnapSizeArg)
    requires var v := At(w.c, n);
             && v.rec.Some? && !v.rec.value.marked && v.rec.value.volGroup != "" && id in v.calls
             && v.calls[id] == ExpandWrite(size, v.rec.value) && v.rec.value.capacity < RoundedCapacity(size)
    requires SnapAt(w, s).rec.None? && Accepted(arg)
    ensures var es := [OnSnap(s, Take(n, arg)), OnVolume(Event(n, Step(id, "")))];
            && WorldRun(Open, matches, w, es)
            && var w' := WorldExec(Open, matches, w, es);
               && SnapAt(w', s).rec.Some? && SnapAt(w', s).rec.value.originUid == At(w.c, n).rec.value.uid
               && At(w'.c, n).rec.Some? && At(w'.c, n).rec.value.uid == At(w.c, n).rec.value.uid
               && At(w'.c, n).rec.value.capacity == RoundedCapacity(size)
  {
    var take, step := OnSnap(s, Take(n, arg)), OnVolume(Event(n, Step(id, "")));
    var w1 := WorldNext(matches, w, take);
    assert At(w1.c, n) == At(w.c, n);
    var w2 := WorldNext(matches, w1, step);
    assert [take, step][1..] == [step] && [step][1..] == [];
    assert WorldRun(Open, matches, w2, []) && WorldExec(Open, matches, w2, []) == w2;
    assert WorldRun(Open, matches, w1, [step]) && WorldExec(Open, matches, w1, [step]) == w2;
  }

  // ----- P4: no expansion of a volume with a snapshot -----

  predicate Expanding(v: Volume) {
    exists id | id in v.calls :: v.calls[id].ExpandRead? || v.calls[id].ExpandWrite?
  }

  lemma CallStaysQuiet(v: Volume, id: nat, owner: string, now: nat)
    requires Versioned(v, now) && id in v.calls && !Expanding(v)
    ensures var v' := DoStep(v, id, owner, now);
            && !Expanding(v')
            && (v.rec.Some? && v'.rec.Some? && v'.rec.value.uid < now ==> v'.rec.value.capacity == v.rec.value.capacity)
  {
    assert !v.calls[id].ExpandRead? && !v.calls[id].ExpandWrite?;
  }

  lemma AgentStaysQuiet(matches: Matcher, v: Volume, a: Action, now: nat)
    requires Versioned(v, now) && Enabled(matches, v, a) && (a.Finalize? || a.Assign? || a.Publish?)
    ensures var v' := Apply(matches, v, a, now);
            && v'.calls == v.calls
            && (v.rec.Some? && v'.rec.Some? ==> v'.rec.value.capacity == v.rec.value.capacity)
  {
    assert Fresh(v, v.syncs[a.node].copy, now);
  }

  /** Only a call that passes its validation starts to expand a volume. */
  lemma StepStaysQuiet(matches: Matcher, v: Volume, a: Action, now: nat)
    requires Versioned(v, now) && Enabled(matches, v, a) && !Expanding(v) && !(a.Validate? && a.ok)
    ensures var v' := Apply(matches, v, a, now);
            && !Expanding(v')
            && (v.rec.Some? && v'.rec.Some? && v'.rec.value.uid < now ==> v'.rec.value.capacity == v.rec.value.capacity)
  {
    if a.Step? {
      CallStaysQuiet(v, a.id, a.owner, now);
    } else if a.Finalize? || a.Assign? || a.Publish? {
      AgentStaysQuiet(matches, v, a, now);
    } else {
      assert Apply(matches, v, a, now).rec == v.rec;
    }
  }

  predicate OriginsQuiet(w: World) {
    forall s | s in w.snaps && w.snaps[s].rec.Some? :: !Expanding(At(w.c, w.snaps[s].rec.value.origin))
  }

  lemma SnapStepKeepsQuiet(w: World, x: Snap, a: SnapAction)
    requires SnapVersioned(x, w.c.clock) && SnapLegal(Unchecked, w, x, a)
    requires x.rec.Some? ==> !Expanding(At(w.c, x.rec.value.origin))
    ensures var x' := SnapApply(w, x, a); x'.rec.Some? ==> !Expanding(At(w.c, x'.rec.value.origin))
  {
    if a.SnapFinalize? || a.SnapPublish? {
      assert SnapFresh(x, x.syncs[a.node].copy, w.c.clock);
    }
  }

  lemma OnSnapKeepsQuiet(matches: Matcher, w: World, s: string, a: SnapAction)
    requires WorldSized(w) && OriginsQuiet(w) && WorldLegal(Unchecked, matches, w, OnSnap(s, a))
    ensures OriginsQuiet(WorldNext(matches, w, OnSnap(s, a)))
  {
    var w' := WorldNext(matches, w, OnSnap(s, a));
    assert SnapSized(w, SnapAt(w, s));
    SnapStepKeepsQuiet(w, SnapAt(w, s), a);
    assert forall n :: At(w'.c, n) == At(w.c, n);
  }

  lemma OnVolumeKeepsQuiet(matches: Matcher, w: World, e: Event)
    requires WorldSized(w) && OriginsQuiet(w) && WorldLegal(Unchecked, matches, w, OnVolume(e))
    ensures OriginsQuiet(WorldNext(matches, w, OnVolume(e)))
  {
    var w', v := WorldNext(matches, w, OnVolume(e)), At(w.c, e.name);
    forall s | s in w'.snaps && w'.snaps[s].rec.Some?
      ensures !Expanding(At(w'.c, w'.snaps[s].rec.value.origin))
    {
      if w.snaps[s].rec.value.origin == e.name {
        assert Versioned(v, w.c.clock);
        StepStaysQuiet(matches, v, e.action, w.c.clock);
      }
    }
  }

  lemma {:induction false} RunKeepsQuiet(matches: Matcher, w: World, es: seq<WorldEvent>)
    requires WorldSized(w) && OriginsQuiet(w) && WorldRun(Unchecked, matches, w, es)
    ensures WorldSized(WorldExec(Unchecked, matches, w, es)) && OriginsQuiet(WorldExec(Unchecked, matches, w, es))
    decreases |es|
  {
    if es != [] {
      match es[0] {
        case OnVolume(e) => OnVolumeSized(matches, w, e); OnVolumeKeepsQuiet(matches, w, e);
        case OnSnap(t, a) => OnSnapSized(matches, w, t, a); OnSnapKeepsQuiet(matches, w, t, a);
      }
      RunKeepsQuiet(matches, WorldNext(matches, w, es[0]), es[1..]);
    }
  }

  /**
   With calls that do not overlap, no step of any run changes the capacity of a volume that has a
   snapshot: the check for snapshots sees to it.
   */
  lemma SnapshotsHoldCapacity(matches: Matcher, es: seq<WorldEvent>, e: WorldEvent, s: string)
    requires WorldRun(Unchecked, matches, WORLD_INIT, es)
    requires WorldLegal(Unchecked, matches, WorldExec(Unchecked, matches, WORLD_INIT, es), e)
    ensures var w := WorldExec(Unchecked, matches, WORLD_INIT, es);
            var w' := WorldNext(matches, w, e);
            SnapAt(w, s).rec.Some? ==>
              var v, v' := At(w.c, SnapAt(w, s).rec.value.origin), At(w'.c, SnapAt(w, s).rec.value.origin);
              v.rec.Some? && v'.rec.Some? && v'.rec.value.uid == v.rec.value.uid ==>
                v'.rec.value.capacity == v.rec.value.capacity
  {
    RunKeepsQuiet(matches, WORLD_INIT, es);
    var w := WorldExec(Unchecked, matches, WORLD_INIT, es);
    if SnapAt(w, s).rec.Some? && e.OnVolume? && e.event.name == SnapAt(w, s).rec.value.origin {
      var v := At(w.c, e.event.name);
      assert v.rec.Some? ==> Versioned(v, w.c.clock);
      StepStaysQuiet(matches, v, e.event.action, w.c.clock);
    }
  }
}
