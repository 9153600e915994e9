/**
 Snapshots on top of volumes: snapshot records, snapshot LVs, the snapshot agent, and the
 volume protocol they share the cluster with.
 */
module Snapshots {
  import opened Capacity
  import opened Records
  import opened Protocol
  import opened SnapshotSize

  /** An LVMSnapshot. The origin's uid tells the volume it was taken of from a later one of the same name. */
  datatype SnapRecord = SnapRecord(
    rv: nat, uid: nat,
    origin: string, originUid: nat, owner: string, volGroup: string, size: Option<Int64>,
    finalizer: bool, marked: bool, state: Status)

  /** A snapshot LV on a node, in a volume group, of an origin volume. */
  datatype SnapLv = SnapLv(node: string, vg: string, origin: string)

  datatype SnapPhase = SnapDestroying | SnapFinalizing | SnapCreating | SnapPublishing

  datatype SnapSync = SnapSync(phase: SnapPhase, copy: SnapRecord)

  /** Everything the cluster holds about one snapshot name. */
  datatype Snap = Snap(rec: Option<SnapRecord>, lvs: set<SnapLv>, syncs: map<string, SnapSync>, queue: set<string>)

  const NO_SNAP := Snap(None, {}, map[], {})

  datatype World = World(c: Cluster, snaps: map<string, Snap>)

  function SnapAt(w: World, s: string): Snap {
    if s in w.snaps then w.snaps[s] else NO_SNAP
  }

  datatype SnapAction =
    | Take(origin: string, arg: SnapSizeArg)
    | Drop
    | SnapStart(node: string)
    | SnapDestroy(node: string, ok: bool)
    | SnapFinalize(node: string)
    | SnapCreate(node: string, ok: bool)
    | SnapPublish(node: string)
    | SnapAbort(node: string)
    | SnapCrash(node: string)
    | SnapResync(node: string)

  datatype WorldEvent = OnVolume(event: Event) | OnSnap(snap: string, action: SnapAction)

  predicate SnapCurrent(s: Snap, copy: SnapRecord) {
    s.rec.Some? && s.rec.value.rv == copy.rv
  }

  function SnapGoto(s: Snap, node: string, y: SnapSync): Snap {
    s.(syncs := s.syncs[node := y])
  }

  function SnapDone(s: Snap, node: string): Snap {
    s.(syncs := s.syncs - {node})
  }

  function SnapRequeue(s: Snap, node: string): Snap {
    SnapDone(s, node).(queue := s.queue + {node})
  }

  /** A crash loses the sync in hand and the queue. */
  function SnapCrashed(s: Snap, node: string): Snap {
    SnapDone(s, node).(queue := s.queue - {node})
  }

  function SnapRemoved(s: Snap): Snap
    requires s.rec.Some?
  {
    s.(rec := None, queue := s.queue + {s.rec.value.owner})
  }

  /** What an accepted update of a snapshot record leaves. */
  function SnapStored(before: SnapRecord, r: SnapRecord, now: nat): Option<SnapRecord> {
    if r == before then Some(before)
    else if r.marked && !r.finalizer then None
    else Some(r.(rv := now))
  }

  function SnapWrite(s: Snap, r: SnapRecord, now: nat): Snap
    requires s.rec.Some?
  {
    var stored := SnapStored(s.rec.value, r, now);
    if stored.None? then SnapRemoved(s)
    else s.(rec := stored, queue := if r != s.rec.value && r.marked then s.queue + {r.owner} else s.queue)
  }

  /** CreateSnapshot: a Pending record for the origin's node and volume group. */
  function DoTake(s: Snap, origin: string, r: Record, arg: SnapSizeArg, now: nat): Snap
    requires Accepted(arg)
  {
    var size := RecordedSize(SnapSize(Params(arg), r.capacity), r.thin, r.capacity);
    s.(rec := Some(SnapRecord(now, now, origin, r.uid, r.owner, r.volGroup, size, false, false, Pending)),
       queue := s.queue + {r.owner})
  }

  /** DeleteSnapshot: an API delete of the record. */
  function DoDrop(s: Snap, now: nat): Snap {
    match s.rec
    case None => s
    case Some(r) =>
      if !r.finalizer then SnapRemoved(s)
      else if r.marked then s
      else s.(rec := Some(r.(rv := now, marked := true)), queue := s.queue + {r.owner})
  }

  function DoSnapStart(s: Snap, node: string): Snap {
    var t := s.(queue := s.queue - {node});
    match s.rec
    case None => t
    case Some(r) =>
      if r.marked then SnapGoto(t, node, SnapSync(SnapDestroying, r))
      else if r.state == Pending then SnapGoto(t, node, SnapSync(SnapCreating, r))
      else t
  }

  /** The LVs of this snapshot name in a volume group of a node. */
  function SnapLvsIn(lvs: set<SnapLv>, node: string, vg: string): set<SnapLv> {
    set l | l in lvs && l.node == node && l.vg == vg
  }

  function DoSnapDestroy(s: Snap, node: string, ok: bool): Snap
    requires node in s.syncs
  {
    var copy := s.syncs[node].copy;
    var present := SnapLvsIn(s.lvs, node, copy.volGroup);
    if present == {} || ok then SnapGoto(s.(lvs := s.lvs - present), node, SnapSync(SnapFinalizing, copy))
    else SnapRequeue(s, node)
  }

  function DoSnapFinalize(s: Snap, node: string, now: nat): Snap
    requires node in s.syncs
  {
    var copy := s.syncs[node].copy;
    if SnapCurrent(s, copy) then SnapDone(SnapWrite(s, copy.(finalizer := false), now), node) else SnapRequeue(s, node)
  }

  /** lvcreate --snapshot needs the origin's LV, and a name that is not taken. */
  function DoSnapCreate(s: Snap, origin: Volume, node: string, ok: bool): Snap
    requires node in s.syncs
  {
    var copy := s.syncs[node].copy;
    if ok && Lv(node, copy.volGroup) in origin.lvs && SnapLvsIn(s.lvs, node, copy.volGroup) == {} then
      SnapGoto(s.(lvs := s.lvs + {SnapLv(node, copy.volGroup, copy.origin)}), node, SnapSync(SnapPublishing, copy))
    else SnapRequeue(s, node)
  }

  function DoSnapPublish(s: Snap, node: string, now: nat): Snap
    requires node in s.syncs
  {
    var copy := s.syncs[node].copy;
    if copy.finalizer then SnapDone(s, node)
    else if SnapCurrent(s, copy) then SnapDone(SnapWrite(s, copy.(finalizer := true, state := Ready), now), node)
    else SnapRequeue(s, node)
  }

  predicate SnapInPhase(s: Snap, node: string, phase: SnapPhase) {
    node in s.syncs && s.syncs[node].phase == phase
  }

  /** A sync has made the LV of this very record and is about to say so. */
  predicate AboutToPublish(s: Snap, node: string) {
    SnapInPhase(s, node, SnapPublishing) && SnapCurrent(s, s.syncs[node].copy)
  }

  /** The LV is there, and nobody remembers having made it. */
  predicate Stuck(s: Snap) {
    && s.rec.Some? && s.rec.value.state == Pending && s.lvs != {}
    && forall node | node in s.syncs :: !AboutToPublish(s, node)
  }

  /** What the code can do next with a snapshot. */
  predicate SnapEnabled(w: World, s: Snap, a: SnapAction) {
    match a
    case Take(origin, arg) =>
      s.rec.None? && Accepted(arg) && At(w.c, origin).rec.Some? && At(w.c, origin).rec.value.volGroup != ""
    case Drop => s.rec.Some?
    case SnapStart(node) => node in s.queue && node !in s.syncs
    case SnapDestroy(node, _) => SnapInPhase(s, node, SnapDestroying)
    case SnapFinalize(node) => SnapInPhase(s, node, SnapFinalizing)
    case SnapCreate(node, _) => SnapInPhase(s, node, SnapCreating)
    case SnapPublish(node) => SnapInPhase(s, node, SnapPublishing)
    case SnapAbort(node) => node in s.syncs
    case SnapCrash(_) => true
    case SnapResync(node) => s.rec.Some? && s.rec.value.owner == node
  }

  function SnapApply(w: World, s: Snap, a: SnapAction): Snap
    requires SnapEnabled(w, s, a)
  {
    var now := w.c.clock;
    match a
    case Take(origin, arg) => DoTake(s, origin, At(w.c, origin).rec.value, arg, now)
    case Drop => DoDrop(s, now)
    case SnapStart(node) => DoSnapStart(s, node)
    case SnapDestroy(node, ok) => DoSnapDestroy(s, node, ok)
    case SnapFinalize(node) => DoSnapFinalize(s, node, now)
    case SnapCreate(node, ok) => DoSnapCreate(s, At(w.c, s.syncs[node].copy.origin), node, ok)
    case SnapPublish(node) => DoSnapPublish(s, node, now)
    case SnapAbort(node) => SnapRequeue(s, node)
    case SnapCrash(node) => SnapCrashed(s, node)
    case SnapResync(node) => s.(queue := s.queue + {node})
  }

  /** The origin keeps its LV, or has none: it is not on its way out. */
  predicate CanTake(v: Volume) {
    v.rec.Some? && v.rec.value.marked ==> v.lvs == {}
  }

  /** The store keeps the record, or nothing of the snapshot can be left behind. */
  predicate CanDrop(s: Snap) {
    s.rec.Some? ==>
      || s.rec.value.finalizer
      || (s.lvs == {} && forall node | node in s.syncs :: s.syncs[node].phase != SnapCreating)
  }

  /** The node owns the snapshot, or its sync has nothing to do. */
  predicate SnapCanStart(s: Snap, node: string) {
    s.rec.Some? ==>
      || s.rec.value.owner == node
      || (if s.rec.value.marked then s.lvs == {} else s.rec.value.state != Pending)
  }

  /** P2 and P3 for snapshots, and P5: no snapshot of a volume being deleted. The code sees to none of them. */
  predicate SnapPremise(w: World, s: Snap, a: SnapAction) {
    match a
    case Take(origin, _) => CanTake(At(w.c, origin))
    case Drop => CanDrop(s)
    case SnapStart(node) => SnapCanStart(s, node)
    case _ => true
  }

  /**
   `Open`: anything the program can do. `Unchecked`: volumes keep to P2, P3 and P4, and so do calls
   that take snapshots to P4. `Checked`: P2, P3 and P5 hold for snapshots as well.
   */
  datatype WorldRules = Open | Unchecked | Checked

  /** P4 also keeps a snapshot from being taken while another call about its origin runs. */
  predicate SnapLegal(rules: WorldRules, w: World, s: Snap, a: SnapAction) {
    && SnapEnabled(w, s, a)
    && (rules != Open && a.Take? ==> At(w.c, a.origin).calls == map[])
    && (rules == Checked ==> SnapPremise(w, s, a))
  }

  function VolumeRules(rules: WorldRules): Rules {
    if rules == Open then Code else Serial
  }

  /** No snapshot record carries the volume's label. */
  predicate NoSnapshotOf(w: World, n: string) {
    forall s | s in w.snaps && w.snaps[s].rec.Some? :: w.snaps[s].rec.value.origin != n
  }

  predicate WorldLegal(rules: WorldRules, matches: Matcher, w: World, e: WorldEvent) {
    match e
    case OnVolume(event) =>
      && Legal(VolumeRules(rules), matches, w.c, event)
      && (event.action.Validate? && event.action.ok ==> NoSnapshotOf(w, event.name))
    case OnSnap(s, a) => SnapLegal(rules, w, SnapAt(w, s), a)
  }

  function WorldNext(matches: Matcher, w: World, e: WorldEvent): World
    requires WorldLegal(Open, matches, w, e)
  {
    match e
    case OnVolume(event) => w.(c := Next(matches, w.c, event))
    case OnSnap(s, a) => World(w.c.(clock := w.c.clock + 1), w.snaps[s := SnapApply(w, SnapAt(w, s), a)])
  }

  predicate WorldRun(rules: WorldRules, matches: Matcher, w: World, es: seq<WorldEvent>)
    decreases |es|
  {
    es != [] ==> WorldLegal(rules, matches, w, es[0]) && WorldRun(rules, matches, WorldNext(matches, w, es[0]), es[1..])
  }

  function WorldExec(rules: WorldRules, matches: Matcher, w: World, es: seq<WorldEvent>): World
    requires WorldRun(rules, matches, w, es)
    decreases |es|
  {
    if es == [] then w else WorldExec(rules, matches, WorldNext(matches, w, es[0]), es[1..])
  }

  const WORLD_INIT := World(INIT, map[])
}
