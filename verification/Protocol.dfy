/**
 The provisioning protocol. Node agents, controller calls and the record store are
 interleaved one step at a time; every step touches one volume name and one record version.
 */
module Protocol {
  import opened Capacity
  import opened Records

  /** One step. The arguments are what the environment decides: a command's outcome, a listing, a node. */
  datatype Action =
    | Start(node: string)
    | Destroy(node: string, ok: bool)
    | Finalize(node: string)
    | Create(node: string, ok: bool, code: ErrorCode)
    | List(node: string, vgs: seq<string>)
    | Assign(node: string)
    | Publish(node: string)
    | Abort(node: string)
    | Crash(node: string)
    | Resync(node: string)
    | Begin(id: nat, call: Call)
    | Validate(id: nat, ok: bool)
    | Step(id: nat, owner: string)
    | Cancel(id: nat)

  datatype Event = Event(name: string, action: Action)

  // ----- The record store -----

  predicate Current(v: Volume, copy: Record) {
    v.rec.Some? && v.rec.value.rv == copy.rv
  }

  /** Kubernetes drops a record marked for deletion when its last finalizer goes. Owners see the delete event. */
  function Removed(v: Volume): Volume
    requires v.rec.Some?
  {
    v.(rec := None, queue := v.queue + {v.rec.value.owner})
  }

  /** What an accepted update leaves. One that changes nothing keeps the resource version. */
  function Stored(before: Record, r: Record, now: nat): Option<Record> {
    if r == before then Some(before)
    else if r.marked && !r.finalizer then None
    else Some(r.(rv := now))
  }

  function Write(v: Volume, r: Record, now: nat): Volume
    requires v.rec.Some?
  {
    var stored := Stored(v.rec.value, r, now);
    if stored.None? then Removed(v)
    else v.(rec := stored, queue := if r != v.rec.value && r.marked then v.queue + {r.owner} else v.queue)
  }

  /** A delete request: without a finalizer the record goes at once, otherwise it is marked. */
  function ApiDelete(v: Volume, now: nat): Volume
    requires v.rec.Some?
  {
    var r := v.rec.value;
    if !r.finalizer then Removed(v)
    else if r.marked then v
    else v.(rec := Some(r.(rv := now, marked := true)), queue := v.queue + {r.owner})
  }

  // ----- The node agent -----

  function Goto(v: Volume, node: string, y: Sync): Volume {
    v.(syncs := v.syncs[node := y])
  }

  function Done(v: Volume, node: string): Volume {
    v.(syncs := v.syncs - {node})
  }

  /** A sync that returns an error is put back on the node's queue. */
  function Requeue(v: Volume, node: string): Volume {
    Done(v, node).(queue := v.queue + {node})
  }

  /** A crash loses the sync in hand and the queue. */
  function Crashed(v: Volume, node: string): Volume {
    Done(v, node).(queue := v.queue - {node})
  }

  /** Takes a key off the queue and reads the record; the key's owner is not looked at again. */
  function DoStart(v: Volume, node: string): Volume {
    var w := v.(queue := v.queue - {node});
    match v.rec
    case None => w
    case Some(r) =>
      if r.marked then Goto(w, node, Sync(Destroying, r))
      else if r.state != Pending then w
      else Goto(w, node, Sync(if r.volGroup != "" then Retrying else Listing, r))
  }

  function DoDestroy(v: Volume, node: string, ok: bool): Volume
    requires node in v.syncs
  {
    var y := v.syncs[node];
    var lv := Lv(node, y.copy.volGroup);
    if y.copy.volGroup == "" || lv !in v.lvs then Goto(v, node, Sync(Finalizing, y.copy))
    else if ok then Goto(v.(lvs := v.lvs - {lv}), node, Sync(Finalizing, y.copy))
    else Requeue(v, node)
  }

  function DoFinalize(v: Volume, node: string, now: nat): Volume
    requires node in v.syncs
  {
    var copy := v.syncs[node].copy;
    if Current(v, copy) then Done(Write(v, copy.(finalizer := false), now), node) else Requeue(v, node)
  }

  /** lvcreate in the copy's volume group, skipped when the LV is already there. */
  function DoCreate(v: Volume, node: string, ok: bool, code: ErrorCode): Volume
    requires node in v.syncs
  {
    var y := v.syncs[node];
    var lv := Lv(node, y.copy.volGroup);
    if lv in v.lvs || ok then Goto(v.(lvs := v.lvs + {lv}), node, Sync(Publishing, y.copy))
    else
      match y.phase
      case Creating(rest) => Goto(v, node, Sync(if rest == [] then Failing(code) else Assigning(rest), y.copy))
      case _ => Goto(v, node, Sync(Listing, y.copy))
  }

  function DoList(v: Volume, node: string, vgs: seq<string>): Volume
    requires node in v.syncs
  {
    Goto(v, node, Sync(if vgs == [] then Failing(Internal) else Assigning(vgs), v.syncs[node].copy))
  }

  /** Records the volume group before the LV is created in it. */
  function DoAssign(v: Volume, node: string, now: nat): Volume
    requires node in v.syncs && v.syncs[node].phase.Assigning? && v.syncs[node].phase.rest != []
  {
    var Sync(phase, copy) := v.syncs[node];
    if phase.rest[0] == "" || !Current(v, copy) then Requeue(v, node)
    else
      var w := Write(v, copy.(volGroup := phase.rest[0]), now);
      match w.rec
      case Some(r) => Goto(w, node, Sync(Creating(phase.rest[1..]), r))
      case None => Done(w, node)
  }

  /** The record a sync ends with: Ready with a finalizer, or Failed with an error and none. */
  function Outcome(y: Sync): Record {
    match y.phase
    case Failing(code) => y.copy.(state := Failed, error := Some(code))
    case _ => y.copy.(state := Ready, finalizer := true)
  }

  function DoPublish(v: Volume, node: string, now: nat): Volume
    requires node in v.syncs
  {
    var y := v.syncs[node];
    if y.copy.finalizer then Done(v, node)
    else if Current(v, y.copy) then Done(Write(v, Outcome(y), now), node)
    else Requeue(v, node)
  }

  // ----- The controller -----

  function NewRecord(req: Request, owner: string, now: nat): Record {
    Record(now, now, owner, req.vgPattern, "", RoundedCapacity(req.size), req.thin, req.shared,
           false, false, Pending, None)
  }

  /** What a create call makes of the record it has just read. */
  function Processed(r: Record, req: Request, last: bool): Progress {
    match r.state
    case Pending => Running(CreatePoll(req, last))
    case Ready => Returned(Provisioned(r))
    case Failed => if r.error.Some? then Running(CreateDelete(req, last)) else Returned(FailedWithoutError)
  }

  /** One step of a call: one access to the store. */
  function CallStep(v: Volume, call: Call, owner: string, now: nat): (Volume, Progress) {
    match call
    case CreateGet(req) =>
      (v, match v.rec
          case None => Running(CreateProvision(req))
          case Some(r) =>
            if r.marked then Running(CreateWaitGone(req))
            else if r.capacity != RoundedCapacity(req.size) then Returned(AlreadyExists)
            else Processed(r, req, false))
    case CreateWaitGone(req) =>
      (v, Running(if v.rec.None? then CreateProvision(req) else call))
    case CreatePoll(req, last) =>
      (v, if v.rec.None? then Returned(Error) else Processed(v.rec.value, req, last))
    case CreateDelete(req, last) =>
      if v.rec.None? then (v, Returned(Error))
      else (ApiDelete(v, now), Running(CreateWaitDestroy(req, last)))
    case CreateWaitDestroy(req, last) =>
      (v, if v.rec.Some? then Running(call)
          else if last then Returned(ResourceExhausted)
          else Running(CreateProvision(req)))
    case CreateProvision(req) =>
      if req.vgPattern == "" || v.rec.Some? then (v, Returned(Error))
      else (v.(rec := Some(NewRecord(req, owner, now)), queue := v.queue + {owner},
               hist := History(req.size, [])),
            Running(CreatePoll(req, true)))
    case DeleteGet =>
      (v, if v.rec.None? then Returned(Deleted)
          else Running(if v.rec.value.marked then DeleteWait else DeleteDelete))
    case DeleteDelete =>
      if v.rec.None? then (v, Returned(Error)) else (ApiDelete(v, now), Running(DeleteWait))
    case DeleteWait =>
      (v, if v.rec.None? then Returned(Deleted) else Running(call))
    case ExpandRead(size) =>
      if v.rec.None? then (v, Returned(Error))
      else if v.rec.value.capacity >= RoundedCapacity(size) then
        (Expand(v, size), Returned(Expanded(v.rec.value.capacity)))
      else (v, Running(ExpandWrite(size, v.rec.value)))
    case ExpandWrite(size, copy) =>
      if Current(v, copy) then
        (Expand(Write(v, copy.(capacity := RoundedCapacity(size)), now), size),
         Returned(Expanded(RoundedCapacity(size))))
      else (v, Returned(Error))
    case _ => (v, Running(call))
  }

  /** Notes an expansion that succeeded. */
  function Expand(v: Volume, size: Int64): Volume {
    v.(hist := v.hist.(expanded := v.hist.expanded + [size]))
  }

  function After(v: Volume, id: nat, p: Progress): Volume {
    v.(calls := if p.Running? then v.calls[id := p.call] else v.calls - {id})
  }

  function DoValidate(v: Volume, id: nat, ok: bool): Volume
    requires id in v.calls
  {
    if !ok then After(v, id, Returned(Error))
    else
      match v.calls[id]
      case ExpandValidate(size) => After(v, id, Running(ExpandRead(size)))
      case _ => After(v, id, Running(DeleteGet))
  }

  function DoStep(v: Volume, id: nat, owner: string, now: nat): Volume
    requires id in v.calls
  {
    var (w, p) := CallStep(v, v.calls[id], owner, now);
    After(w, id, p)
  }

  // ----- Steps of the whole cluster -----

  /** What the code can do next, whatever the environment. */
  predicate Enabled(matches: Matcher, v: Volume, a: Action) {
    match a
    case Start(node) => node in v.queue && node !in v.syncs
    case Destroy(node, _) => node in v.syncs && v.syncs[node].phase.Destroying?
    case Finalize(node) => node in v.syncs && v.syncs[node].phase.Finalizing?
    case Create(node, _, _) => node in v.syncs && (v.syncs[node].phase.Retrying? || v.syncs[node].phase.Creating?)
    case List(node, vgs) =>
      && node in v.syncs && v.syncs[node].phase.Listing?
      && forall g | g in vgs :: matches(v.syncs[node].copy.vgPattern, g)
    case Assign(node) => node in v.syncs && v.syncs[node].phase.Assigning? && v.syncs[node].phase.rest != []
    case Publish(node) => node in v.syncs && (v.syncs[node].phase.Publishing? || v.syncs[node].phase.Failing?)
    case Abort(node) => node in v.syncs
    case Crash(_) => true
    case Resync(node) => v.rec.Some? && v.rec.value.owner == node
    case Begin(id, call) => id !in v.calls && (call.CreateGet? || call.DeleteValidate? || call.ExpandValidate?)
    case Validate(id, _) => id in v.calls && (v.calls[id].DeleteValidate? || v.calls[id].ExpandValidate?)
    case Step(id, _) => id in v.calls && !v.calls[id].DeleteValidate? && !v.calls[id].ExpandValidate?
    case Cancel(id) => id in v.calls
  }

  function Apply(matches: Matcher, v: Volume, a: Action, now: nat): Volume
    requires Enabled(matches, v, a)
  {
    match a
    case Start(node) => DoStart(v, node)
    case Destroy(node, ok) => DoDestroy(v, node, ok)
    case Finalize(node) => DoFinalize(v, node, now)
    case Create(node, ok, code) => DoCreate(v, node, ok, code)
    case List(node, vgs) => DoList(v, node, vgs)
    case Assign(node) => DoAssign(v, node, now)
    case Publish(node) => DoPublish(v, node, now)
    case Abort(node) => Requeue(v, node)
    case Crash(node) => Crashed(v, node)
    case Resync(node) => v.(queue := v.queue + {node})
    case Begin(id, call) => After(v, id, Running(call))
    case Validate(id, ok) => DoValidate(v, id, ok)
    case Step(id, owner) => DoStep(v, id, owner, now)
    case Cancel(id) => v.(calls := v.calls - {id})
  }

  /** True when the record may be deleted now: the store keeps it, or nothing of it can be left behind. */
  predicate CanDelete(v: Volume) {
    v.rec.Some? ==>
      || v.rec.value.finalizer
      || (v.lvs == {} && forall node | node in v.syncs ::
        !v.syncs[node].phase.Retrying? && !v.syncs[node].phase.Creating?)
  }

  /** What can be seen in the record alone: it left Pending, or no volume group was recorded yet. */
  predicate Deletable(r: Record) {
    r.state != Pending || r.volGroup == ""
  }

  /** True when a sync of the key may start on this node: it owns the record, or it has nothing to do there. */
  predicate CanStart(v: Volume, node: string) {
    v.rec.Some? ==>
      || v.rec.value.owner == node
      || (if v.rec.value.marked then v.lvs == {} else v.rec.value.state != Pending)
  }

  predicate Deletes(call: Call) {
    call.CreateDelete? || call.DeleteDelete?
  }

  /**
   The premises on the environment. P2: a key on a node's queue names a record that node may
   sync. P3: records are deleted only when they can be.
   */
  predicate Premise(v: Volume, a: Action) {
    && (a.Start? ==> CanStart(v, a.node))
    && (a.Step? && a.id in v.calls && Deletes(v.calls[a.id]) ==> CanDelete(v))
  }

  /** P4: calls about one volume do not overlap; expand calls may overlap each other. */
  predicate NoOverlap(v: Volume, a: Action) {
    a.Begin? ==> forall id | id in v.calls :: a.call.IsExpand() && v.calls[id].IsExpand()
  }

  function Next(matches: Matcher, c: Cluster, e: Event): Cluster
    requires Enabled(matches, At(c, e.name), e.action)
  {
    Cluster(c.vols[e.name := Apply(matches, At(c, e.name), e.action, c.clock)], c.clock + 1)
  }

  datatype Rules = Code | Premises | Serial

  /** `Code`: anything the program can do. `Premises`: P2 and P3 hold. `Serial`: P4 holds as well. */
  predicate VolumeLegal(rules: Rules, matches: Matcher, v: Volume, a: Action) {
    && Enabled(matches, v, a)
    && (rules != Code ==> Premise(v, a))
    && (rules == Serial ==> NoOverlap(v, a))
  }

  predicate Legal(rules: Rules, matches: Matcher, c: Cluster, e: Event) {
    VolumeLegal(rules, matches, At(c, e.name), e.action)
  }

  predicate Run(rules: Rules, matches: Matcher, c: Cluster, es: seq<Event>)
    decreases |es|
  {
    es != [] ==> Legal(rules, matches, c, es[0]) && Run(rules, matches, Next(matches, c, es[0]), es[1..])
  }

  /** The state a run ends in. */
  function Exec(rules: Rules, matches: Matcher, c: Cluster, es: seq<Event>): Cluster
    requires Run(rules, matches, c, es)
    decreases |es|
  {
    if es == [] then c else Exec(rules, matches, Next(matches, c, es[0]), es[1..])
  }

  const INIT := Cluster(map[], 0)
}
