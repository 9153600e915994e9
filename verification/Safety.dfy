/**
 The invariant of the provisioning protocol under P2 and P3, and what it means for records
 and logical volumes in every reachable state.
 */
module Safety {
  import opened Capacity
  import opened Records
  import opened Protocol
  import opened Versions

  /** An LV exists only where the record says: on its owner, in its volume group. */
  predicate LvsRecorded(v: Volume) {
    forall lv | lv in v.lvs ::
      lv.vg != "" && v.rec.Some? && lv == Lv(v.rec.value.owner, v.rec.value.volGroup)
  }

  /** What each state of a record stands for. */
  predicate StateMeaning(matches: Matcher, v: Volume) {
    v.rec.Some? ==>
      var r := v.rec.value;
      && (r.volGroup != "" ==> matches(r.vgPattern, r.volGroup))
      && match r.state
         case Pending => !r.finalizer && !r.marked && r.error.None?
         case Failed => !r.finalizer && !r.marked && r.error.Some? && v.lvs == {}
         case Ready =>
           && r.finalizer && r.error.None? && r.volGroup != ""
           && (!r.marked ==> Lv(r.owner, r.volGroup) in v.lvs)
  }

  /** The stored record is Pending with the volume group this sync is about to create in. */
  predicate Holds(v: Volume, node: string, copy: Record) {
    && copy.volGroup != "" && copy.owner == node && copy.state == Pending
    && v.rec.Some?
    && v.rec.value.state == Pending && v.rec.value.owner == node && v.rec.value.volGroup == copy.volGroup
  }

  predicate AllMatch(matches: Matcher, copy: Record, vgs: seq<string>) {
    forall g | g in vgs :: matches(copy.vgPattern, g)
  }

  /** What a sync may rely on before its next action. */
  predicate SyncSound(matches: Matcher, v: Volume, node: string, y: Sync) {
    match y.phase
    case Destroying =>
      && y.copy.marked
      && (forall lv | lv in v.lvs && lv.node == node :: v.rec.Some? && v.rec.value.marked)
      && (Current(v, y.copy) ==> y.copy.owner == node || v.lvs == {})
    case Finalizing => y.copy.marked && (Current(v, y.copy) ==> v.lvs == {})
    case Retrying => Holds(v, node, y.copy)
    case Creating(rest) => Holds(v, node, y.copy) && AllMatch(matches, y.copy, rest)
    case Publishing => Holds(v, node, y.copy) && Lv(node, y.copy.volGroup) in v.lvs
    case Listing => Searching(v, node, y.copy)
    case Failing(_) => Searching(v, node, y.copy)
    case Assigning(rest) => Searching(v, node, y.copy) && rest != [] && AllMatch(matches, y.copy, rest)
  }

  /** The sync owns a Pending record and, while its copy is current, there is no LV. */
  predicate Searching(v: Volume, node: string, copy: Record) {
    copy.owner == node && copy.state == Pending && (Current(v, copy) ==> v.lvs == {})
  }

  predicate SyncsSound(matches: Matcher, v: Volume) {
    forall node | node in v.syncs :: SyncSound(matches, v, node, v.syncs[node])
  }

  predicate Sound(matches: Matcher, v: Volume) {
    LvsRecorded(v) && StateMeaning(matches, v) && SyncsSound(matches, v)
  }

  // ----- Steps that write no record and change no LV -----

  /** Same record, same LVs, and every sync was sound before. */
  lemma FrameSound(matches: Matcher, v: Volume, v': Volume)
    requires Sound(matches, v) && v'.rec == v.rec && v'.lvs == v.lvs
    requires forall node | node in v'.syncs :: SyncSound(matches, v, node, v'.syncs[node])
    ensures Sound(matches, v')
  {
  }

  lemma StartSound(matches: Matcher, v: Volume, node: string)
    requires Sound(matches, v) && CanStart(v, node) && node !in v.syncs
    ensures Sound(matches, DoStart(v, node))
  {
    FrameSound(matches, v, DoStart(v, node));
  }

  lemma ListSound(matches: Matcher, v: Volume, node: string, vgs: seq<string>)
    requires Sound(matches, v) && Enabled(matches, v, List(node, vgs))
    ensures Sound(matches, DoList(v, node, vgs))
  {
    FrameSound(matches, v, DoList(v, node, vgs));
  }

  lemma DropSound(matches: Matcher, v: Volume, v': Volume, node: string)
    requires Sound(matches, v) && v'.rec == v.rec && v'.lvs == v.lvs && v'.syncs == v.syncs - {node}
    ensures Sound(matches, v')
  {
    FrameSound(matches, v, v');
  }

  // ----- Steps on LVs -----

  /** lvremove takes the LV of a marked record only, and on the owner it takes the last one. */
  lemma DestroySound(matches: Matcher, v: Volume, node: string, ok: bool, now: nat)
    requires Sound(matches, v) && Versioned(v, now) && Enabled(matches, v, Destroy(node, ok))
    ensures Sound(matches, DoDestroy(v, node, ok))
    ensures DoDestroy(v, node, ok).lvs != v.lvs ==> v.rec.Some? && v.rec.value.marked
  {
    assert SyncSound(matches, v, node, v.syncs[node]);
  }

  /** lvcreate runs only where the stored record points. */
  lemma CreateSound(matches: Matcher, v: Volume, node: string, ok: bool, code: ErrorCode, now: nat)
    requires Sound(matches, v) && Versioned(v, now) && Enabled(matches, v, Create(node, ok, code))
    ensures Sound(matches, DoCreate(v, node, ok, code))
  {
    assert SyncSound(matches, v, node, v.syncs[node]);
  }

  // ----- Steps on the record -----

  lemma FinalizeSound(matches: Matcher, v: Volume, node: string, now: nat)
    requires Sound(matches, v) && Versioned(v, now) && Enabled(matches, v, Finalize(node))
    ensures Sound(matches, DoFinalize(v, node, now))
  {
    assert SyncSound(matches, v, node, v.syncs[node]);
  }

  /** While a node holds a current copy of a Pending record, no other node's sync matters. */
  lemma OthersStale(matches: Matcher, v: Volume, v': Volume, node: string, other: string, now: nat)
    requires Sound(matches, v) && Versioned(v, now)
    requires node in v.syncs && other in v.syncs && other != node
    requires Current(v, v.syncs[node].copy) && v.syncs[node].copy.owner == node && v.syncs[node].copy.state == Pending
    requires v'.rec == v.rec || (v'.rec.Some? && v'.rec.value.rv == now)
    requires v'.lvs == v.lvs
    ensures SyncSound(matches, v', other, v.syncs[other])
  {
    assert SyncSound(matches, v, other, v.syncs[other]);
    assert Fresh(v, v.syncs[node].copy, now) && Fresh(v, v.syncs[other].copy, now);
  }

  lemma AssignSound(matches: Matcher, v: Volume, node: string, now: nat)
    requires Sound(matches, v) && Versioned(v, now) && Enabled(matches, v, Assign(node))
    ensures Sound(matches, DoAssign(v, node, now))
  {
    var v', y := DoAssign(v, node, now), v.syncs[node];
    assert SyncSound(matches, v, node, y) && Fresh(v, y.copy, now);
    if y.phase.rest[0] != "" && Current(v, y.copy) {
      forall other | other in v'.syncs && other != node
        ensures SyncSound(matches, v', other, v'.syncs[other])
      {
        OthersStale(matches, v, v', node, other, now);
      }
    } else {
      DropSound(matches, v, v', node);
    }
  }

  lemma PublishSound(matches: Matcher, v: Volume, node: string, now: nat)
    requires Sound(matches, v) && Versioned(v, now) && Enabled(matches, v, Publish(node))
    ensures Sound(matches, DoPublish(v, node, now))
  {
    var v', y := DoPublish(v, node, now), v.syncs[node];
    assert SyncSound(matches, v, node, y) && Fresh(v, y.copy, now);
    if !y.copy.finalizer && Current(v, y.copy) {
      forall other | other in v'.syncs
        ensures SyncSound(matches, v', other, v'.syncs[other])
      {
        OthersStale(matches, v, v', node, other, now);
      }
    } else {
      DropSound(matches, v, v', node);
    }
  }

  /** Every record a caller sees to have left Pending, or to have no volume group yet, may be deleted. */
  lemma DeletableSuffices(matches: Matcher, v: Volume)
    requires Sound(matches, v) && (v.rec.Some? ==> Deletable(v.rec.value))
    ensures CanDelete(v)
  {
    forall node | node in v.syncs && v.rec.Some?
      ensures v.rec.value.state != Ready ==> !v.syncs[node].phase.Retrying? && !v.syncs[node].phase.Creating?
    {
      assert SyncSound(matches, v, node, v.syncs[node]);
    }
  }

  lemma DeleteSound(matches: Matcher, v: Volume, now: nat)
    requires Sound(matches, v) && Versioned(v, now) && v.rec.Some? && CanDelete(v)
    ensures Sound(matches, ApiDelete(v, now))
  {
  }

  lemma ExpandSound(matches: Matcher, v: Volume, copy: Record, size: Int64, now: nat)
    requires Sound(matches, v) && Versioned(v, now) && Fresh(v, copy, now) && Current(v, copy)
    ensures Sound(matches, Write(v, copy.(capacity := size), now))
  {
  }

  lemma ProvisionSound(matches: Matcher, v: Volume, v': Volume, req: Request, owner: string, now: nat)
    requires Sound(matches, v) && Versioned(v, now) && v.rec.None?
    requires v'.rec == Some(NewRecord(req, owner, now)) && v'.lvs == v.lvs && v'.syncs == v.syncs
    ensures Sound(matches, v')
  {
  }

  // ----- All steps -----

  predicate Writes(call: Call) {
    Deletes(call) || call.CreateProvision? || call.ExpandWrite?
  }

  lemma QuietCallSound(matches: Matcher, v: Volume, id: nat, owner: string, now: nat)
    requires Sound(matches, v) && id in v.calls && !Writes(v.calls[id])
    ensures Sound(matches, DoStep(v, id, owner, now))
  {
    FrameSound(matches, v, DoStep(v, id, owner, now));
  }

  lemma DeletingCallSound(matches: Matcher, v: Volume, id: nat, owner: string, now: nat)
    requires Sound(matches, v) && Versioned(v, now) && id in v.calls && Deletes(v.calls[id]) && CanDelete(v)
    ensures Sound(matches, DoStep(v, id, owner, now))
  {
    var v' := DoStep(v, id, owner, now);
    if v.rec.Some? {
      DeleteSound(matches, v, now);
      FrameSound(matches, ApiDelete(v, now), v');
    } else {
      FrameSound(matches, v, v');
    }
  }

  lemma ProvisionCallSound(matches: Matcher, v: Volume, id: nat, owner: string, now: nat)
    requires Sound(matches, v) && Versioned(v, now) && id in v.calls && v.calls[id].CreateProvision?
    ensures Sound(matches, DoStep(v, id, owner, now))
  {
    var v', req := DoStep(v, id, owner, now), v.calls[id].req;
    if req.vgPattern != "" && v.rec.None? {
      ProvisionSound(matches, v, v', req, owner, now);
    } else {
      FrameSound(matches, v, v');
    }
  }

  lemma ExpandCallSound(matches: Matcher, v: Volume, id: nat, owner: string, now: nat)
    requires Sound(matches, v) && Versioned(v, now) && id in v.calls && v.calls[id].ExpandWrite?
    ensures Sound(matches, DoStep(v, id, owner, now))
  {
    var v', call := DoStep(v, id, owner, now), v.calls[id];
    assert FreshCall(v, call, now);
    var size := RoundedCapacity(call.size);
    if Current(v, call.copy) {
      ExpandSound(matches, v, call.copy, size, now);
      FrameSound(matches, Write(v, call.copy.(capacity := size), now), v');
    } else {
      FrameSound(matches, v, v');
    }
  }

  lemma CallStepSound(matches: Matcher, v: Volume, id: nat, owner: string, now: nat)
    requires Sound(matches, v) && Versioned(v, now)
    requires id in v.calls && (Deletes(v.calls[id]) ==> CanDelete(v))
    ensures Sound(matches, DoStep(v, id, owner, now))
  {
    var call := v.calls[id];
    if Deletes(call) { DeletingCallSound(matches, v, id, owner, now); }
    else if call.CreateProvision? { ProvisionCallSound(matches, v, id, owner, now); }
    else if call.ExpandWrite? { ExpandCallSound(matches, v, id, owner, now); }
    else { QuietCallSound(matches, v, id, owner, now); }
  }

  lemma StepSound(matches: Matcher, v: Volume, a: Action, now: nat)
    requires Sound(matches, v) && Versioned(v, now) && Enabled(matches, v, a) && Premise(v, a)
    ensures Sound(matches, Apply(matches, v, a, now))
  {
    match a
    case Start(node) => StartSound(matches, v, node);
    case Destroy(node, ok) => DestroySound(matches, v, node, ok, now);
    case Finalize(node) => FinalizeSound(matches, v, node, now);
    case Create(node, ok, code) => CreateSound(matches, v, node, ok, code, now);
    case List(node, vgs) => ListSound(matches, v, node, vgs);
    case Assign(node) => AssignSound(matches, v, node, now);
    case Publish(node) => PublishSound(matches, v, node, now);
    case Abort(node) => DropSound(matches, v, Apply(matches, v, a, now), node);
    case Crash(node) => DropSound(matches, v, Apply(matches, v, a, now), node);
    case Step(id, owner) => CallStepSound(matches, v, id, owner, now);
    case _ => FrameSound(matches, v, Apply(matches, v, a, now));
  }
}
