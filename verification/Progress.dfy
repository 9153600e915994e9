/**
 The protocol never paints itself into a corner: whatever happened before, a create call and a
 delete call can still run to a successful reply.
 */
module Progress {
  import opened Capacity
  import opened Records
  import opened Protocol
  import opened Versions
  import opened Safety
  import opened Theorems

  // ----- What can follow -----

  /** The path takes `v` to `v'`. No call passes its validation on it, so snapshots do not stand in its way. */
  ghost predicate LeadsBy(matches: Matcher, v: Volume, now: nat, v': Volume, later: nat, vs: seq<Volume>,
                          acts: seq<Action>)
  {
    && Path(Serial, matches, vs, acts, now) && vs[0] == v && vs[|acts|] == v' && later == now + |acts|
    && forall a | a in acts :: !a.Validate?
  }

  /** Steps about one name, with calls that do not overlap, take `v` to `v'`. */
  ghost predicate Leads(matches: Matcher, v: Volume, now: nat, v': Volume, later: nat) {
    exists vs, acts :: LeadsBy(matches, v, now, v', later, vs, acts)
  }

  lemma LeadsNowhere(matches: Matcher, v: Volume, now: nat)
    ensures Leads(matches, v, now, v, now)
  {
    assert LeadsBy(matches, v, now, v, now, [v], []);
  }

  lemma LeadsOn(matches: Matcher, v: Volume, now: nat, v1: Volume, t1: nat, a: Action, v2: Volume)
    requires Leads(matches, v, now, v1, t1) && Takes(Serial, matches, v1, a, t1, v2) && !a.Validate?
    ensures Leads(matches, v, now, v2, t1 + 1)
  {
    var vs, acts :| LeadsBy(matches, v, now, v1, t1, vs, acts);
    PathGrows(Serial, matches, vs, acts, now, a, v2);
    assert LeadsBy(matches, v, now, v2, t1 + 1, vs + [v2], acts + [a]);
  }

  lemma LeadsJoin(matches: Matcher, v: Volume, now: nat, v1: Volume, t1: nat, vs: seq<Volume>, acts: seq<Action>,
                  v2: Volume, t2: nat, us: seq<Volume>, more: seq<Action>)
    requires LeadsBy(matches, v, now, v1, t1, vs, acts) && LeadsBy(matches, v1, t1, v2, t2, us, more)
    ensures LeadsBy(matches, v, now, v2, t2, vs + us[1..], acts + more)
  {
    PathsJoin(Serial, matches, vs, acts, us, more, now);
  }

  lemma LeadsThrough(matches: Matcher, v: Volume, now: nat, v1: Volume, t1: nat, v2: Volume, t2: nat)
    requires Leads(matches, v, now, v1, t1) && Leads(matches, v1, t1, v2, t2)
    ensures Leads(matches, v, now, v2, t2)
  {
    var vs, acts :| LeadsBy(matches, v, now, v1, t1, vs, acts);
    var us, more :| LeadsBy(matches, v1, t1, v2, t2, us, more);
    LeadsJoin(matches, v, now, v1, t1, vs, acts, v2, t2, us, more);
  }

  lemma LeadsKeepsSound(matches: Matcher, v: Volume, now: nat, v': Volume, later: nat)
    requires Leads(matches, v, now, v', later) && Sound(matches, v) && Versioned(v, now)
    ensures Sound(matches, v') && Versioned(v', later)
  {
    var vs, acts :| LeadsBy(matches, v, now, v', later, vs, acts);
    PathKeepsSound(Serial, matches, vs, acts, now);
  }

  /** All calls in flight can be given up. */
  lemma {:induction false} CallsCanEnd(matches: Matcher, v: Volume, now: nat) returns (later: nat)
    ensures Leads(matches, v, now, v.(calls := map[]), later)
    decreases |v.calls|
  {
    LeadsNowhere(matches, v, now);
    later := now;
    if v.calls == map[] {
      assert v.(calls := map[]) == v;
    } else {
      var id :| id in v.calls;
      var v1 := v.(calls := v.calls - {id});
      LeadsOn(matches, v, now, v, now, Cancel(id), v1);
      later := CallsCanEnd(matches, v1, now + 1);
      LeadsThrough(matches, v, now, v1, now + 1, v.(calls := map[]), later);
    }
  }

  // ----- What the owner's agent can do -----

  lemma OwnerStarts(matches: Matcher, v: Volume, now: nat)
    requires v.rec.Some?
    ensures var node := v.rec.value.owner;
            Leads(matches, v, now, DoStart(Crashed(v, node), node), now + 3)
  {
    var node := v.rec.value.owner;
    RestartTakes(matches, v, node, now);
    LeadsNowhere(matches, v, now);
    LeadsOn(matches, v, now, v, now, Crash(node), Crashed(v, node));
    LeadsOn(matches, v, now, Crashed(v, node), now + 1, Resync(node), Resynced(v, node));
    LeadsOn(matches, v, now, Resynced(v, node), now + 2, Start(node), DoStart(Crashed(v, node), node));
  }

  /** A marked record can go, with its LV. */
  lemma MarkedCanGo(matches: Matcher, v: Volume, now: nat) returns (v': Volume, later: nat)
    requires Sound(matches, v) && v.rec.Some? && v.rec.value.marked
    ensures Leads(matches, v, now, v', later) && v'.rec.None? && v'.lvs == {} && v'.calls == v.calls
  {
    var node := v.rec.value.owner;
    var v3 := DoStart(Crashed(v, node), node);
    OwnerStarts(matches, v, now);
    RepairTakes(matches, v, v3, now);
    var v4 := DoDestroy(v3, node, true);
    v', later := DoFinalize(v4, node, now + 4), now + 5;
    LeadsOn(matches, v, now, v3, now + 3, Destroy(node, true), v4);
    LeadsOn(matches, v, now, v4, now + 4, Finalize(node), v');
  }

  /** Pending, with no LV anywhere but where the record says. */
  predicate Unfinished(v: Volume) {
    v.rec.Some? && v.rec.value.state == Pending && !v.rec.value.finalizer && !v.rec.value.marked && LvsRecorded(v)
  }

  /** The volume is there: Ready, with its only LV on the owner. */
  predicate Provided(v: Volume, r: Record) {
    && v.rec.Some? && v.rec.value.state == Ready && !v.rec.value.marked
    && v.rec.value.owner == r.owner && v.rec.value.capacity == r.capacity
    && v.lvs == {Lv(v.rec.value.owner, v.rec.value.volGroup)} && v.rec.value.volGroup != ""
  }

  /** A sync about to create in the recorded volume group can create and publish. */
  lemma CreatingCanPublish(matches: Matcher, v: Volume, now: nat, node: string) returns (v': Volume)
    requires Unfinished(v) && v.rec.value.owner == node && v.lvs <= {Lv(node, v.rec.value.volGroup)}
    requires v.rec.value.volGroup != ""
    requires node in v.syncs && v.syncs[node].copy == v.rec.value
    requires v.syncs[node].phase.Retrying? || v.syncs[node].phase.Creating?
    ensures Leads(matches, v, now, v', now + 2) && Provided(v', v.rec.value) && v'.calls == v.calls
    ensures v'.rec.value.volGroup == v.rec.value.volGroup
  {
    var v1 := DoCreate(v, node, true, Internal);
    v' := DoPublish(v1, node, now + 1);
    LeadsNowhere(matches, v, now);
    LeadsOn(matches, v, now, v, now, Create(node, true, Internal), v1);
    assert v1.rec == v.rec && v1.syncs[node] == Sync(Publishing, v.rec.value);
    LeadsOn(matches, v, now, v1, now + 1, Publish(node), v');
  }

  /** A sync that lists one volume group can record it. */
  lemma ListingCanAssign(matches: Matcher, v: Volume, now: nat, node: string, vg: string) returns (v': Volume)
    requires Unfinished(v) && v.rec.value.owner == node && v.lvs == {}
    requires vg != "" && matches(v.rec.value.vgPattern, vg) && v.rec.value.volGroup == ""
    requires node in v.syncs && v.syncs[node] == Sync(Listing, v.rec.value)
    ensures Leads(matches, v, now, v', now + 2) && Unfinished(v') && v'.lvs == {} && v'.calls == v.calls
    ensures v'.rec == Some(v.rec.value.(rv := now + 1, volGroup := vg))
    ensures node in v'.syncs && v'.syncs[node] == Sync(Creating([]), v'.rec.value)
  {
    var v1 := DoList(v, node, [vg]);
    v' := DoAssign(v1, node, now + 1);
    assert [vg][1..] == [];
    LeadsNowhere(matches, v, now);
    LeadsOn(matches, v, now, v, now, List(node, [vg]), v1);
    assert v1.rec == v.rec && v1.syncs[node] == Sync(Assigning([vg]), v.rec.value);
    LeadsOn(matches, v, now, v1, now + 1, Assign(node), v');
  }

  /** A Pending record can become Ready, in the recorded volume group or in `vg`. */
  lemma PendingCanGetReady(matches: Matcher, v: Volume, now: nat, vg: string) returns (v': Volume, later: nat)
    requires Unfinished(v) && (v.rec.value.volGroup == "" ==> vg != "" && matches(v.rec.value.vgPattern, vg))
    ensures Leads(matches, v, now, v', later) && Provided(v', v.rec.value) && v'.calls == v.calls
    ensures v'.rec.value.volGroup == if v.rec.value.volGroup == "" then vg else v.rec.value.volGroup
  {
    var r := v.rec.value;
    var v3 := DoStart(Crashed(v, r.owner), r.owner);
    OwnerStarts(matches, v, now);
    assert v3.rec == v.rec && v3.lvs == v.lvs && v3.calls == v.calls;
    var v4, t := v3, now + 3;
    if r.volGroup == "" {
      v4 := ListingCanAssign(matches, v3, now + 3, r.owner, vg);
      t := now + 5;
      LeadsThrough(matches, v, now, v3, now + 3, v4, t);
    }
    v' := CreatingCanPublish(matches, v4, t, r.owner);
    later := t + 2;
    LeadsThrough(matches, v, now, v4, t, v', later);
  }

  // ----- What a create call can do -----

  /** The create call 0 for this request is the only call, and its next step reports the volume provisioned. */
  predicate ReportsProvisioned(v: Volume, now: nat, req: Request) {
    && v.rec.Some? && (v.calls == map[0 := CreateGet(req)] || exists last :: v.calls == map[0 := CreatePoll(req, last)])
    && CallStep(v, v.calls[0], "", now) == (v, Returned(Provisioned(v.rec.value)))
  }

  ghost predicate CanSucceed(matches: Matcher, v: Volume, now: nat, req: Request) {
    exists v', later :: Leads(matches, v, now, v', later) && ReportsProvisioned(v', later, req)
  }

  lemma SucceedsAfter(matches: Matcher, v: Volume, now: nat, v1: Volume, t1: nat, req: Request)
    requires Leads(matches, v, now, v1, t1) && CanSucceed(matches, v1, t1, req)
    ensures CanSucceed(matches, v, now, req)
  {
    var v', later :| Leads(matches, v1, t1, v', later) && ReportsProvisioned(v', later, req);
    LeadsThrough(matches, v, now, v1, t1, v', later);
  }

  lemma StepThenSucceeds(matches: Matcher, v: Volume, now: nat, a: Action, v1: Volume, req: Request)
    requires Takes(Serial, matches, v, a, now, v1) && !a.Validate? && CanSucceed(matches, v1, now + 1, req)
    ensures CanSucceed(matches, v, now, req)
  {
    LeadsNowhere(matches, v, now);
    LeadsOn(matches, v, now, v, now, a, v1);
    SucceedsAfter(matches, v, now, v1, now + 1, req);
  }

  lemma PollCanSucceed(matches: Matcher, v: Volume, now: nat, req: Request, last: bool, vg: string)
    requires Unfinished(v) && (v.rec.value.volGroup == "" ==> vg != "" && matches(v.rec.value.vgPattern, vg))
    requires v.calls == map[0 := CreatePoll(req, last)]
    ensures CanSucceed(matches, v, now, req)
  {
    var v', later := PendingCanGetReady(matches, v, now, vg);
    assert ReportsProvisioned(v', later, req);
  }

  lemma ProvisionCanSucceed(matches: Matcher, v: Volume, now: nat, req: Request, node: string, vg: string)
    requires v.rec.None? && v.lvs == {} && v.calls == map[0 := CreateProvision(req)]
    requires req.vgPattern != "" && vg != "" && matches(req.vgPattern, vg)
    ensures CanSucceed(matches, v, now, req)
  {
    var v1 := DoStep(v, 0, node, now);
    assert v.calls[0 := CreatePoll(req, true)] == map[0 := CreatePoll(req, true)];
    PollCanSucceed(matches, v1, now + 1, req, true, vg);
    StepThenSucceeds(matches, v, now, Step(0, node), v1, req);
  }

  lemma FreshTakes(matches: Matcher, v: Volume, now: nat, req: Request, node: string)
    requires v.rec.None? && v.calls == map[]
    ensures var v1, v2 := v.(calls := map[0 := CreateGet(req)]), v.(calls := map[0 := CreateProvision(req)]);
            && Takes(Serial, matches, v, Begin(0, CreateGet(req)), now, v1)
            && Takes(Serial, matches, v1, Step(0, node), now + 1, v2)
  {
    assert v.calls[0 := CreateGet(req)] == map[0 := CreateGet(req)];
    assert map[0 := CreateGet(req)][0 := CreateProvision(req)] == map[0 := CreateProvision(req)];
  }

  lemma ReplyTakes(matches: Matcher, v: Volume, now: nat, req: Request, node: string)
    requires v.rec.Some? && v.rec.value.state == Ready && v.calls == map[0 := CreatePoll(req, true)]
    ensures Takes(Serial, matches, v, Step(0, node), now, v.(calls := map[]))
  {
    assert v.calls - {0} == map[];
  }

  /** A create call about to provision can run to its end, on any node. */
  lemma ProvisionCanFinish(matches: Matcher, v: Volume, now: nat, req: Request, node: string, vg: string)
    returns (v': Volume, later: nat)
    requires v.rec.None? && v.lvs == {} && v.calls == map[0 := CreateProvision(req)]
    requires req.vgPattern != "" && vg != "" && matches(req.vgPattern, vg)
    ensures Leads(matches, v, now, v', later) && Provided(v', NewRecord(req, node, now)) && v'.calls == map[]
    ensures v'.rec.value.volGroup == vg
  {
    var v1 := DoStep(v, 0, node, now);
    assert v1.calls == map[0 := CreatePoll(req, true)] && v1.lvs == {};
    LeadsNowhere(matches, v, now);
    LeadsOn(matches, v, now, v, now, Step(0, node), v1);
    var v2, t := PendingCanGetReady(matches, v1, now + 1, vg);
    LeadsThrough(matches, v, now, v1, now + 1, v2, t);
    v', later := v2.(calls := map[]), t + 1;
    ReplyTakes(matches, v2, t, req, node);
    LeadsOn(matches, v, now, v2, t, Step(0, node), v');
  }

  /** A create call about a name that is free can run to its end, on any node. */
  lemma VolumeCanBeMade(matches: Matcher, v: Volume, now: nat, req: Request, node: string, vg: string)
    returns (v': Volume, later: nat)
    requires v.rec.None? && v.lvs == {} && v.calls == map[]
    requires req.vgPattern != "" && vg != "" && matches(req.vgPattern, vg)
    ensures Leads(matches, v, now, v', later) && Provided(v', NewRecord(req, node, now + 2)) && v'.calls == map[]
    ensures v'.rec.value.volGroup == vg
  {
    var v1, v2 := v.(calls := map[0 := CreateGet(req)]), v.(calls := map[0 := CreateProvision(req)]);
    LeadsNowhere(matches, v, now);
    FreshTakes(matches, v, now, req, node);
    LeadsOn(matches, v, now, v, now, Begin(0, CreateGet(req)), v1);
    LeadsOn(matches, v, now, v1, now + 1, Step(0, node), v2);
    v', later := ProvisionCanFinish(matches, v2, now + 2, req, node, vg);
    LeadsThrough(matches, v, now, v2, now + 2, v', later);
  }

  /** A call that finds the record marked waits for it to go and provisions a new one. */
  lemma WaitCanSucceed(matches: Matcher, v: Volume, now: nat, req: Request, node: string, vg: string)
    requires Sound(matches, v) && v.rec.Some? && v.rec.value.marked && v.calls == map[0 := CreateWaitGone(req)]
    requires req.vgPattern != "" && vg != "" && matches(req.vgPattern, vg)
    ensures CanSucceed(matches, v, now, req)
  {
    var v1, t1 := MarkedCanGo(matches, v, now);
    var v2 := DoStep(v1, 0, node, t1);
    assert v1.calls[0 := CreateProvision(req)] == map[0 := CreateProvision(req)];
    ProvisionCanSucceed(matches, v2, t1 + 1, req, node, vg);
    StepThenSucceeds(matches, v1, t1, Step(0, node), v2, req);
    SucceedsAfter(matches, v, now, v1, t1, req);
  }

  /** A call that finds the record Failed deletes it and provisions a new one, on any node. */
  lemma RescheduleCanSucceed(matches: Matcher, v: Volume, now: nat, req: Request, node: string, vg: string)
    requires Sound(matches, v) && v.rec.Some? && v.rec.value.state == Failed
      && v.calls == map[0 := CreateDelete(req, false)]
    requires req.vgPattern != "" && vg != "" && matches(req.vgPattern, vg)
    ensures CanSucceed(matches, v, now, req)
  {
    DeletableSuffices(matches, v);
    var v1 := DoStep(v, 0, node, now);
    assert v1.calls == map[0 := CreateWaitDestroy(req, false)] && v1.rec.None? && v1.lvs == {};
    var v2 := DoStep(v1, 0, node, now + 1);
    assert v2.calls == map[0 := CreateProvision(req)] && v2.rec.None? && v2.lvs == {};
    ProvisionCanSucceed(matches, v2, now + 2, req, node, vg);
    StepThenSucceeds(matches, v1, now + 1, Step(0, node), v2, req);
    StepThenSucceeds(matches, v, now, Step(0, node), v1, req);
  }

  /** The record awaits an agent that picks a volume group by its pattern. */
  predicate SeeksGroup(r: Record) {
    r.state == Pending && r.volGroup == ""
  }

  lemma GetCanSucceed(matches: Matcher, v: Volume, now: nat, req: Request, node: string, vg: string)
    requires Sound(matches, v) && v.calls == map[0 := CreateGet(req)]
    requires v.rec.Some? ==> v.rec.value.marked || v.rec.value.capacity == RoundedCapacity(req.size)
    requires req.vgPattern != "" && vg != "" && matches(req.vgPattern, vg)
    requires v.rec.Some? && SeeksGroup(v.rec.value) ==> matches(v.rec.value.vgPattern, vg)
    ensures CanSucceed(matches, v, now, req)
  {
    var v1 := DoStep(v, 0, node, now);
    if v.rec.Some? && v.rec.value.state == Ready && !v.rec.value.marked {
      LeadsNowhere(matches, v, now);
      assert ReportsProvisioned(v, now, req);
    } else {
      FrameSound(matches, v, v1);
      assert Takes(Serial, matches, v, Step(0, node), now, v1);
      if v.rec.None? {
        assert v1.calls == map[0 := CreateProvision(req)] && v1.lvs == {};
        ProvisionCanSucceed(matches, v1, now + 1, req, node, vg);
      } else if v.rec.value.marked {
        assert v1.calls == map[0 := CreateWaitGone(req)];
        WaitCanSucceed(matches, v1, now + 1, req, node, vg);
      } else if v.rec.value.state == Failed {
        assert v1.calls == map[0 := CreateDelete(req, false)];
        RescheduleCanSucceed(matches, v1, now + 1, req, node, vg);
      } else {
        assert v1.calls == map[0 := CreatePoll(req, false)];
        PollCanSucceed(matches, v1, now + 1, req, false, vg);
      }
      StepThenSucceeds(matches, v, now, Step(0, node), v1, req);
    }
  }

  /** A run of the cluster takes this name to `v`. */
  ghost predicate Reachable(matches: Matcher, c: Cluster, n: string, v: Volume, later: nat) {
    exists es :: Run(Serial, matches, c, es) && At(Exec(Serial, matches, c, es), n) == v && later == c.clock + |es|
  }

  lemma LeadsIsRun(matches: Matcher, c: Cluster, n: string, v: Volume, later: nat)
    requires Leads(matches, At(c, n), c.clock, v, later)
    ensures Reachable(matches, c, n, v, later)
  {
    var vs, acts :| LeadsBy(matches, At(c, n), c.clock, v, later, vs, acts);
    PathIsRun(Serial, matches, c, n, vs, acts);
    assert |On(n, acts)| == |acts|;
  }

  /**
   From every state the cluster can get into, with whatever record, half-finished syncs and calls
   that are given up, a create call can report the volume provisioned, unless there is an unmarked
   record of another capacity.
   */
  lemma CreateCanSucceed(matches: Matcher, c: Cluster, n: string, req: Request, node: string, vg: string)
    requires Inv(matches, c)
    requires var rec := At(c, n).rec;
             rec.Some? ==>
               && (rec.value.marked || rec.value.capacity == RoundedCapacity(req.size))
               && (SeeksGroup(rec.value) ==> matches(rec.value.vgPattern, vg))
    requires req.vgPattern != "" && vg != "" && matches(req.vgPattern, vg)
    ensures exists v, later :: Reachable(matches, c, n, v, later) && ReportsProvisioned(v, later, req)
  {
    var v, u, now := At(c, n), At(c, n).(calls := map[]), c.clock;
    var t := CallsCanEnd(matches, v, now);
    var v1 := u.(calls := map[0 := CreateGet(req)]);
    FrameSound(matches, v, v1);
    GetCanSucceed(matches, v1, t + 1, req, node, vg);
    assert u.calls[0 := CreateGet(req)] == v1.calls;
    StepThenSucceeds(matches, u, t, Begin(0, CreateGet(req)), v1, req);
    SucceedsAfter(matches, v, now, u, t, req);
    var v', later :| Leads(matches, v, now, v', later) && ReportsProvisioned(v', later, req);
    LeadsIsRun(matches, c, n, v', later);
  }

  // ----- What a delete call can do -----

  /** The delete call 0 is the only call, its next step reports the volume deleted, and nothing is left of it. */
  predicate ReportsDeleted(v: Volume, now: nat) {
    && v.rec.None? && v.lvs == {} && v.calls.Keys == {0}
    && CallStep(v, v.calls[0], "", now) == (v, Returned(Deleted))
  }

  ghost predicate CanFinish(matches: Matcher, v: Volume, now: nat) {
    exists v', later :: Leads(matches, v, now, v', later) && ReportsDeleted(v', later)
  }

  lemma StepThenFinishes(matches: Matcher, v: Volume, now: nat, a: Action, v1: Volume)
    requires Takes(Serial, matches, v, a, now, v1) && !a.Validate? && CanFinish(matches, v1, now + 1)
    ensures CanFinish(matches, v, now)
  {
    var v', later :| Leads(matches, v1, now + 1, v', later) && ReportsDeleted(v', later);
    LeadsNowhere(matches, v, now);
    LeadsOn(matches, v, now, v, now, a, v1);
    LeadsThrough(matches, v, now, v1, now + 1, v', later);
  }

  lemma WaitCanFinish(matches: Matcher, v: Volume, now: nat)
    requires Sound(matches, v) && (v.rec.Some? ==> v.rec.value.marked) && v.calls == map[0 := DeleteWait]
    ensures CanFinish(matches, v, now)
  {
    if v.rec.None? {
      LeadsNowhere(matches, v, now);
      assert ReportsDeleted(v, now);
    } else {
      var v', later := MarkedCanGo(matches, v, now);
      assert ReportsDeleted(v', later);
    }
  }

  /** The record may be deleted here. */
  predicate MayDelete(matches: Matcher, v: Volume, now: nat) {
    Sound(matches, v) && Versioned(v, now) && CanDelete(v)
  }

  function WithCall(v: Volume, call: Call): Volume {
    v.(calls := map[0 := call])
  }

  lemma CallsDoNotMatter(matches: Matcher, v: Volume, now: nat, call: Call, later: nat)
    requires MayDelete(matches, v, now) && now <= later && !call.ExpandWrite?
    ensures MayDelete(matches, WithCall(v, call), later)
  {
    FrameSound(matches, v, WithCall(v, call));
  }

  lemma DeleteCanFinish(matches: Matcher, v: Volume, now: nat)
    requires MayDelete(matches, v, now) && v.rec.Some? && v.calls == map[0 := DeleteDelete]
    ensures CanFinish(matches, v, now)
  {
    var v1 := DoStep(v, 0, "", now);
    DeletingCallSound(matches, v, 0, "", now);
    assert v1.calls == map[0 := DeleteWait];
    WaitCanFinish(matches, v1, now + 1);
    StepThenFinishes(matches, v, now, Step(0, ""), v1);
  }

  lemma GetTakes(matches: Matcher, v: Volume, now: nat, v1: Volume)
    requires v.rec.Some? && v.calls == map[0 := DeleteGet]
    requires v1 == WithCall(v, if v.rec.value.marked then DeleteWait else DeleteDelete)
    ensures Takes(Serial, matches, v, Step(0, ""), now, v1)
  {
    assert v.calls[0 := v1.calls[0]] == v1.calls;
  }

  lemma GetCanFinish(matches: Matcher, v: Volume, now: nat)
    requires MayDelete(matches, v, now) && v.calls == map[0 := DeleteGet]
    ensures CanFinish(matches, v, now)
  {
    if v.rec.None? {
      LeadsNowhere(matches, v, now);
      assert ReportsDeleted(v, now);
    } else {
      var v1 := WithCall(v, if v.rec.value.marked then DeleteWait else DeleteDelete);
      CallsDoNotMatter(matches, v, now, v1.calls[0], now + 1);
      if v.rec.value.marked {
        WaitCanFinish(matches, v1, now + 1);
      } else {
        DeleteCanFinish(matches, v1, now + 1);
      }
      GetTakes(matches, v, now, v1);
      StepThenFinishes(matches, v, now, Step(0, ""), v1);
    }
  }

  /** `passed` is what becomes of `call` when it passes its validation. */
  predicate Passes(call: Call, passed: Call) {
    || (call.DeleteValidate? && passed.DeleteGet?)
    || (call.ExpandValidate? && passed.ExpandRead? && passed.size == call.size)
  }

  lemma ValidationTakes(matches: Matcher, v: Volume, now: nat, call: Call, passed: Call)
    requires v.calls == map[] && Passes(call, passed)
    ensures Takes(Serial, matches, v, Begin(0, call), now, WithCall(v, call))
    ensures Takes(Serial, matches, WithCall(v, call), Validate(0, true), now + 1, WithCall(v, passed))
  {
    assert v.calls[0 := call] == map[0 := call];
    assert map[0 := call][0 := passed] == map[0 := passed];
  }

  /** A delete call that has passed its validation can finish. */
  lemma ValidatedCanFinish(matches: Matcher, v: Volume, now: nat)
    requires MayDelete(matches, v, now)
    ensures CanFinish(matches, WithCall(v, DeleteGet), now + 2)
  {
    CallsDoNotMatter(matches, v, now, DeleteGet, now + 2);
    GetCanFinish(matches, WithCall(v, DeleteGet), now + 2);
  }

  /**
   From every state the cluster can get into, with whatever calls are given up, a delete call that
   may delete the record can end with neither record nor LV left.
   */
  lemma DeleteCanSucceed(matches: Matcher, c: Cluster, n: string)
    requires Inv(matches, c) && (At(c, n).rec.Some? ==> Deletable(At(c, n).rec.value))
    ensures exists v, later :: Reachable(matches, c, n, v, later) && ReportsDeleted(v, later)
  {
    var v, u := At(c, n), At(c, n).(calls := map[]);
    var t := CallsCanEnd(matches, v, c.clock);
    LeadsKeepsSound(matches, v, c.clock, u, t);
    DeletableSuffices(matches, u);
    ValidatedCanFinish(matches, u, t);
    var v', later :| Leads(matches, WithCall(u, DeleteGet), t + 2, v', later) && ReportsDeleted(v', later);
    ValidatedIsRun(matches, c, n, u, t, DeleteValidate, DeleteGet, v', later);
  }

  /** Calls end, and one is begun and validated. */
  lemma ValidatedPath(matches: Matcher, v: Volume, now: nat, u: Volume, t: nat, call: Call, passed: Call)
    returns (vs: seq<Volume>, acts: seq<Action>)
    requires Leads(matches, v, now, u, t) && u.calls == map[] && Passes(call, passed)
    ensures Path(Serial, matches, vs, acts, now) && now + |acts| == t + 2
    ensures vs[0] == v && vs[|acts|] == WithCall(u, passed)
  {
    vs, acts :| LeadsBy(matches, v, now, u, t, vs, acts);
    ValidationTakes(matches, u, t, call, passed);
    PathGrows(Serial, matches, vs, acts, now, Begin(0, call), WithCall(u, call));
    vs, acts := vs + [WithCall(u, call)], acts + [Begin(0, call)];
    PathGrows(Serial, matches, vs, acts, now, Validate(0, true), WithCall(u, passed));
    vs, acts := vs + [WithCall(u, passed)], acts + [Validate(0, true)];
  }

  /** The rest follows. */
  lemma ValidatedIsRun(matches: Matcher, c: Cluster, n: string, u: Volume, t: nat, call: Call, passed: Call, v: Volume,
                       later: nat)
    requires Leads(matches, At(c, n), c.clock, u, t) && u.calls == map[] && Passes(call, passed)
    requires Leads(matches, WithCall(u, passed), t + 2, v, later)
    ensures Reachable(matches, c, n, v, later)
  {
    var vs, acts := ValidatedPath(matches, At(c, n), c.clock, u, t, call, passed);
    var us, more :| LeadsBy(matches, WithCall(u, passed), t + 2, v, later, us, more);
    PathsJoin(Serial, matches, vs, acts, us, more, c.clock);
    PathIsRun(Serial, matches, c, n, vs + us[1..], acts + more);
    assert |On(n, acts + more)| == |acts + more|;
  }

  // ----- What an expand call can do -----

  /** The expand call 0 for this size is the only call, and its next step reports a capacity that covers it. */
  predicate ReportsExpanded(v: Volume, now: nat, size: Int64) {
    && v.rec.Some? && v.calls.Keys == {0} && v.calls[0].IsExpand() && v.calls[0].size == size
    && var p := CallStep(v, v.calls[0], "", now).1;
       p.Returned? && p.reply.Expanded? && RoundedCapacity(size) <= p.reply.size
  }

  lemma ExpandReadReports(matches: Matcher, v: Volume, now: nat, size: Int64) returns (v': Volume, later: nat)
    requires v.rec.Some? && v.calls == map[0 := ExpandRead(size)]
    ensures Leads(matches, v, now, v', later) && ReportsExpanded(v', later, size)
  {
    LeadsNowhere(matches, v, now);
    v', later := v, now;
    if v.rec.value.capacity < RoundedCapacity(size) {
      v', later := WithCall(v, ExpandWrite(size, v.rec.value)), now + 1;
      assert v.calls[0 := v'.calls[0]] == v'.calls;
      LeadsOn(matches, v, now, v, now, Step(0, ""), v');
    }
  }

  /**
   From every state the cluster can get into with a record, with whatever calls are given up, an
   expand call can reply with a capacity that covers its size, however often it is repeated.
   */
  lemma ExpandCanSucceed(matches: Matcher, c: Cluster, n: string, size: Int64)
    requires At(c, n).rec.Some?
    ensures exists v, later :: Reachable(matches, c, n, v, later) && ReportsExpanded(v, later, size)
  {
    var v, u := At(c, n), At(c, n).(calls := map[]);
    var t := CallsCanEnd(matches, v, c.clock);
    var v', later := ExpandReadReports(matches, WithCall(u, ExpandRead(size)), t + 2, size);
    ValidatedIsRun(matches, c, n, u, t, ExpandValidate(size), ExpandRead(size), v', later);
  }
}
