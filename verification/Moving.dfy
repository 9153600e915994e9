/**
 A volume without an LV can always end up anywhere: whatever its record and its half-finished
 syncs, a run puts its LV on any node, in any volume group that some pattern accepts.
 */
module Moving {
  import opened Capacity
  import opened Records
  import opened Protocol
  import opened Versions
  import opened Safety
  import opened Theorems
  import opened Progress

  /** The record has failed, and a create call would take it away. */
  predicate HasFailed(v: Volume) {
    && v.rec.Some? && v.rec.value.state == Failed && v.rec.value.error.Some?
    && !v.rec.value.marked && !v.rec.value.finalizer
  }

  lemma RetryCanFail(matches: Matcher, v: Volume, now: nat, node: string) returns (v': Volume)
    requires node in v.syncs && v.syncs[node].phase.Retrying? && Lv(node, v.syncs[node].copy.volGroup) !in v.lvs
    ensures Leads(matches, v, now, v', now + 1)
    ensures v' == v.(syncs := v.syncs[node := Sync(Listing, v.syncs[node].copy)])
  {
    v' := DoCreate(v, node, false, Internal);
    LeadsNowhere(matches, v, now);
    LeadsOn(matches, v, now, v, now, Create(node, false, Internal), v');
  }

  lemma ListingCanFail(matches: Matcher, v: Volume, now: nat, node: string) returns (v': Volume)
    requires Unfinished(v) && node in v.syncs && v.syncs[node] == Sync(Listing, v.rec.value)
    ensures Leads(matches, v, now, v', now + 2) && HasFailed(v') && v'.lvs == v.lvs && v'.calls == v.calls
    ensures v'.rec.value.capacity == v.rec.value.capacity && v'.hist == v.hist
  {
    var v1 := DoList(v, node, []);
    v' := DoPublish(v1, node, now + 1);
    LeadsNowhere(matches, v, now);
    LeadsOn(matches, v, now, v, now, List(node, []), v1);
    assert v1.rec == v.rec && v1.syncs[node] == Sync(Failing(Internal), v.rec.value);
    LeadsOn(matches, v, now, v1, now + 1, Publish(node), v');
  }

  /** A Pending record without an LV can fail: no volume group works out. */
  lemma PendingCanFail(matches: Matcher, v: Volume, now: nat) returns (v': Volume, later: nat)
    requires Unfinished(v) && v.lvs == {}
    ensures Leads(matches, v, now, v', later) && HasFailed(v') && v'.lvs == {} && v'.calls == v.calls
    ensures v'.rec.value.capacity == v.rec.value.capacity && v'.hist == v.hist
  {
    var node := v.rec.value.owner;
    var v1, t := DoStart(Crashed(v, node), node), now + 3;
    OwnerStarts(matches, v, now);
    assert v1.rec == v.rec && v1.lvs == {} && v1.calls == v.calls && v1.hist == v.hist;
    if v.rec.value.volGroup != "" {
      var v2 := RetryCanFail(matches, v1, t, node);
      LeadsThrough(matches, v, now, v1, t, v2, t + 1);
      v1, t := v2, t + 1;
    }
    v' := ListingCanFail(matches, v1, t, node);
    later := t + 2;
    LeadsThrough(matches, v, now, v1, t, v', later);
  }

  /** A create call that finds the record failed takes it away. */
  lemma FailedTakes(matches: Matcher, v: Volume, now: nat, req: Request)
    requires Sound(matches, v) && HasFailed(v) && v.calls == map[] && RoundedCapacity(req.size) == v.rec.value.capacity
    ensures var v1, v2 := v.(calls := map[0 := CreateGet(req)]), v.(calls := map[0 := CreateDelete(req, false)]);
            && Takes(Serial, matches, v, Begin(0, CreateGet(req)), now, v1)
            && Takes(Serial, matches, v1, Step(0, ""), now + 1, v2)
  {
    assert v.calls[0 := CreateGet(req)] == map[0 := CreateGet(req)];
    assert map[0 := CreateGet(req)][0 := CreateDelete(req, false)] == map[0 := CreateDelete(req, false)];
  }

  lemma CleanUpTakes(matches: Matcher, v: Volume, now: nat, req: Request) returns (v1: Volume, v2: Volume)
    requires Sound(matches, v) && HasFailed(v) && v.calls == map[0 := CreateDelete(req, false)]
    ensures Takes(Serial, matches, v, Step(0, ""), now, v1) && Takes(Serial, matches, v1, Step(0, ""), now + 1, v2)
    ensures v2.rec.None? && v2.lvs == {} && v2.calls == map[0 := CreateProvision(req)]
  {
    DeletableSuffices(matches, v);
    v1 := DoStep(v, 0, "", now);
    assert v1.calls == map[0 := CreateWaitDestroy(req, false)] && v1.rec.None? && v1.lvs == {};
    v2 := DoStep(v1, 0, "", now + 1);
  }

  /** A failed volume can be rescheduled onto any node. */
  lemma FailedCanMove(matches: Matcher, v: Volume, now: nat, req: Request, node: string, vg: string)
    returns (v': Volume, later: nat)
    requires Sound(matches, v) && HasFailed(v) && v.calls == map[] && RoundedCapacity(req.size) == v.rec.value.capacity
    requires req.vgPattern != "" && vg != "" && matches(req.vgPattern, vg)
    ensures Leads(matches, v, now, v', later) && Lv(node, vg) in v'.lvs
  {
    var v1, v2 := v.(calls := map[0 := CreateGet(req)]), v.(calls := map[0 := CreateDelete(req, false)]);
    FailedTakes(matches, v, now, req);
    LeadsNowhere(matches, v, now);
    LeadsOn(matches, v, now, v, now, Begin(0, CreateGet(req)), v1);
    LeadsOn(matches, v, now, v1, now + 1, Step(0, ""), v2);
    FrameSound(matches, v, v2);
    var v3, v4 := CleanUpTakes(matches, v2, now + 2, req);
    LeadsOn(matches, v, now, v2, now + 2, Step(0, ""), v3);
    LeadsOn(matches, v, now, v3, now + 3, Step(0, ""), v4);
    v', later := ProvisionCanFinish(matches, v4, now + 4, req, node, vg);
    LeadsThrough(matches, v, now, v4, now + 4, v', later);
  }

  /** The size a failed record was asked for last, or first. */
  lemma CapacityWasAsked(v: Volume, now: nat) returns (size: Int64)
    requires Versioned(v, now) && v.rec.Some?
    ensures RoundedCapacity(size) == v.rec.value.capacity
  {
    PeakIsMaximum(v.hist);
    if v.rec.value.capacity == RoundedCapacity(v.hist.created) {
      size := v.hist.created;
    } else {
      size :| size in v.hist.expanded && v.rec.value.capacity == RoundedCapacity(size);
    }
  }

  lemma FreeCanMove(matches: Matcher, v: Volume, now: nat, p: string, node: string, vg: string)
    returns (v': Volume, later: nat)
    requires v.rec.None? && v.lvs == {} && v.calls == map[]
    requires p != "" && vg != "" && matches(p, vg)
    ensures Leads(matches, v, now, v', later) && Lv(node, vg) in v'.lvs
  {
    v', later := VolumeCanBeMade(matches, v, now, Request(MI, p, false, false), node, vg);
  }

  lemma QuietCanMove(matches: Matcher, v: Volume, now: nat, p: string, node: string, vg: string)
    returns (v': Volume, later: nat)
    requires Sound(matches, v) && Versioned(v, now) && v.lvs == {} && v.calls == map[]
    requires p != "" && vg != "" && matches(p, vg)
    ensures Leads(matches, v, now, v', later) && Lv(node, vg) in v'.lvs
  {
    var u, t := v, now;
    LeadsNowhere(matches, v, now);
    if v.rec.Some? && v.rec.value.marked {
      u, t := MarkedCanGo(matches, v, now);
    } else if v.rec.Some? && v.rec.value.state == Pending {
      u, t := PendingCanFail(matches, v, now);
    }
    LeadsKeepsSound(matches, v, now, u, t);
    if u.rec.None? {
      v', later := FreeCanMove(matches, u, t, p, node, vg);
    } else {
      var size := CapacityWasAsked(u, t);
      v', later := FailedCanMove(matches, u, t, Request(size, p, false, false), node, vg);
    }
    LeadsThrough(matches, v, now, u, t, v', later);
  }

  /** A volume without an LV can get one on any node, in any volume group that some pattern accepts. */
  lemma EmptyCanMove(matches: Matcher, v: Volume, now: nat, p: string, node: string, vg: string)
    returns (v': Volume, later: nat)
    requires Sound(matches, v) && Versioned(v, now) && v.lvs == {}
    requires p != "" && vg != "" && matches(p, vg)
    ensures Leads(matches, v, now, v', later) && Lv(node, vg) in v'.lvs
  {
    var u := v.(calls := map[]);
    var t := CallsCanEnd(matches, v, now);
    LeadsKeepsSound(matches, v, now, u, t);
    v', later := QuietCanMove(matches, u, t, p, node, vg);
    LeadsThrough(matches, v, now, u, t, v', later);
  }
}
