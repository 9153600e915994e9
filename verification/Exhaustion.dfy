/**
 When no volume group works out: a create call that finds no LV of the volume can still end, and
 then it reports that resources are exhausted.
 */
module Exhaustion {
  import opened Capacity
  import opened Records
  import opened Protocol
  import opened Versions
  import opened Safety
  import opened Theorems
  import opened Progress
  import opened Moving

  /** The create call 0 is the only call, nothing is left of the volume, and the next step reports so. */
  predicate ReportsExhausted(v: Volume, now: nat) {
    && v.rec.None? && v.lvs == {} && v.calls.Keys == {0}
    && CallStep(v, v.calls[0], "", now) == (v, Returned(ResourceExhausted))
  }

  ghost predicate CanExhaust(matches: Matcher, v: Volume, now: nat) {
    exists v', later :: Leads(matches, v, now, v', later) && ReportsExhausted(v', later)
  }

  lemma ExhaustsAfter(matches: Matcher, v: Volume, now: nat, v1: Volume, t1: nat)
    requires Leads(matches, v, now, v1, t1) && CanExhaust(matches, v1, t1)
    ensures CanExhaust(matches, v, now)
  {
    var v', later :| Leads(matches, v1, t1, v', later) && ReportsExhausted(v', later);
    LeadsThrough(matches, v, now, v1, t1, v', later);
  }

  lemma StepThenExhausts(matches: Matcher, v: Volume, now: nat, a: Action, v1: Volume)
    requires Takes(Serial, matches, v, a, now, v1) && !a.Validate? && CanExhaust(matches, v1, now + 1)
    ensures CanExhaust(matches, v, now)
  {
    LeadsNowhere(matches, v, now);
    LeadsOn(matches, v, now, v, now, a, v1);
    ExhaustsAfter(matches, v, now, v1, now + 1);
  }

  /** A call that has provisioned and finds its record failed takes it away and gives up. */
  lemma LastDeleteCanExhaust(matches: Matcher, v: Volume, now: nat, req: Request)
    requires Sound(matches, v) && HasFailed(v) && v.lvs == {} && v.calls == map[0 := CreateDelete(req, true)]
    ensures CanExhaust(matches, v, now)
  {
    DeletableSuffices(matches, v);
    var v1 := DoStep(v, 0, "", now);
    assert v1.calls == map[0 := CreateWaitDestroy(req, true)] && v1.rec.None? && v1.lvs == {};
    LeadsNowhere(matches, v1, now + 1);
    assert ReportsExhausted(v1, now + 1);
    StepThenExhausts(matches, v, now, Step(0, ""), v1);
  }

  /** A wait for a Pending record can end with the record failed. */
  lemma PollLeads(matches: Matcher, v: Volume, now: nat, req: Request, last: bool) returns (v': Volume, later: nat)
    requires Sound(matches, v) && Versioned(v, now) && Unfinished(v) && v.lvs == {}
    requires v.calls == map[0 := CreatePoll(req, last)]
    ensures Leads(matches, v, now, v', later) && Sound(matches, v') && Versioned(v', later)
    ensures HasFailed(v') && v'.lvs == {} && v'.calls == map[0 := CreateDelete(req, last)]
  {
    var v1, t1 := PendingCanFail(matches, v, now);
    v', later := WithCall(v1, CreateDelete(req, last)), t1 + 1;
    assert v1.calls[0 := v'.calls[0]] == v'.calls;
    LeadsOn(matches, v, now, v1, t1, Step(0, ""), v');
    LeadsKeepsSound(matches, v, now, v', later);
  }

  lemma ProvisionTakes(matches: Matcher, v: Volume, now: nat, req: Request, node: string) returns (v': Volume)
    requires Sound(matches, v) && Versioned(v, now) && v.rec.None? && v.lvs == {} && req.vgPattern != ""
    requires v.calls == map[0 := CreateProvision(req)]
    ensures Takes(Serial, matches, v, Step(0, node), now, v') && Sound(matches, v') && Versioned(v', now + 1)
    ensures v'.calls == map[0 := CreatePoll(req, true)] && v'.lvs == {} && Unfinished(v')
  {
    v' := DoStep(v, 0, node, now);
    LeadsNowhere(matches, v, now);
    LeadsOn(matches, v, now, v, now, Step(0, node), v');
    LeadsKeepsSound(matches, v, now, v', now + 1);
  }

  lemma ProvisionCanExhaust(matches: Matcher, v: Volume, now: nat, req: Request, node: string)
    requires Sound(matches, v) && Versioned(v, now) && v.rec.None? && v.lvs == {} && req.vgPattern != ""
    requires v.calls == map[0 := CreateProvision(req)]
    ensures CanExhaust(matches, v, now)
  {
    var v1 := ProvisionTakes(matches, v, now, req, node);
    var v2, t2 := PollLeads(matches, v1, now + 1, req, true);
    LastDeleteCanExhaust(matches, v2, t2, req);
    ExhaustsAfter(matches, v1, now + 1, v2, t2);
    StepThenExhausts(matches, v, now, Step(0, node), v1);
  }

  /** The call provisions anew, once the record it found failed is gone. */
  lemma RescheduleCanExhaust(matches: Matcher, v: Volume, now: nat, req: Request, node: string)
    requires Sound(matches, v) && Versioned(v, now) && HasFailed(v) && req.vgPattern != ""
    requires v.calls == map[0 := CreateDelete(req, false)]
    ensures CanExhaust(matches, v, now)
  {
    var v1, v2 := CleanUpTakes(matches, v, now, req);
    LeadsNowhere(matches, v, now);
    LeadsOn(matches, v, now, v, now, Step(0, ""), v1);
    LeadsOn(matches, v, now, v1, now + 1, Step(0, ""), v2);
    LeadsKeepsSound(matches, v, now, v2, now + 2);
    ProvisionCanExhaust(matches, v2, now + 2, req, node);
    ExhaustsAfter(matches, v, now, v2, now + 2);
  }

  lemma PollCanExhaust(matches: Matcher, v: Volume, now: nat, req: Request, node: string)
    requires Sound(matches, v) && Versioned(v, now) && Unfinished(v) && v.lvs == {} && req.vgPattern != ""
    requires v.calls == map[0 := CreatePoll(req, false)]
    ensures CanExhaust(matches, v, now)
  {
    var v1, t1 := PollLeads(matches, v, now, req, false);
    RescheduleCanExhaust(matches, v1, t1, req, node);
    ExhaustsAfter(matches, v, now, v1, t1);
  }

  lemma WaitCanExhaust(matches: Matcher, v: Volume, now: nat, req: Request, node: string)
    requires Sound(matches, v) && Versioned(v, now) && v.rec.Some? && v.rec.value.marked && req.vgPattern != ""
    requires v.calls == map[0 := CreateWaitGone(req)]
    ensures CanExhaust(matches, v, now)
  {
    var v1, t1 := MarkedCanGo(matches, v, now);
    var v2 := WithCall(v1, CreateProvision(req));
    assert v1.calls[0 := v2.calls[0]] == v2.calls;
    LeadsOn(matches, v, now, v1, t1, Step(0, node), v2);
    LeadsKeepsSound(matches, v, now, v2, t1 + 1);
    ProvisionCanExhaust(matches, v2, t1 + 1, req, node);
    ExhaustsAfter(matches, v, now, v2, t1 + 1);
  }

  /** No volume group need host the LV of this volume, and a create call for the request is not turned away. */
  predicate MayBeExhausted(v: Volume, req: Request) {
    v.rec.Some? && !v.rec.value.marked ==> v.lvs == {} && v.rec.value.capacity == RoundedCapacity(req.size)
  }

  /** Where the call goes from there. */
  function AfterGet(rec: Option<Record>, req: Request): Call {
    if rec.None? then CreateProvision(req)
    else if rec.value.marked then CreateWaitGone(req)
    else if rec.value.state == Failed then CreateDelete(req, false)
    else CreatePoll(req, false)
  }

  lemma GetTakesOn(matches: Matcher, v: Volume, now: nat, req: Request, node: string)
    requires Sound(matches, v) && Versioned(v, now) && MayBeExhausted(v, req) && v.calls == map[0 := CreateGet(req)]
    ensures var v' := WithCall(v, AfterGet(v.rec, req));
            Takes(Serial, matches, v, Step(0, node), now, v') && Sound(matches, v') && Versioned(v', now + 1)
  {
    var v' := WithCall(v, AfterGet(v.rec, req));
    assert v.calls[0 := v'.calls[0]] == v'.calls;
    LeadsNowhere(matches, v, now);
    LeadsOn(matches, v, now, v, now, Step(0, node), v');
    LeadsKeepsSound(matches, v, now, v', now + 1);
  }

  lemma GetCanExhaust(matches: Matcher, v: Volume, now: nat, req: Request, node: string)
    requires Sound(matches, v) && Versioned(v, now) && MayBeExhausted(v, req) && req.vgPattern != ""
    requires v.calls == map[0 := CreateGet(req)]
    ensures CanExhaust(matches, v, now)
  {
    var v1 := WithCall(v, AfterGet(v.rec, req));
    GetTakesOn(matches, v, now, req, node);
    if v.rec.None? {
      ProvisionCanExhaust(matches, v1, now + 1, req, node);
    } else if v.rec.value.marked {
      WaitCanExhaust(matches, v1, now + 1, req, node);
    } else if v.rec.value.state == Failed {
      RescheduleCanExhaust(matches, v1, now + 1, req, node);
    } else {
      PollCanExhaust(matches, v1, now + 1, req, node);
    }
    StepThenExhausts(matches, v, now, Step(0, node), v1);
  }

  /**
   From every state the cluster can get into, with whatever syncs are half finished and calls given
   up, a create call can report resources exhausted, with neither record nor LV left, unless the
   volume has an LV that is to stay or an unmarked record of another capacity.
   */
  lemma CreateCanExhaust(matches: Matcher, c: Cluster, n: string, req: Request, node: string)
    requires Inv(matches, c) && MayBeExhausted(At(c, n), req) && req.vgPattern != ""
    ensures exists v, later :: Reachable(matches, c, n, v, later) && ReportsExhausted(v, later)
  {
    var v, u := At(c, n), At(c, n).(calls := map[]);
    var t := CallsCanEnd(matches, v, c.clock);
    var v1 := WithCall(u, CreateGet(req));
    assert u.calls[0 := CreateGet(req)] == v1.calls;
    LeadsOn(matches, v, c.clock, u, t, Begin(0, CreateGet(req)), v1);
    LeadsKeepsSound(matches, v, c.clock, v1, t + 1);
    GetCanExhaust(matches, v1, t + 1, req, node);
    ExhaustsAfter(matches, v, c.clock, v1, t + 1);
    var v', later :| Leads(matches, v, c.clock, v', later) && ReportsExhausted(v', later);
    LeadsIsRun(matches, c, n, v', later);
  }
}
