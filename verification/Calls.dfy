/**
 What the replies of controller calls mean when calls about one volume do not overlap (P4).
 */
module Calls {
  import opened Capacity
  import opened Records
  import opened Protocol
  import opened Versions
  import opened Safety
  import opened Theorems

  /** What a call may rely on between two of its accesses to the store. */
  predicate CallSound(v: Volume, call: Call) {
    match call
    case CreatePoll(req, _) =>
      v.rec.Some? && !v.rec.value.marked && v.rec.value.capacity == RoundedCapacity(req.size)
    case CreateDelete(_, _) => v.rec.Some? && !v.rec.value.marked && v.rec.value.state == Failed
    case CreateWaitDestroy(_, _) => v.rec.None?
    case CreateProvision(_) => v.rec.None?
    case DeleteDelete => v.rec.Some? && !v.rec.value.marked
    case _ => true
  }

  predicate CallsSound(v: Volume) {
    forall id | id in v.calls ::
      && CallSound(v, v.calls[id])
      && (!v.calls[id].IsExpand() ==> forall other | other in v.calls :: other == id)
  }

  /** What an agent's step leaves of a record. */
  predicate AgentKeeps(v: Volume, v': Volume) {
    && v'.calls == v.calls
    && (v.rec.Some? && !v.rec.value.marked ==> v'.rec.Some?)
    && (v'.rec.Some? ==>
          && v.rec.Some?
          && v'.rec.value.capacity == v.rec.value.capacity && v'.rec.value.marked == v.rec.value.marked
          && (v.rec.value.state == Failed ==> v'.rec.value.state == Failed))
  }

  predicate IsCallAction(a: Action) {
    a.Begin? || a.Validate? || a.Step? || a.Cancel?
  }

  lemma AgentWriteKeeps(matches: Matcher, v: Volume, a: Action, now: nat)
    requires Sound(matches, v) && Versioned(v, now) && Enabled(matches, v, a)
    requires a.Finalize? || a.Assign? || a.Publish?
    ensures AgentKeeps(v, Apply(matches, v, a, now))
  {
    assert SyncSound(matches, v, a.node, v.syncs[a.node]) && Fresh(v, v.syncs[a.node].copy, now);
  }

  lemma AgentStepKeeps(matches: Matcher, v: Volume, a: Action, now: nat)
    requires Sound(matches, v) && Versioned(v, now) && Enabled(matches, v, a) && !IsCallAction(a)
    ensures AgentKeeps(v, Apply(matches, v, a, now))
  {
    if a.Finalize? || a.Assign? || a.Publish? {
      AgentWriteKeeps(matches, v, a, now);
    }
  }

  lemma AgentStepCallsSound(v: Volume, v': Volume)
    requires CallsSound(v) && AgentKeeps(v, v')
    ensures CallsSound(v')
  {
    forall id | id in v'.calls
      ensures CallSound(v', v'.calls[id])
    {
      assert CallSound(v, v.calls[id]);
    }
  }

  /** The call that moves is alone, unless only expand calls are in flight. */
  lemma CallStepCallsSound(matches: Matcher, v: Volume, id: nat, owner: string, now: nat)
    requires Sound(matches, v) && CallsSound(v) && id in v.calls
    ensures CallsSound(DoStep(v, id, owner, now))
  {
    assert CallSound(v, v.calls[id]);
  }

  /** A call that begins, is validated or is given up leaves the record alone. */
  lemma CallTurnCallsSound(matches: Matcher, v: Volume, a: Action, now: nat)
    requires CallsSound(v) && Enabled(matches, v, a) && NoOverlap(v, a) && (a.Begin? || a.Validate? || a.Cancel?)
    ensures CallsSound(Apply(matches, v, a, now))
  {
  }

  lemma StepCallsSound(matches: Matcher, v: Volume, a: Action, now: nat)
    requires Sound(matches, v) && Versioned(v, now) && CallsSound(v) && Enabled(matches, v, a) && NoOverlap(v, a)
    ensures CallsSound(Apply(matches, v, a, now))
  {
    if a.Step? {
      CallStepCallsSound(matches, v, a.id, a.owner, now);
    } else if !IsCallAction(a) {
      AgentStepKeeps(matches, v, a, now);
      AgentStepCallsSound(v, Apply(matches, v, a, now));
    } else {
      CallTurnCallsSound(matches, v, a, now);
    }
  }

  predicate SerialInv(matches: Matcher, c: Cluster) {
    Inv(matches, c) && forall n | n in c.vols :: CallsSound(c.vols[n])
  }

  lemma {:induction false} RunKeepsSerialInv(matches: Matcher, c: Cluster, es: seq<Event>)
    requires SerialInv(matches, c) && Run(Serial, matches, c, es)
    ensures SerialInv(matches, Exec(Serial, matches, c, es))
    decreases |es|
  {
    if es != [] {
      NextKeepsInv(Serial, matches, c, es[0]);
      StepCallsSound(matches, At(c, es[0].name), es[0].action, c.clock);
      RunKeepsSerialInv(matches, Next(matches, c, es[0]), es[1..]);
    }
  }

  /** A create call deletes only a Failed record, so P3 asks something of delete calls only. */
  lemma RescheduleMeetsP3(matches: Matcher, v: Volume, id: nat)
    requires Sound(matches, v) && CallsSound(v) && id in v.calls && v.calls[id].CreateDelete?
    ensures CanDelete(v)
  {
    assert CallSound(v, v.calls[id]);
    DeletableSuffices(matches, v);
  }

  /** What each reply says about the cluster at the moment it is given. */
  predicate ReplyIsTrue(v: Volume, w: Volume, call: Call, reply: Reply) {
    match reply
    case Provisioned(r) =>
      && v.rec == Some(r) && r.state == Ready && !r.marked
      && v.lvs == {Lv(r.owner, r.volGroup)}
      && (call.CreateGet? || call.CreatePoll?) && r.capacity == RoundedCapacity(call.req.size)
      && (call.req.size <= r.capacity <==> call.req.size <= MAX_REQUEST)
    case ResourceExhausted => v.rec.None? && v.lvs == {}
    case Deleted => v.rec.None? && v.lvs == {}
    case AlreadyExists =>
      && v.rec.Some? && !v.rec.value.marked
      && call.CreateGet? && v.rec.value.capacity != RoundedCapacity(call.req.size)
    case FailedWithoutError => false
    case Expanded(size) =>
      && call.IsExpand() && w.rec.Some? && w.rec.value.capacity == size >= RoundedCapacity(call.size)
      && (call.size <= MAX_REQUEST ==> call.size <= size)
      && v.rec.Some? && (v.rec.value.capacity >= RoundedCapacity(call.size) ==> w.rec == v.rec)
      && w.hist == v.hist.(expanded := v.hist.expanded + [call.size])
    case Error =>
      || (call.CreateProvision? && call.req.vgPattern == "")
      || (call.ExpandRead? && v.rec.None?)
      || (call.ExpandWrite? && (v.rec.None? || v.rec.value.rv != call.copy.rv))
  }

  /** The record is one a create call for this request reports: Ready, unmarked and of the size asked for. */
  predicate IsProvided(rec: Option<Record>, req: Request) {
    rec.Some? && rec.value.state == Ready && !rec.value.marked && rec.value.capacity == RoundedCapacity(req.size)
  }

  /** The reply a call gets at its next access to the store, if it gets one there. */
  function ReplyDue(v: Volume, call: Call): Option<Reply> {
    match call
    case CreateGet(req) =>
      if IsProvided(v.rec, req) then Some(Provisioned(v.rec.value))
      else if v.rec.Some? && !v.rec.value.marked && v.rec.value.capacity != RoundedCapacity(req.size) then
        Some(AlreadyExists)
      else None
    case CreatePoll(req, _) => if IsProvided(v.rec, req) then Some(Provisioned(v.rec.value)) else None
    case CreateWaitDestroy(_, last) => if last then Some(ResourceExhausted) else None
    case CreateProvision(req) => if req.vgPattern == "" then Some(Error) else None
    case DeleteGet => if v.rec.None? then Some(Deleted) else None
    case DeleteWait => if v.rec.None? then Some(Deleted) else None
    case ExpandRead(size) =>
      if v.rec.None? then Some(Error)
      else if RoundedCapacity(size) <= v.rec.value.capacity then Some(Expanded(v.rec.value.capacity))
      else None
    case ExpandWrite(size, copy) =>
      Some(if v.rec.Some? && v.rec.value.rv == copy.rv then Expanded(RoundedCapacity(size)) else Error)
    case _ => None
  }

  lemma ReplyFollows(matches: Matcher, v: Volume, id: nat, owner: string, now: nat)
    requires Sound(matches, v) && Versioned(v, now) && id in v.calls && CallSound(v, v.calls[id])
    ensures var (w, p) := CallStep(v, v.calls[id], owner, now);
            && (p.Returned? ==> ReplyIsTrue(v, w, v.calls[id], p.reply))
            && ReplyDue(v, v.calls[id]) == if p.Returned? then Some(p.reply) else None
  {
    assert FreshCall(v, v.calls[id], now);
    if v.calls[id].IsExpand() {
      RoundedCoversRequestIff(v.calls[id].size);
    } else if v.calls[id].CreateGet? || v.calls[id].CreatePoll? {
      RoundedCoversRequestIff(v.calls[id].req.size);
    }
    if v.rec.Some? && v.rec.value.state == Ready && !v.rec.value.marked {
      assert v.lvs == {Lv(v.rec.value.owner, v.rec.value.volGroup)};
    }
  }

  /**
   The replies of create, delete and expand calls, in every reachable state. A volume is
   reported provisioned only when its LV is on the owner and its capacity is the rounded
   request; resources are reported exhausted only when neither record nor LV remains; an error
   has one of three causes. Which reply is given, and whether one is, follows from the record
   and the call.
   */
  lemma RepliesAreTrue(matches: Matcher, es: seq<Event>, n: string, id: nat, owner: string)
    requires Run(Serial, matches, INIT, es)
    requires id in At(Exec(Serial, matches, INIT, es), n).calls
    ensures var c := Exec(Serial, matches, INIT, es);
            var (w, p) := CallStep(At(c, n), At(c, n).calls[id], owner, c.clock);
            && (p.Returned? ==> ReplyIsTrue(At(c, n), w, At(c, n).calls[id], p.reply))
            && ReplyDue(At(c, n), At(c, n).calls[id]) == if p.Returned? then Some(p.reply) else None
  {
    RunKeepsSerialInv(matches, INIT, es);
    var c := Exec(Serial, matches, INIT, es);
    ReplyFollows(matches, At(c, n), id, owner, c.clock);
  }

  /** A call that fails its validation is over, with nothing done; one that passes goes on to read the record. */
  lemma ValidationDecides(matches: Matcher, v: Volume, id: nat, ok: bool, now: nat)
    requires Enabled(matches, v, Validate(id, ok))
    ensures var v' := Apply(matches, v, Validate(id, ok), now);
            && v' == v.(calls := v'.calls) && v'.calls - {id} == v.calls - {id}
            && (id in v'.calls <==> ok)
            && (ok && v.calls[id].DeleteValidate? ==> v'.calls[id] == DeleteGet)
            && (ok && v.calls[id].ExpandValidate? ==> v'.calls[id] == ExpandRead(v.calls[id].size))
  {
  }

  // ----- A create call provisions at most one record -----

  /** How many records the call may still provision. */
  function Budget(call: Call): nat {
    match call
    case CreatePoll(_, last) => if last then 0 else 1
    case CreateDelete(_, last) => if last then 0 else 1
    case CreateWaitDestroy(_, last) => if last then 0 else 1
    case CreateGet(_) => 1
    case CreateWaitGone(_) => 1
    case CreateProvision(_) => 1
    case _ => 0
  }

  function BudgetAt(c: Cluster, n: string, id: nat): nat {
    if id in At(c, n).calls then Budget(At(c, n).calls[id]) else 0
  }

  /** 1 when the event is a step of this call that puts a record into the store. */
  function Provisions(matches: Matcher, c: Cluster, e: Event, n: string, id: nat): nat
    requires Enabled(matches, At(c, e.name), e.action)
  {
    if e.name == n && e.action.Step? && e.action.id == id
       && At(c, n).rec.None? && At(Next(matches, c, e), n).rec.Some? then 1 else 0
  }

  function TotalProvisions(rules: Rules, matches: Matcher, c: Cluster, es: seq<Event>, n: string, id: nat): nat
    requires Run(rules, matches, c, es)
    decreases |es|
  {
    if es == [] then 0
    else Provisions(matches, c, es[0], n, id) + TotalProvisions(rules, matches, Next(matches, c, es[0]), es[1..], n, id)
  }

  /** A step of the call itself. */
  lemma OwnStepSpendsBudget(v: Volume, id: nat, owner: string, now: nat)
    requires id in v.calls
    ensures var v' := DoStep(v, id, owner, now);
            var spent, left := if v.rec.None? && v'.rec.Some? then 1 else 0,
                               if id in v'.calls then Budget(v'.calls[id]) else 0;
            && spent + left <= Budget(v.calls[id])
            && (id in v'.calls ==> spent + left == Budget(v.calls[id]))
  {
  }

  /** No other step moves the call, unless it ends or passes its validation. */
  lemma OthersSpareBudget(matches: Matcher, v: Volume, a: Action, now: nat, id: nat)
    requires Enabled(matches, v, a) && !(a.Begin? && a.id == id) && !(a.Step? && a.id == id)
    ensures var v' := Apply(matches, v, a, now);
            id in v'.calls ==> id in v.calls && Budget(v'.calls[id]) == Budget(v.calls[id])
  {
    if a.Step? {
      assert id in DoStep(v, a.id, a.owner, now).calls <==> id in v.calls;
    } else if !IsCallAction(a) {
      assert Apply(matches, v, a, now).calls == v.calls;
    }
  }

  lemma StepSpendsBudget(rules: Rules, matches: Matcher, c: Cluster, e: Event, n: string, id: nat)
    requires Legal(rules, matches, c, e)
    requires !(e.name == n && e.action.Begin? && e.action.id == id)
    ensures var spent, c' := Provisions(matches, c, e, n, id), Next(matches, c, e);
            && spent + BudgetAt(c', n, id) <= BudgetAt(c, n, id)
            && (id in At(c', n).calls ==>
                  id in At(c, n).calls && spent + BudgetAt(c', n, id) == BudgetAt(c, n, id))
  {
    if e.name == n {
      if e.action.Step? && e.action.id == id {
        OwnStepSpendsBudget(At(c, n), id, e.action.owner, c.clock);
      } else {
        OthersSpareBudget(matches, At(c, n), e.action, c.clock, id);
      }
    }
  }

  /**
   Over any run, a call provisions what its phase allows: one record for a whole create call. What
   it has provisioned and what it may still provision add up, as long as it runs.
   */
  lemma {:induction false} CreateProvisionsOnce(rules: Rules, matches: Matcher, c: Cluster, es: seq<Event>, n: string,
                                                id: nat)
    requires Run(rules, matches, c, es)
    requires forall e | e in es :: !(e.name == n && e.action.Begin? && e.action.id == id)
    ensures TotalProvisions(rules, matches, c, es, n, id) <= BudgetAt(c, n, id) <= 1
    ensures var c' := Exec(rules, matches, c, es);
            id in At(c', n).calls ==>
              && id in At(c, n).calls
              && TotalProvisions(rules, matches, c, es, n, id) + BudgetAt(c', n, id) == BudgetAt(c, n, id)
    decreases |es|
  {
    if es != [] {
      StepSpendsBudget(rules, matches, c, es[0], n, id);
      CreateProvisionsOnce(rules, matches, Next(matches, c, es[0]), es[1..], n, id);
    }
  }

  /** A create call reports resources exhausted only after it has provisioned a record itself. */
  lemma ExhaustedAfterProvisioning(rules: Rules, matches: Matcher, c: Cluster, es: seq<Event>, n: string, id: nat,
                                   owner: string)
    requires Run(rules, matches, c, es) && id in At(c, n).calls && At(c, n).calls[id].CreateGet?
    requires forall e | e in es :: !(e.name == n && e.action.Begin? && e.action.id == id)
    ensures var c' := Exec(rules, matches, c, es);
            id in At(c', n).calls
            && CallStep(At(c', n), At(c', n).calls[id], owner, c'.clock).1 == Returned(ResourceExhausted) ==>
              TotalProvisions(rules, matches, c, es, n, id) == 1
  {
    CreateProvisionsOnce(rules, matches, c, es, n, id);
  }
}
