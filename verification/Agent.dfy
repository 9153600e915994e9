/**
 The node agent's sync of one volume as the code runs it, step by step on the store and on
 LVM, and what an uninterrupted sync achieves.
 */
module Agent {
  import opened Records
  import opened Protocol
  import opened Theorems

  /** lvcreate in the volume group works, or the LV is there already. */
  predicate Hosts(node: string, lvs: set<Lv>, accepts: string -> bool, vg: string) {
    Lv(node, vg) in lvs || accepts(vg)
  }

  /** The record a sync has to provision. */
  predicate ToProvision(rec: Option<Record>) {
    rec.Some? && !rec.value.marked && rec.value.state == Pending && !rec.value.finalizer
  }

  /** The volume groups a sync tries, in order: the recorded one, then the listed ones. */
  function Tried(r: Record, vgs: seq<string>): seq<string> {
    (if r.volGroup != "" then [r.volGroup] else []) + vgs
  }

  /** `vgs[i]` is the first volume group that can host the LV. */
  predicate IsFirstHost(node: string, lvs: set<Lv>, accepts: string -> bool, vgs: seq<string>, i: nat) {
    && i < |vgs| && Hosts(node, lvs, accepts, vgs[i])
    && forall j | 0 <= j < i :: !Hosts(node, lvs, accepts, vgs[j])
  }

  predicate NoHost(node: string, lvs: set<Lv>, accepts: string -> bool, vgs: seq<string>) {
    forall j | 0 <= j < |vgs| :: !Hosts(node, lvs, accepts, vgs[j])
  }

  /** A volume group in front that does not host the LV changes nothing but the position. */
  lemma SkipFront(node: string, lvs: set<Lv>, accepts: string -> bool, g: string, vgs: seq<string>)
    requires !Hosts(node, lvs, accepts, g)
    ensures NoHost(node, lvs, accepts, [g] + vgs) <==> NoHost(node, lvs, accepts, vgs)
    ensures forall i: nat | IsFirstHost(node, lvs, accepts, vgs, i) :: IsFirstHost(node, lvs, accepts, [g] + vgs, i + 1)
  {
    assert forall j | 0 <= j < |vgs| :: ([g] + vgs)[j + 1] == vgs[j];
  }

  /** The volume groups before the first without a name: recording that one is an error. */
  function Named(vgs: seq<string>): seq<string> {
    if vgs == [] || vgs[0] == "" then [] else [vgs[0]] + Named(vgs[1..])
  }

  lemma {:induction false} NamedIsPrefix(vgs: seq<string>)
    ensures |Named(vgs)| <= |vgs| && Named(vgs) == vgs[..|Named(vgs)|]
    ensures "" !in Named(vgs)
    ensures "" in vgs <==> |Named(vgs)| < |vgs|
    ensures "" in vgs ==> vgs[|Named(vgs)|] == ""
  {
    if vgs != [] && vgs[0] != "" {
      NamedIsPrefix(vgs[1..]);
      assert vgs == [vgs[0]] + vgs[1..];
    }
  }

  /** The recorded volume group can host the LV. */
  predicate RecordedWorks(r: Record, node: string, lvs: set<Lv>, accepts: string -> bool) {
    r.volGroup != "" && Hosts(node, lvs, accepts, r.volGroup)
  }

  /** The volume group a record names after `attempts` of `vgs` were tried. */
  function GroupAfter(before: string, vgs: seq<string>, attempts: nat): string
    requires attempts <= |vgs|
  {
    if attempts == 0 then before else vgs[attempts - 1]
  }

  /** The error of a sync that found no host: that of the last attempt, or that nothing was listed. */
  function FailureCode(vgs: seq<string>, why: string -> ErrorCode): ErrorCode {
    if vgs == [] then Internal else why(vgs[|vgs| - 1])
  }

  /**
   A sync that tries `vgs` in turn ends Ready in the first that hosts the LV. Without one it ends
   Failed with the error `code`, unless it was cut short by a volume group without a name: then it
   leaves the record Pending and returns an error. Nothing else of the record changes.
   */
  predicate ConcludedWith(err: bool, rec: Option<Record>, lvs: set<Lv>, node: string, vol: Record, vgs: seq<string>,
                          cut: bool, code: ErrorCode, accepts: string -> bool, before: set<Lv>, attempts: nat)
  {
    && rec.Some? && attempts <= |vgs|
    && err == (cut && NoHost(node, before, accepts, vgs))
    && var r := vol.(rv := rec.value.rv, volGroup := GroupAfter(vol.volGroup, vgs, attempts));
       if NoHost(node, before, accepts, vgs) then
         && attempts == |vgs| && lvs == before
         && rec.value == if cut then r else r.(state := Failed, error := Some(code))
       else
         && rec.value == r.(state := Ready, finalizer := true)
         && 0 < attempts && IsFirstHost(node, before, accepts, vgs, attempts - 1)
         && lvs == before + {Lv(node, vgs[attempts - 1])}
  }

  /** How the loop over the volume groups leaves the search and the LVs. */
  predicate SearchedWith(err: bool, lvs: set<Lv>, node: string, before: set<Lv>, accepts: string -> bool,
                         vgs: seq<string>, phase: Phase, attempts: nat)
  {
    && attempts <= |vgs| && (forall j | 0 <= j < attempts :: vgs[j] != "")
    && if phase == Publishing then
         && !err && 0 < attempts && IsFirstHost(node, before, accepts, vgs, attempts - 1)
         && lvs == before + {Lv(node, vgs[attempts - 1])}
       else
         && phase.Failing? && lvs == before
         && (forall j | 0 <= j < attempts :: !Hosts(node, before, accepts, vgs[j]))
         && if err then attempts < |vgs| && vgs[attempts] == "" else attempts == |vgs|
  }

  /** The loop searches exactly the volume groups before the first without a name. */
  lemma SearchedNamed(err: bool, lvs: set<Lv>, node: string, before: set<Lv>, accepts: string -> bool, vgs: seq<string>,
                      phase: Phase, start: string, attempts: nat)
    requires SearchedWith(err, lvs, node, before, accepts, vgs, phase, attempts)
    ensures attempts <= |Named(vgs)| && GroupAfter(start, vgs, attempts) == GroupAfter(start, Named(vgs), attempts)
    ensures phase == Publishing ==> IsFirstHost(node, before, accepts, Named(vgs), attempts - 1)
    ensures phase != Publishing ==>
              && attempts == |Named(vgs)| && NoHost(node, before, accepts, Named(vgs)) && (err <==> "" in vgs)
  {
    NamedIsPrefix(vgs);
  }

  /** The recorded volume group comes before the listed ones, when there is one and it does not host the LV. */
  lemma TriedConcluded(err: bool, rec: Option<Record>, lvs: set<Lv>, node: string, vol: Record, vgs: seq<string>,
                       cut: bool, code: ErrorCode, accepts: string -> bool, before: set<Lv>, more: nat)
    requires !RecordedWorks(vol, node, before, accepts)
    requires ConcludedWith(err, rec, lvs, node, vol, vgs, cut, code, accepts, before, more)
    ensures ConcludedWith(err, rec, lvs, node, vol, Tried(vol, vgs), cut, code, accepts, before,
                          if vol.volGroup == "" then more else more + 1)
  {
    if vol.volGroup == "" {
      assert Tried(vol, vgs) == vgs;
    } else {
      SkipFront(node, before, accepts, vol.volGroup, vgs);
      assert Tried(vol, vgs)[more] == GroupAfter(vol.volGroup, vgs, more);
    }
  }

  /** A recorded volume group that hosts the LV is the first that does. */
  lemma RecordedHosts(vol: Record, vgs: seq<string>, node: string, before: set<Lv>, accepts: string -> bool)
    requires RecordedWorks(vol, node, before, accepts)
    ensures IsFirstHost(node, before, accepts, Tried(vol, vgs), 0) && Tried(vol, vgs)[0] == vol.volGroup
    ensures !NoHost(node, before, accepts, Tried(vol, vgs))
  {
  }

  /** Where a sync goes after lvcreate. */
  function AfterCreate(phase: Phase, ok: bool, code: ErrorCode): Phase {
    if ok then Publishing
    else
      match phase
      case Creating(rest) => if rest == [] then Failing(code) else Assigning(rest)
      case _ => Listing
  }

  /** Where a trace starts and the rules it follows. */
  datatype Context = Context(rules: Rules, matches: Matcher, v: Volume, now: nat)

  /** The protocol's steps so far, and the state after each. */
  datatype Trace = Trace(vs: seq<Volume>, acts: seq<Action>)

  ghost predicate Traces(x: Context, t: Trace) {
    Path(x.rules, x.matches, t.vs, t.acts, x.now) && t.vs[0] == x.v
  }

  function Last(t: Trace): Volume
    requires |t.vs| > 0
  {
    t.vs[|t.vs| - 1]
  }

  function Grow(t: Trace, a: Action, v: Volume): Trace {
    Trace(t.vs + [v], t.acts + [a])
  }

  lemma TraceGrows(x: Context, t: Trace, a: Action, v: Volume)
    requires Traces(x, t) && Takes(x.rules, x.matches, Last(t), a, x.now + |t.acts|, v)
    ensures Traces(x, Grow(t, a, v)) && Last(Grow(t, a, v)) == v
  {
    PathGrows(x.rules, x.matches, t.vs, t.acts, x.now, a, v);
  }

  /** The store and the LVs of one volume name, as a node's agent sees them. */
  class Site {
    var rec: Option<Record>
    var lvs: set<Lv>
    var clock: nat

    constructor (rec: Option<Record>, lvs: set<Lv>, clock: nat)
      ensures this.rec == rec && this.lvs == lvs && this.clock == clock
    {
      this.rec, this.lvs, this.clock := rec, lvs, clock;
    }

    /** The trace reaches this store and these LVs, with the node's sync at `y`. */
    ghost predicate Follows(x: Context, t: Trace, node: string, y: Sync)
      reads this
    {
      && Traces(x, t) && clock == x.now + |t.acts|
      && Last(t).rec == rec && Last(t).lvs == lvs
      && node in Last(t).syncs && Last(t).syncs[node] == y && node !in Last(t).queue
    }

    /**
     The trace reaches this store and these LVs, with the node's sync over. A key whose sync
     returned an error is back on the queue; otherwise it is not, unless the record is marked or went.
     */
    ghost predicate Ends(x: Context, t: Trace, node: string, err: bool)
      reads this
    {
      && Traces(x, t) && clock == x.now + |t.acts|
      && Last(t).rec == rec && Last(t).lvs == lvs && node !in Last(t).syncs
      && (err ==> node in Last(t).queue)
      && (!err && rec.Some? && !rec.value.marked ==> node !in Last(t).queue)
    }

    /** Kubernetes accepts an update only against the current resource version. */
    method Update(r: Record) returns (ok: bool, stored: Record)
      modifies this`rec, this`clock
      ensures clock == old(clock) + 1
      ensures ok <==> old(rec).Some? && old(rec).value.rv == r.rv
      ensures rec == if ok then Stored(old(rec).value, r, old(clock)) else old(rec)
      ensures rec.Some? && ok ==> stored == rec.value
    {
      ok, stored := rec.Some? && rec.value.rv == r.rv, r;
      if ok {
        rec := Stored(rec.value, r, clock);
        if rec.Some? {
          stored := rec.value;
        }
      }
      clock := clock + 1;
    }

    /** CreateVolume: skip lvcreate when the LV exists. */
    method CreateVolume(node: string, vol: Record, accepts: string -> bool, code: ErrorCode, ghost phase: Phase,
                        ghost x: Context, ghost t: Trace)
      returns (ok: bool, ghost t': Trace)
      requires phase.Retrying? || phase.Creating?
      requires Follows(x, t, node, Sync(phase, vol))
      modifies this`lvs, this`clock
      ensures ok == Hosts(node, old(lvs), accepts, vol.volGroup)
      ensures lvs == old(lvs) + if ok then {Lv(node, vol.volGroup)} else {}
      ensures Follows(x, t', node, Sync(AfterCreate(phase, ok, code), vol))
    {
      ghost var act := Create(node, accepts(vol.volGroup), code);
      TraceGrows(x, t, act, DoCreate(Last(t), node, act.ok, code));
      t' := Grow(t, act, DoCreate(Last(t), node, act.ok, code));
      var lv := Lv(node, vol.volGroup);
      ok := true;
      if lv !in lvs {
        ok := accepts(vol.volGroup);
        if ok {
          lvs := lvs + {lv};
        }
      }
      clock := clock + 1;
    }

    /** DestroyVolume: nothing to do without a volume group or without the LV. */
    method DestroyVolume(node: string, vol: Record, removes: bool, ghost x: Context, ghost t: Trace)
      returns (ok: bool, ghost t': Trace)
      requires Follows(x, t, node, Sync(Destroying, vol))
      modifies this`lvs, this`clock
      ensures ok <==> removes || vol.volGroup == "" || Lv(node, vol.volGroup) !in old(lvs)
      ensures lvs == if ok && vol.volGroup != "" then old(lvs) - {Lv(node, vol.volGroup)} else old(lvs)
      ensures if ok then Follows(x, t', node, Sync(Finalizing, vol)) else Ends(x, t', node, true)
    {
      TraceGrows(x, t, Destroy(node, removes), DoDestroy(Last(t), node, removes));
      t' := Grow(t, Destroy(node, removes), DoDestroy(Last(t), node, removes));
      var lv := Lv(node, vol.volGroup);
      ok := true;
      if vol.volGroup != "" && lv in lvs {
        ok := removes;
        if ok {
          lvs := lvs - {lv};
        }
      }
      clock := clock + 1;
    }

    /** RemoveVolFinalizer. */
    method RemoveVolFinalizer(node: string, vol: Record, ghost x: Context, ghost t: Trace)
      returns (err: bool, ghost t': Trace)
      requires Follows(x, t, node, Sync(Finalizing, vol))
      modifies this`rec, this`clock
      ensures Ends(x, t', node, err)
      ensures err <==> old(rec).None? || old(rec).value.rv != vol.rv
      ensures err ==> rec == old(rec)
      ensures !err && vol.marked ==> rec == if old(rec) == Some(vol.(finalizer := false)) then old(rec) else None
    {
      TraceGrows(x, t, Finalize(node), DoFinalize(Last(t), node, clock));
      t' := Grow(t, Finalize(node), DoFinalize(Last(t), node, clock));
      var ok, _ := Update(vol.(finalizer := false));
      err := !ok;
    }

    /** UpdateVolGroup: a volume group without a name is an error. */
    method UpdateVolGroup(node: string, vol: Record, vg: string, ghost rest: seq<string>, ghost x: Context,
                          ghost t: Trace)
      returns (err: bool, vol': Record, ghost t': Trace)
      requires Follows(x, t, node, Sync(Assigning([vg] + rest), vol)) && !vol.marked
      modifies this`rec, this`clock
      ensures err <==> vg == "" || old(rec).None? || old(rec).value.rv != vol.rv
      ensures err ==> vol' == vol && rec == old(rec) && Ends(x, t', node, true)
      ensures !err ==> rec == Some(vol') && vol' == vol.(rv := vol'.rv, volGroup := vg)
      ensures !err && old(rec) == Some(vol) && vol.volGroup == vg ==> rec == old(rec)
      ensures !err ==> Follows(x, t', node, Sync(Creating(rest), vol'))
    {
      assert ([vg] + rest)[1..] == rest && ([vg] + rest)[0] == vg;
      TraceGrows(x, t, Assign(node), DoAssign(Last(t), node, clock));
      t' := Grow(t, Assign(node), DoAssign(Last(t), node, clock));
      err, vol' := vg == "", vol;
      if err {
        clock := clock + 1;
      } else {
        var ok, stored := Update(vol.(volGroup := vg));
        err := !ok;
        if ok {
          vol' := stored;
        }
      }
    }

    /** UpdateVolInfo: publishes the outcome, unless the copy has a finalizer already. */
    method UpdateVolInfo(node: string, vol: Record, phase: Phase, ghost x: Context, ghost t: Trace)
      returns (err: bool, ghost t': Trace)
      requires phase.Publishing? || phase.Failing?
      requires Follows(x, t, node, Sync(phase, vol))
      modifies this`rec, this`clock
      ensures Ends(x, t', node, err)
      ensures err <==> !vol.finalizer && (old(rec).None? || old(rec).value.rv != vol.rv)
      ensures err || vol.finalizer ==> rec == old(rec)
      ensures !vol.finalizer && old(rec) == Some(vol) && vol.state == Pending && !vol.marked ==>
                && rec.Some?
                && var r := vol.(rv := rec.value.rv);
                   rec.value == if phase.Publishing? then r.(state := Ready, finalizer := true)
                                else r.(state := Failed, error := Some(phase.code))
    {
      err := false;
      t' := Grow(t, Publish(node), DoPublish(Last(t), node, clock));
      TraceGrows(x, t, Publish(node), DoPublish(Last(t), node, clock));
      if vol.finalizer {
        clock := clock + 1;
      } else {
        var ok, _ := Update(if phase.Failing? then vol.(state := Failed, error := Some(phase.code))
                            else vol.(state := Ready, finalizer := true));
        err := !ok;
      }
    }

    /** getVgPriorityList: a listing that failed ends the sync with an error. */
    method ListGroups(node: string, vol: Record, listing: Option<seq<string>>, ghost x: Context, ghost t: Trace)
      returns (err: bool, vgs: seq<string>, ghost t': Trace)
      requires Follows(x, t, node, Sync(Listing, vol))
      requires listing.Some? ==> forall g | g in listing.value :: x.matches(vol.vgPattern, g)
      modifies this`clock
      ensures err == listing.None?
      ensures err ==> Ends(x, t', node, true)
      ensures !err ==> vgs == listing.value
      ensures !err ==> Follows(x, t', node, Sync(if vgs == [] then Failing(Internal) else Assigning(vgs), vol))
    {
      err, vgs := listing.None?, if listing.Some? then listing.value else [];
      ghost var act := if err then Abort(node) else List(node, vgs);
      ghost var v := if err then Requeue(Last(t), node) else DoList(Last(t), node, vgs);
      TraceGrows(x, t, act, v);
      t' := Grow(t, act, v);
      clock := clock + 1;
    }

    /** One round of the loop: record the group, then create in it. */
    method TryGroup(node: string, vol: Record, vg: string, accepts: string -> bool, code: ErrorCode,
                    ghost rest: seq<string>, ghost x: Context, ghost t: Trace)
      returns (err: bool, ok: bool, vol': Record, ghost t': Trace)
      requires Follows(x, t, node, Sync(Assigning([vg] + rest), vol)) && rec == Some(vol) && !vol.marked
      modifies this
      ensures err <==> vg == ""
      ensures rec == Some(vol') && vol' == vol.(rv := vol'.rv, volGroup := if err then vol.volGroup else vg)
      ensures err ==> Ends(x, t', node, true) && lvs == old(lvs)
      ensures !err ==>
                && ok == Hosts(node, old(lvs), accepts, vg)
                && lvs == old(lvs) + (if ok then {Lv(node, vg)} else {})
                && Follows(x, t', node, Sync(AfterCreate(Creating(rest), ok, code), vol'))
    {
      ok := false;
      err, vol', t' := UpdateVolGroup(node, vol, vg, rest, x, t);
      if !err {
        ok, t' := CreateVolume(node, vol', accepts, code, Creating(rest), x, t');
      }
    }

    /** The loop over the listed volume groups: record the group, create in it, stop at the first that hosts the LV. */
    method TryGroups(node: string, start: Record, vgs: seq<string>, accepts: string -> bool, why: string -> ErrorCode,
                     ghost x: Context, ghost t: Trace)
      returns (err: bool, vol: Record, phase: Phase, attempts: nat, ghost t': Trace)
      requires vgs != [] && Follows(x, t, node, Sync(Assigning(vgs), start))
      requires rec == Some(start) && !start.marked
      modifies this
      ensures SearchedWith(err, lvs, node, old(lvs), accepts, vgs, phase, attempts)
      ensures rec == Some(vol)
      ensures vol == start.(rv := vol.rv, volGroup := GroupAfter(start.volGroup, vgs, attempts))
      ensures if err then Ends(x, t', node, true) else Follows(x, t', node, Sync(phase, vol))
      ensures !err && phase != Publishing ==> phase == Failing(FailureCode(vgs, why))
    {
      err, vol, phase, attempts, t' := false, start, Failing(Internal), 0, t;
      while attempts < |vgs|
        invariant 0 <= attempts <= |vgs| && phase.Failing? && !err
        invariant Follows(x, t', node, Sync(if attempts < |vgs| then Assigning(vgs[attempts..]) else phase, vol))
        invariant rec == Some(vol) && lvs == old(lvs)
        invariant vol == start.(rv := vol.rv, volGroup := GroupAfter(start.volGroup, vgs, attempts))
        invariant attempts == |vgs| ==> phase == Failing(FailureCode(vgs, why))
        invariant forall j | 0 <= j < attempts :: vgs[j] != "" && !Hosts(node, old(lvs), accepts, vgs[j])
      {
        var vg := vgs[attempts];
        ghost var rest := vgs[attempts + 1..];
        assert vgs[attempts..] == [vg] + rest;
        var ok;
        err, ok, vol, t' := TryGroup(node, vol, vg, accepts, why(vg), rest, x, t');
        if err {
          return;
        }
        attempts := attempts + 1;
        if ok {
          phase := Publishing;
          return;
        }
        phase := Failing(why(vg));
      }
    }

    /** The deletion branch: destroy the LV, then give up the finalizer. */
    method Remove(node: string, vol: Record, removes: bool, ghost x: Context, ghost t: Trace)
      returns (err: bool, ghost t': Trace)
      requires Follows(x, t, node, Sync(Destroying, vol)) && rec == Some(vol)
      modifies this
      ensures Ends(x, t', node, err)
      ensures err <==> !removes && vol.volGroup != "" && Lv(node, vol.volGroup) in old(lvs)
      ensures err ==> rec == old(rec) && lvs == old(lvs)
      ensures !err ==> lvs == if vol.volGroup != "" then old(lvs) - {Lv(node, vol.volGroup)} else old(lvs)
      ensures !err && vol.marked ==> rec == if vol.finalizer then None else old(rec)
    {
      var ok;
      ok, t' := DestroyVolume(node, vol, removes, x, t);
      err := !ok;
      if ok {
        err, t' := RemoveVolFinalizer(node, vol, x, t');
      }
    }

    /** The provisioning branch, when the recorded volume group did not work out. */
    method Provision(node: string, vol: Record, listing: Option<seq<string>>, accepts: string -> bool,
                     why: string -> ErrorCode, ghost x: Context, ghost t: Trace)
      returns (err: bool, attempts: nat, ghost t': Trace)
      requires Follows(x, t, node, Sync(Listing, vol)) && rec == Some(vol)
      requires !vol.marked && vol.state == Pending
      requires listing.Some? ==> forall g | g in listing.value :: x.matches(vol.vgPattern, g)
      modifies this
      ensures Ends(x, t', node, err)
      ensures listing.None? ==> err && rec == old(rec) && lvs == old(lvs)
      ensures !vol.finalizer && listing.Some? ==>
                Concluded(err, node, vol, Named(listing.value), "" in listing.value, FailureCode(listing.value, why),
                          accepts, old(lvs), attempts)
    {
      attempts := 0;
      var vgs;
      err, vgs, t' := ListGroups(node, vol, listing, x, t);
      if err {
        return;
      }
      var copy, phase := vol, Failing(Internal);
      if vgs != [] {
        err, copy, phase, attempts, t' := TryGroups(node, vol, vgs, accepts, why, x, t');
        SearchedNamed(err, lvs, node, old(lvs), accepts, vgs, phase, vol.volGroup, attempts);
        if err {
          return;
        }
      }
      err, t' := UpdateVolInfo(node, copy, phase, x, t');
    }

    /** How a sync that tried `vgs` in turn leaves the record and the LVs. */
    ghost predicate Concluded(err: bool, node: string, vol: Record, vgs: seq<string>, cut: bool, code: ErrorCode,
                              accepts: string -> bool, before: set<Lv>, attempts: nat)
      reads this
    {
      ConcludedWith(err, rec, lvs, node, vol, vgs, cut, code, accepts, before, attempts)
    }

    /** Takes the key off the queue and reads the record. */
    method StartSync(node: string, ghost x: Context) returns (r: Option<Record>, ghost t: Trace)
      requires x.v.rec == rec && x.v.lvs == lvs && x.now == clock
      requires VolumeLegal(x.rules, x.matches, x.v, Start(node))
      modifies this`clock
      ensures r == rec
      ensures if r.None? || (!r.value.marked && r.value.state != Pending) then Ends(x, t, node, false)
              else Follows(x, t, node,
                  Sync(if r.value.marked then Destroying else if r.value.volGroup != "" then Retrying else Listing,
                      r.value))
    {
      t := Grow(Trace([x.v], []), Start(node), DoStart(x.v, node));
      TraceGrows(x, Trace([x.v], []), Start(node), DoStart(x.v, node));
      r := rec;
      clock := clock + 1;
    }

    /** A Pending record: first the recorded volume group, then the listed ones. */
    method ProvisionPending(node: string, vol: Record, listing: Option<seq<string>>, accepts: string -> bool,
                            why: string -> ErrorCode, ghost x: Context, ghost t: Trace)
      returns (err: bool, attempts: nat, ghost t': Trace)
      requires Follows(x, t, node, Sync(if vol.volGroup != "" then Retrying else Listing, vol)) && rec == Some(vol)
      requires !vol.marked && vol.state == Pending
      requires listing.Some? ==> forall g | g in listing.value :: x.matches(vol.vgPattern, g)
      modifies this
      ensures Ends(x, t', node, err)
      ensures listing.None? && !RecordedWorks(vol, node, old(lvs), accepts) ==>
                err && rec == old(rec) && lvs == old(lvs)
      ensures !vol.finalizer && (listing.Some? || RecordedWorks(vol, node, old(lvs), accepts)) ==>
                var vgs := if listing.Some? then listing.value else [];
                Concluded(err, node, vol, Tried(vol, Named(vgs)), "" in vgs, FailureCode(vgs, why), accepts, old(lvs),
                          attempts)
    {
      attempts, t' := 0, t;
      if vol.volGroup != "" {
        var ok;
        ok, t' := CreateVolume(node, vol, accepts, why(vol.volGroup), Retrying, x, t');
        attempts := 1;
        if ok {
          RecordedHosts(vol, Named(if listing.Some? then listing.value else []), node, old(lvs), accepts);
          err, t' := UpdateVolInfo(node, vol, Publishing, x, t');
          return;
        }
      }
      var more;
      err, more, t' := Provision(node, vol, listing, accepts, why, x, t');
      attempts := attempts + more;
      if !vol.finalizer && listing.Some? {
        TriedConcluded(err, rec, lvs, node, vol, Named(listing.value), "" in listing.value,
                       FailureCode(listing.value, why), accepts, old(lvs), more);
      }
    }

    /**
     syncVol. An uninterrupted sync is a path of the protocol, and an error puts the key back on
     the queue. On a Pending record it ends Ready in the first volume group that hosts the LV, of
     the recorded one and the listed ones, and Failed if none does; a listing that failed, and a
     listed volume group without a name, stop it with an error. On a marked record it removes the
     LV and the record, or fails with the LV still there. Anything else it leaves alone.
     */
    method SyncVol(node: string, listing: Option<seq<string>>, accepts: string -> bool, why: string -> ErrorCode,
                   removes: bool, ghost x: Context)
      returns (err: bool, attempts: nat, ghost t: Trace)
      requires x.v.rec == rec && x.v.lvs == lvs && x.now == clock
      requires VolumeLegal(x.rules, x.matches, x.v, Start(node))
      requires listing.Some? && rec.Some? ==> forall g | g in listing.value :: x.matches(rec.value.vgPattern, g)
      modifies this
      ensures Ends(x, t, node, err)
      ensures old(rec).None? || (!old(rec).value.marked && old(rec).value.state != Pending) ==>
                !err && rec == old(rec) && lvs == old(lvs)
      ensures old(rec).Some? && old(rec).value.marked ==>
                var r := old(rec).value;
                && (err <==> !removes && r.volGroup != "" && Lv(node, r.volGroup) in old(lvs))
                && rec == (if err || !r.finalizer then old(rec) else None)
                && lvs == old(lvs) - if err || r.volGroup == "" then {} else {Lv(node, r.volGroup)}
      ensures ToProvision(old(rec)) ==>
                var r, vgs := old(rec).value, if listing.Some? then listing.value else [];
                if listing.None? && !RecordedWorks(r, node, old(lvs), accepts) then
                  err && rec == old(rec) && lvs == old(lvs)
                else
                  && attempts <= |vgs| + 1
                  && Concluded(err, node, r, Tried(r, Named(vgs)), "" in vgs, FailureCode(vgs, why), accepts, old(lvs),
                               attempts)
    {
      err, attempts := false, 0;
      var r;
      r, t := StartSync(node, x);
      if r.None? {
        return;
      }
      var vol := r.value;
      if vol.marked {
        err, t := Remove(node, vol, removes, x, t);
        return;
      }
      if vol.state != Pending {
        return;
      }
      err, attempts, t := ProvisionPending(node, vol, listing, accepts, why, x, t);
      NamedIsPrefix(if listing.Some? then listing.value else []);
    }
  }
}
