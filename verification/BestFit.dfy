/**
 A sync with the volume groups the node really has: of those that fit and accept the LV it takes
 the one with the least free space.
 */
module BestFit {
  import opened Records
  import opened Protocol
  import opened VolumeGroups
  import opened Agent

  /** The volume group may be tried for the record and can host its LV. */
  predicate Fits(matches: Matcher, r: Record, node: string, lvs: set<Lv>, accepts: string -> bool, vg: VolumeGroup) {
    Eligible(g => matches(r.vgPattern, g), r.capacity, r.thin, vg) && Hosts(node, lvs, accepts, vg.name)
  }

  /** `name` is a volume group that fits, and none that fits has less free space. */
  predicate IsBestFit(matches: Matcher, r: Record, node: string, lvs: set<Lv>, accepts: string -> bool,
                      vgs: seq<VolumeGroup>, name: string)
  {
    exists best | best in vgs ::
      && best.name == name && Fits(matches, r, node, lvs, accepts, best)
      && forall vg | vg in vgs && Fits(matches, r, node, lvs, accepts, vg) :: best.free <= vg.free
  }

  function Names(list: seq<VolumeGroup>): seq<string> {
    seq(|list|, i requires 0 <= i < |list| => list[i].name)
  }

  /** The list is sorted, so the first that hosts the LV is the best fit. */
  lemma FirstHostIsBestFit(matches: Matcher, r: Record, node: string, lvs: set<Lv>, accepts: string -> bool,
                           vgs: seq<VolumeGroup>, list: seq<VolumeGroup>, i: nat)
    requires Sorted(list)
    requires forall vg :: vg in list <==> vg in vgs && Eligible(g => matches(r.vgPattern, g), r.capacity, r.thin, vg)
    requires IsFirstHost(node, lvs, accepts, Names(list), i)
    ensures IsBestFit(matches, r, node, lvs, accepts, vgs, list[i].name)
  {
    forall vg | vg in vgs && Fits(matches, r, node, lvs, accepts, vg)
      ensures list[i].free <= vg.free
    {
      var j :| 0 <= j < |list| && list[j] == vg;
      assert Hosts(node, lvs, accepts, Names(list)[j]);
    }
    assert list[i] in list;
  }

  lemma NoHostNoFit(matches: Matcher, r: Record, node: string, lvs: set<Lv>, accepts: string -> bool,
                    vgs: seq<VolumeGroup>, list: seq<VolumeGroup>)
    requires forall vg :: vg in list <==> vg in vgs && Eligible(g => matches(r.vgPattern, g), r.capacity, r.thin, vg)
    ensures NoHost(node, lvs, accepts, Names(list)) <==>
      !exists vg :: vg in vgs && Fits(matches, r, node, lvs, accepts, vg)
  {
    if !NoHost(node, lvs, accepts, Names(list)) {
      var j :| 0 <= j < |Names(list)| && Hosts(node, lvs, accepts, Names(list)[j]);
      assert list[j] in list;
    }
    forall vg | vg in vgs && Fits(matches, r, node, lvs, accepts, vg)
      ensures !NoHost(node, lvs, accepts, Names(list))
    {
      var j :| 0 <= j < |list| && list[j] == vg;
      assert Names(list)[j] == vg.name;
    }
  }

  /** A Pending record that the sync has to find a volume group for. */
  predicate Searches(rec: Option<Record>, node: string, lvs: set<Lv>, accepts: string -> bool) {
    && ToProvision(rec)
    && (rec.value.volGroup != "" ==> !Hosts(node, lvs, accepts, rec.value.volGroup))
  }

  /** What such a sync comes to: Ready in the best fit, or Failed when nothing fits. */
  predicate EndsInBestFit(matches: Matcher, r: Record, node: string, before: set<Lv>, accepts: string -> bool,
                          vgs: seq<VolumeGroup>, rec: Option<Record>, lvs: set<Lv>)
  {
    && rec.Some?
    && if exists vg :: vg in vgs && Fits(matches, r, node, before, accepts, vg) then
         && rec.value.state == Ready && IsBestFit(matches, r, node, before, accepts, vgs, rec.value.volGroup)
         && lvs == before + {Lv(node, rec.value.volGroup)}
       else rec.value.state == Failed && rec.value.error.Some? && lvs == before
  }

  lemma {:induction false} NoneUnnamed(vgs: seq<string>)
    requires "" !in vgs
    ensures Named(vgs) == vgs
  {
    NamedIsPrefix(vgs);
  }

  lemma FirstHostShifts(node: string, lvs: set<Lv>, accepts: string -> bool, g: string, vgs: seq<string>, i: nat)
    requires !Hosts(node, lvs, accepts, g) && IsFirstHost(node, lvs, accepts, [g] + vgs, i)
    ensures 1 <= i && IsFirstHost(node, lvs, accepts, vgs, i - 1) && ([g] + vgs)[i] == vgs[i - 1]
  {
    assert ([g] + vgs)[0] == g && ([g] + vgs)[i] == vgs[i - 1];
    forall j | 0 <= j < i - 1
      ensures !Hosts(node, lvs, accepts, vgs[j])
    {
      assert ([g] + vgs)[j + 1] == vgs[j];
    }
  }

  /** A recorded volume group that does not host the LV only shifts the search. */
  lemma RecordedOnlyShifts(r: Record, names: seq<string>, node: string, lvs: set<Lv>, accepts: string -> bool, i: nat)
    returns (k: nat)
    requires r.volGroup != "" ==> !Hosts(node, lvs, accepts, r.volGroup)
    requires IsFirstHost(node, lvs, accepts, Tried(r, names), i)
    ensures IsFirstHost(node, lvs, accepts, names, k) && Tried(r, names)[i] == names[k]
  {
    if r.volGroup == "" {
      k := i;
      assert Tried(r, names) == names;
    } else {
      FirstHostShifts(node, lvs, accepts, r.volGroup, names, i);
      k := i - 1;
    }
  }

  lemma RecordedAddsNoHost(r: Record, names: seq<string>, node: string, lvs: set<Lv>, accepts: string -> bool)
    requires r.volGroup != "" ==> !Hosts(node, lvs, accepts, r.volGroup)
    ensures NoHost(node, lvs, accepts, Tried(r, names)) <==> NoHost(node, lvs, accepts, names)
  {
    if r.volGroup == "" {
      assert Tried(r, names) == names;
    } else {
      SkipFront(node, lvs, accepts, r.volGroup, names);
    }
  }

  /** The sorted list turns the conclusion of a sync into a best fit. */
  lemma ConcludedInBestFit(matches: Matcher, r: Record, node: string, before: set<Lv>, accepts: string -> bool,
                           vgs: seq<VolumeGroup>, list: seq<VolumeGroup>, rec: Option<Record>, lvs: set<Lv>,
                           why: string -> ErrorCode, attempts: nat)
    requires Searches(Some(r), node, before, accepts) && Sorted(list)
    requires forall vg :: vg in list <==> vg in vgs && Eligible(g => matches(r.vgPattern, g), r.capacity, r.thin, vg)
    requires ConcludedWith(false, rec, lvs, node, r, Tried(r, Names(list)), false, FailureCode(Names(list), why),
                           accepts, before, attempts)
    ensures EndsInBestFit(matches, r, node, before, accepts, vgs, rec, lvs)
  {
    NoHostNoFit(matches, r, node, before, accepts, vgs, list);
    RecordedAddsNoHost(r, Names(list), node, before, accepts);
    if !NoHost(node, before, accepts, Names(list)) {
      var k := RecordedOnlyShifts(r, Names(list), node, before, accepts, attempts - 1);
      FirstHostIsBestFit(matches, r, node, before, accepts, vgs, list, k);
    }
  }

  /** A recorded volume group that hosts the LV is where a sync ends. */
  lemma ConcludedInRecorded(err: bool, rec: Option<Record>, lvs: set<Lv>, node: string, r: Record, vgs: seq<string>,
                            code: ErrorCode, accepts: string -> bool, before: set<Lv>, attempts: nat)
    requires RecordedWorks(r, node, before, accepts)
    requires ConcludedWith(err, rec, lvs, node, r, Tried(r, vgs), false, code, accepts, before, attempts)
    ensures rec.value.state == Ready && rec.value.volGroup == r.volGroup
  {
    RecordedHosts(r, vgs, node, before, accepts);
  }

  /** The names of the volume groups to try, in order. */
  method ListOnNode(r: Record, vgs: seq<VolumeGroup>, matches: Matcher)
    returns (names: seq<string>, ghost list: seq<VolumeGroup>)
    requires forall vg | vg in vgs :: vg.name != ""
    ensures names == Names(list) && Sorted(list) && Named(names) == names && "" !in names
    ensures forall vg :: vg in list <==> vg in vgs && Eligible(g => matches(r.vgPattern, g), r.capacity, r.thin, vg)
    ensures forall g | g in names :: matches(r.vgPattern, g)
  {
    var found := GetVgPriorityList(vgs, g => matches(r.vgPattern, g), r.capacity, r.thin);
    names, list := Names(found), found;
    forall g | g in names
      ensures g != "" && matches(r.vgPattern, g)
    {
      var i :| 0 <= i < |names| && names[i] == g;
      assert found[i] in found;
    }
    NoneUnnamed(names);
  }

  /** What a sync on the node comes to. A record of any other kind it leaves alone. */
  predicate SyncedOnNode(err: bool, rec: Option<Record>, lvs: set<Lv>, before: Option<Record>, lvs0: set<Lv>,
                         node: string, vgs: seq<VolumeGroup>, matches: Matcher, accepts: string -> bool, removes: bool)
  {
    if before.None? || (!before.value.marked && before.value.state != Pending) then
      !err && rec == before && lvs == lvs0
    else
      var r := before.value;
      && (r.marked ==>
            && (err <==> !removes && r.volGroup != "" && Lv(node, r.volGroup) in lvs0)
            && rec == (if err || !r.finalizer then before else None)
            && lvs == lvs0 - if err || r.volGroup == "" then {} else {Lv(node, r.volGroup)})
      && (ToProvision(before) && RecordedWorks(r, node, lvs0, accepts) ==>
            !err && rec.Some? && rec.value.state == Ready && rec.value.volGroup == r.volGroup)
      && (Searches(before, node, lvs0, accepts) ==>
            !err && EndsInBestFit(matches, r, node, lvs0, accepts, vgs, rec, lvs))
  }

  /** syncVol with the listing that getVgPriorityList makes of the node's volume groups. */
  method SyncOnNode(site: Site, node: string, vgs: seq<VolumeGroup>, matches: Matcher, accepts: string -> bool,
                    why: string -> ErrorCode, removes: bool, ghost x: Context)
    returns (err: bool, ghost t: Trace)
    requires x.v.rec == site.rec && x.v.lvs == site.lvs && x.now == site.clock && x.matches == matches
    requires VolumeLegal(x.rules, x.matches, x.v, Start(node))
    requires forall vg | vg in vgs :: vg.name != ""
    modifies site
    ensures site.Ends(x, t, node, err)
    ensures SyncedOnNode(err, site.rec, site.lvs, old(site.rec), old(site.lvs), node, vgs, matches, accepts, removes)
  {
    ghost var rec, lvs := site.rec, site.lvs;
    var listing: Option<seq<string>> := None;
    ghost var list: seq<VolumeGroup> := [];
    if site.rec.Some? {
      var names;
      names, list := ListOnNode(site.rec.value, vgs, matches);
      listing := Some(names);
    }
    var attempts;
    err, attempts, t := site.SyncVol(node, listing, accepts, why, removes, x);
    if ToProvision(rec) {
      if RecordedWorks(rec.value, node, lvs, accepts) {
        ConcludedInRecorded(err, site.rec, site.lvs, node, rec.value, listing.value, FailureCode(listing.value, why),
                            accepts, lvs, attempts);
      } else {
        ConcludedInBestFit(matches, rec.value, node, lvs, accepts, vgs, list, site.rec, site.lvs, why, attempts);
      }
    }
  }
}
