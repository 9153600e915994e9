/**
 The node agent's sync of one snapshot as the code runs it, and what an uninterrupted sync
 achieves.
 */
module SnapshotAgent {
  import opened Records
  import opened Snapshots

  /** The record whose LV a sync has to make. */
  predicate ToMake(rec: Option<SnapRecord>) {
    rec.Some? && !rec.value.marked && rec.value.state == Pending && !rec.value.finalizer
  }

  /** The steps of the protocol that an uninterrupted sync takes, from `now` on. */
  function Synced(s: Snap, origin: Volume, node: string, ok: bool, now: nat): Snap
    requires node !in s.syncs
  {
    var s1 := DoSnapStart(s, node);
    if node !in s1.syncs then s1
    else
      var s2 :=
        if s1.syncs[node].phase == SnapDestroying then DoSnapDestroy(s1, node, ok)
        else DoSnapCreate(s1, origin, node, ok);
      if node !in s2.syncs then s2
      else if s2.syncs[node].phase == SnapFinalizing then DoSnapFinalize(s2, node, now + 2)
      else DoSnapPublish(s2, node, now + 2)
  }

  lemma NoneThereIff(lvs: set<SnapLv>, node: string, vg: string)
    ensures SnapLvsIn(lvs, node, vg) == {} <==> forall l | l in lvs :: l.node != node || l.vg != vg
  {
    forall l | l in lvs && l.node == node && l.vg == vg
      ensures l in SnapLvsIn(lvs, node, vg)
    {
    }
  }

  /** The store and the LVs of one snapshot name. */
  class SnapSite {
    var rec: Option<SnapRecord>
    var lvs: set<SnapLv>

    constructor (rec: Option<SnapRecord>, lvs: set<SnapLv>)
      ensures this.rec == rec && this.lvs == lvs
    {
      this.rec, this.lvs := rec, lvs;
    }

    /** Kubernetes accepts an update only against the current resource version. */
    method Update(r: SnapRecord, now: nat) returns (err: bool)
      modifies this`rec
      ensures err <==> old(rec).None? || old(rec).value.rv != r.rv
      ensures rec == if err then old(rec) else SnapStored(old(rec).value, r, now)
    {
      err := rec.None? || rec.value.rv != r.rv;
      if !err {
        rec := SnapStored(rec.value, r, now);
      }
    }

    /** DestroySnapshot: nothing to do when there is no such LV. */
    method DestroySnapshot(node: string, vg: string, removes: bool) returns (err: bool)
      modifies this`lvs
      ensures err <==> !removes && SnapLvsIn(old(lvs), node, vg) != {}
      ensures lvs == if err then old(lvs) else old(lvs) - SnapLvsIn(old(lvs), node, vg)
    {
      var present := SnapLvsIn(lvs, node, vg);
      err := false;
      if present != {} {
        err := !removes;
        if removes {
          lvs := lvs - present;
        }
      }
    }

    /** CreateSnapshot: lvcreate fails without the origin or when the name is taken; the code does not look first. */
    method CreateSnapshot(node: string, snap: SnapRecord, origin: set<Lv>, accepts: bool) returns (err: bool)
      modifies this`lvs
      ensures !err <==> accepts && Lv(node, snap.volGroup) in origin && SnapLvsIn(old(lvs), node, snap.volGroup) == {}
      ensures lvs == old(lvs) + if err then {} else {SnapLv(node, snap.volGroup, snap.origin)}
    {
      err := !(accepts && Lv(node, snap.volGroup) in origin && SnapLvsIn(lvs, node, snap.volGroup) == {});
      if !err {
        lvs := lvs + {SnapLv(node, snap.volGroup, snap.origin)};
      }
    }

    /** UpdateSnapInfo: Ready with a finalizer, unless the copy has a finalizer already. */
    method UpdateSnapInfo(snap: SnapRecord, now: nat) returns (err: bool)
      modifies this`rec
      ensures err <==> !snap.finalizer && (old(rec).None? || old(rec).value.rv != snap.rv)
      ensures err || snap.finalizer ==> rec == old(rec)
      ensures !snap.finalizer && old(rec) == Some(snap) ==>
        rec.Some? && rec.value == snap.(rv := now, finalizer := true, state := Ready)
    {
      err := false;
      if !snap.finalizer {
        err := Update(snap.(finalizer := true, state := Ready), now);
      }
    }

    /**
     syncSnap. It does what the protocol's steps do. A marked snapshot loses its LV and then
     its record; a Pending one gets its LV and becomes Ready, unless the LV is there already:
     then every retry fails.
     */
    method SyncSnap(node: string, ok: bool, now: nat, ghost s: Snap, origin: Volume) returns (err: bool)
      requires s.rec == rec && s.lvs == lvs && node !in s.syncs
      modifies this
      ensures rec == Synced(s, origin, node, ok, now).rec && lvs == Synced(s, origin, node, ok, now).lvs
      ensures err ==> node in Synced(s, origin, node, ok, now).queue
      ensures !err && rec.Some? && !rec.value.marked ==> node !in Synced(s, origin, node, ok, now).queue
      ensures old(rec).None? || (!old(rec).value.marked && old(rec).value.state != Pending) ==>
                !err && rec == old(rec) && lvs == old(lvs)
      ensures old(rec).Some? && old(rec).value.marked ==>
                var r := old(rec).value;
                && (err <==> !ok && exists l | l in old(lvs) :: l.node == node && l.vg == r.volGroup)
                && rec == (if err || !r.finalizer then old(rec) else None)
                && forall l :: l in lvs <==> l in old(lvs) && (err || l.node != node || l.vg != r.volGroup)
      ensures ToMake(old(rec)) ==>
                var r := old(rec).value;
                var taken := exists l | l in old(lvs) :: l.node == node && l.vg == r.volGroup;
                var makes := ok && Lv(node, r.volGroup) in origin.lvs && !taken;
                && (err <==> !makes)
                && rec == Some(if makes then r.(rv := now + 2, finalizer := true, state := Ready) else r)
                && lvs == old(lvs) + if makes then {SnapLv(node, r.volGroup, r.origin)} else {}
    {
      err := false;
      if rec.None? {
        return;
      }
      var snap := rec.value;
      NoneThereIff(lvs, node, snap.volGroup);
      if snap.marked {
        err := DestroySnapshot(node, snap.volGroup, ok);
        if !err {
          assert lvs == s.lvs - SnapLvsIn(s.lvs, node, snap.volGroup);
          err := Update(snap.(finalizer := false), now + 2);
        }
      } else if snap.state == Pending {
        err := CreateSnapshot(node, snap, origin.lvs, ok);
        if !err {
          err := UpdateSnapInfo(snap, now + 2);
        }
      }
    }
  }
}
