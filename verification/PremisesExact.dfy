/**
 P2 and P3 are exactly what leak freedom needs. The code itself enforces neither: a sync does
 not look at the record's owner again, and a Pending record has no finalizer to hold it back.
 */
module PremisesExact {
  import opened Records
  import opened Protocol
  import opened Theorems

  /** However the cluster goes on under the premises, it never leaks. */
  ghost predicate LeakFreeForever(matches: Matcher, c: Cluster) {
    forall es | Run(Premises, matches, c, es) :: LeakFree(Exec(Premises, matches, c, es))
  }

  lemma InvIsLeakFreeForever(matches: Matcher, c: Cluster)
    requires Inv(matches, c)
    ensures LeakFreeForever(matches, c)
  {
    forall es | Run(Premises, matches, c, es)
      ensures LeakFree(Exec(Premises, matches, c, es))
    {
      RunKeepsInv(Premises, matches, c, es);
    }
  }

  /** A path to an LV its record does not name. */
  lemma PathLeaks(matches: Matcher, c: Cluster, n: string, vs: seq<Volume>, acts: seq<Action>, lv: Lv)
    requires n in c.vols && Path(Premises, matches, vs, acts, c.clock) && vs[0] == At(c, n)
    requires lv in vs[|acts|].lvs
    requires vs[|acts|].rec.Some? ==> lv != Lv(vs[|acts|].rec.value.owner, vs[|acts|].rec.value.volGroup)
    ensures !LeakFreeForever(matches, c)
  {
    PathIsRun(Premises, matches, c, n, vs, acts);
    var es := On(n, acts);
    var end := Exec(Premises, matches, c, es);
    assert n in end.vols && lv in end.vols[n].lvs;
    assert !LeakFree(end);
  }

  // ----- P3: deleting a record -----

  /** Deleting a record that can leave something behind does so, at once or after one lvcreate. */
  lemma UnsafeDeleteLeaks(matches: Matcher, c: Cluster, n: string, id: nat, owner: string)
    requires Inv(matches, c) && id in At(c, n).calls && Deletes(At(c, n).calls[id]) && !CanDelete(At(c, n))
    ensures !LeakFreeForever(matches, Next(matches, c, Event(n, Step(id, owner))))
  {
    var v := At(c, n);
    var c' := Next(matches, c, Event(n, Step(id, owner)));
    var v' := DoStep(v, id, owner, c.clock);
    assert v'.rec.None? && v'.lvs == v.lvs && v'.syncs == v.syncs;
    if v.lvs != {} {
      var lv :| lv in v.lvs;
      PathLeaks(matches, c', n, [v'], [], lv);
    } else {
      var node :| node in v.syncs && (v.syncs[node].phase.Retrying? || v.syncs[node].phase.Creating?);
      var act := Create(node, true, Internal);
      var v'' := DoCreate(v', node, true, Internal);
      assert Takes(Premises, matches, v', act, c'.clock, v'');
      PathLeaks(matches, c', n, [v', v''], [act], Lv(node, v.syncs[node].copy.volGroup));
    }
  }

  /** A delete step keeps the cluster leak free for ever if and only if `CanDelete` holds when it is taken. */
  lemma DeleteSafeIff(matches: Matcher, c: Cluster, n: string, id: nat, owner: string)
    requires Inv(matches, c) && id in At(c, n).calls && Deletes(At(c, n).calls[id])
    ensures CanDelete(At(c, n)) <==> LeakFreeForever(matches, Next(matches, c, Event(n, Step(id, owner))))
  {
    if CanDelete(At(c, n)) {
      NextKeepsInv(Premises, matches, c, Event(n, Step(id, owner)));
      InvIsLeakFreeForever(matches, Next(matches, c, Event(n, Step(id, owner))));
    } else {
      UnsafeDeleteLeaks(matches, c, n, id, owner);
    }
  }

  /** Nothing weaker can be read off the record: with the very same record, the owner's agent can be about to create. */
  lemma DeletableIsTight(matches: Matcher, c: Cluster, n: string)
    requires Inv(matches, c) && At(c, n).rec.Some? && !Deletable(At(c, n).rec.value)
    ensures exists es :: Run(Serial, matches, c, es) && At(Exec(Serial, matches, c, es), n).rec == At(c, n).rec
                         && !CanDelete(At(Exec(Serial, matches, c, es), n))
  {
    var v := At(c, n);
    var node := v.rec.value.owner;
    var acts := [Crash(node), Resync(node), Start(node)];
    RestartTakes(matches, v, node, c.clock);
    var v3 := DoStart(Crashed(v, node), node);
    PathIsRun(Serial, matches, c, n, [v, Crashed(v, node), Resynced(v, node), v3], acts);
    assert v3.rec == v.rec && v3.syncs[node].phase.Retrying?;
    assert Run(Serial, matches, c, On(n, acts));
  }

  // ----- P2: starting a sync -----

  /** A sync of another node's Pending record creates the LV on the wrong node. */
  lemma ForeignCreateLeaks(matches: Matcher, c: Cluster, n: string, node: string, vg: string)
    requires n in c.vols && c.vols[n].rec.Some? && node in c.vols[n].syncs
    requires var r := c.vols[n].rec.value;
             && r.owner != node && !r.marked && vg != "" && matches(r.vgPattern, vg)
             && c.vols[n].syncs[node] == Sync(if r.volGroup != "" then Retrying else Listing, r)
    ensures !LeakFreeForever(matches, c)
  {
    var v, r := c.vols[n], c.vols[n].rec.value;
    if r.volGroup != "" {
      var v1 := DoCreate(v, node, true, Internal);
      assert Takes(Premises, matches, v, Create(node, true, Internal), c.clock, v1);
      PathLeaks(matches, c, n, [v, v1], [Create(node, true, Internal)], Lv(node, r.volGroup));
    } else {
      var v1 := DoList(v, node, [vg]);
      var v2 := DoAssign(v1, node, c.clock + 1);
      var v3 := DoCreate(v2, node, true, Internal);
      assert Takes(Premises, matches, v, List(node, [vg]), c.clock, v1);
      assert Takes(Premises, matches, v1, Assign(node), c.clock + 1, v2);
      assert Takes(Premises, matches, v2, Create(node, true, Internal), c.clock + 2, v3);
      PathLeaks(matches, c, n, [v, v1, v2, v3], [List(node, [vg]), Assign(node), Create(node, true, Internal)],
          Lv(node, vg));
    }
  }

  /** A sync of another node's marked record finds no LV to destroy and lets the record go. */
  lemma ForeignDestroyLeaks(matches: Matcher, c: Cluster, n: string, node: string, lv: Lv)
    requires n in c.vols && c.vols[n].rec.Some? && node in c.vols[n].syncs
    requires var r := c.vols[n].rec.value;
             && r.owner != node && r.marked && r.finalizer && lv == Lv(r.owner, r.volGroup)
             && c.vols[n].lvs == {lv} && c.vols[n].syncs[node] == Sync(Destroying, r)
    ensures !LeakFreeForever(matches, c)
  {
    var v := c.vols[n];
    var v1 := DoDestroy(v, node, true);
    var v2 := DoFinalize(v1, node, c.clock + 1);
    assert Takes(Premises, matches, v, Destroy(node, true), c.clock, v1);
    assert Takes(Premises, matches, v1, Finalize(node), c.clock + 1, v2);
    PathLeaks(matches, c, n, [v, v1, v2], [Destroy(node, true), Finalize(node)], lv);
  }

  /**
   A sync started on a node keeps the cluster leak free for ever if and only if `CanStart`
   holds, that is, in all but harmless cases, if the node owns the record. `vg` is some volume
   group the record's pattern accepts.
   */
  lemma StartSafeIff(matches: Matcher, c: Cluster, n: string, node: string, vg: string)
    requires Inv(matches, c) && Enabled(matches, At(c, n), Start(node))
    requires vg != "" && (At(c, n).rec.Some? ==> matches(At(c, n).rec.value.vgPattern, vg))
    ensures CanStart(At(c, n), node) <==> LeakFreeForever(matches, Next(matches, c, Event(n, Start(node))))
  {
    var v, c' := At(c, n), Next(matches, c, Event(n, Start(node)));
    if CanStart(v, node) {
      NextKeepsInv(Premises, matches, c, Event(n, Start(node)));
      InvIsLeakFreeForever(matches, c');
    } else if v.rec.value.marked {
      var lv :| lv in v.lvs;
      assert v.lvs == {lv};
      ForeignDestroyLeaks(matches, c', n, node, lv);
    } else {
      ForeignCreateLeaks(matches, c', n, node, vg);
    }
  }
}
