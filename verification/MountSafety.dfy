/**
 Mounts and the provisioning protocol together: why a volume that is not shared is mounted in one
 place. A mount needs the device, a device in use is not removed, and a name has one LV.
 */
module MountSafety {
  import opened Records
  import opened Protocol
  import opened Versions
  import opened Theorems
  import opened Names
  import opened Mounts

  /** The cluster, and each node's mount table. */
  datatype MountWorld = MountWorld(c: Cluster, tables: map<string, Table>)

  datatype MountEvent =
    | OnCluster(event: Event)
    | Publish(node: string, name: string, path: string, ok: bool)
    | Unpublish(node: string, path: string, ok: bool)
    | Reboot(node: string)

  function TableOf(m: MountWorld, node: string): Table {
    if node in m.tables then m.tables[node] else []
  }

  /** Where a node has the device of a volume name in a volume group mounted. */
  function MountsAt(m: MountWorld, node: string, vg: string, name: string): seq<string> {
    MountsOf(TableOf(m, node), VolumeDevPath(vg, name))
  }

  /** LVM has no LV whose name starts with a hyphen. */
  predicate Proper(name: string) {
    name == "" || name[0] != '-'
  }

  /** P1 for devices in use: lvremove does not remove an LV that is mounted. */
  predicate Removes(m: MountWorld, e: Event) {
    e.action.Destroy? && e.action.ok && e.action.node in At(m.c, e.name).syncs ==>
      MountsAt(m, e.action.node, At(m.c, e.name).syncs[e.action.node].copy.volGroup, e.name) == []
  }

  predicate MountLegal(rules: Rules, matches: Matcher, m: MountWorld, e: MountEvent) {
    match e
    case OnCluster(event) => Legal(rules, matches, m.c, event) && Removes(m, event)
    case Publish(_, name, _, _) => Proper(name)
    case _ => true
  }

  /** A publish reads the record as it is now; without the LV on the node there is no device to mount. */
  function MountNext(matches: Matcher, m: MountWorld, e: MountEvent): MountWorld
    requires MountLegal(Code, matches, m, e)
  {
    match e
    case OnCluster(event) => m.(c := Next(matches, m.c, event))
    case Publish(node, name, path, ok) =>
      var v := At(m.c, name);
      if v.rec.None? then m
      else
        var there := Lv(node, v.rec.value.volGroup) in v.lvs;
        m.(tables := m.tables[node := Published(TableOf(m, node), node, name, v.rec.value, path, ok && there)])
    case Unpublish(node, path, ok) => m.(tables := m.tables[node := Unpublished(TableOf(m, node), path, ok)])
    case Reboot(node) => m.(tables := m.tables[node := []])
  }

  predicate MountRun(rules: Rules, matches: Matcher, m: MountWorld, es: seq<MountEvent>)
    decreases |es|
  {
    es != [] ==> MountLegal(rules, matches, m, es[0]) && MountRun(rules, matches, MountNext(matches, m, es[0]), es[1..])
  }

  function MountExec(rules: Rules, matches: Matcher, m: MountWorld, es: seq<MountEvent>): MountWorld
    requires MountRun(rules, matches, m, es)
    decreases |es|
  {
    if es == [] then m else MountExec(rules, matches, MountNext(matches, m, es[0]), es[1..])
  }

  const MOUNT_INIT := MountWorld(INIT, map[])

  /** Every mount of a volume's device is on a node that has the LV. */
  ghost predicate Backed(m: MountWorld) {
    forall node, vg, name | Proper(name) && MountsAt(m, node, vg, name) != [] :: Lv(node, vg) in At(m.c, name).lvs
  }

  /** No node has a volume that is not shared mounted twice. */
  ghost predicate Single(m: MountWorld) {
    forall node, vg, name | Proper(name) && At(m.c, name).rec.Some? && !At(m.c, name).rec.value.shared ::
      |MountsAt(m, node, vg, name)| <= 1
  }

  ghost predicate MountInv(matches: Matcher, m: MountWorld) {
    Inv(matches, m.c) && Backed(m) && Single(m)
  }

  // ----- Steps of the cluster -----

  /** Only lvremove takes an LV away, and only the one it is told to. */
  lemma LvsLeaveByDestroy(matches: Matcher, v: Volume, a: Action, now: nat, lv: Lv)
    requires Enabled(matches, v, a) && lv in v.lvs && lv !in Apply(matches, v, a, now).lvs
    ensures a.Destroy? && a.ok && lv == Lv(a.node, v.syncs[a.node].copy.volGroup)
  {
  }

  lemma WriteKeepsShared(matches: Matcher, v: Volume, a: Action, now: nat)
    requires Versioned(v, now) && Enabled(matches, v, a) && (a.Finalize? || a.Assign? || a.Publish?)
    ensures var v' := Apply(matches, v, a, now); v.rec.Some? && v'.rec.Some? ==>
      v'.rec.value.shared == v.rec.value.shared
  {
    assert Fresh(v, v.syncs[a.node].copy, now);
  }

  lemma CallKeepsShared(v: Volume, id: nat, owner: string, now: nat)
    requires Versioned(v, now) && id in v.calls
    ensures var v' := DoStep(v, id, owner, now); v.rec.Some? && v'.rec.Some? ==>
      v'.rec.value.shared == v.rec.value.shared
  {
    assert FreshCall(v, v.calls[id], now);
  }

  lemma StepKeepsShared(matches: Matcher, v: Volume, a: Action, now: nat)
    requires Versioned(v, now) && Enabled(matches, v, a)
    ensures var v' := Apply(matches, v, a, now); v.rec.Some? && v'.rec.Some? ==>
      v'.rec.value.shared == v.rec.value.shared
  {
    if a.Step? {
      CallKeepsShared(v, a.id, a.owner, now);
    } else if a.Finalize? || a.Assign? || a.Publish? {
      WriteKeepsShared(matches, v, a, now);
    } else {
      assert Apply(matches, v, a, now).rec == v.rec;
    }
  }

  lemma ClusterStepBacked(rules: Rules, matches: Matcher, m: MountWorld, e: Event, node: string, vg: string,
                          name: string)
    requires Backed(m) && Proper(name) && MountLegal(rules, matches, m, OnCluster(e))
      && MountsAt(m, node, vg, name) != []
    ensures Lv(node, vg) in At(Next(matches, m.c, e), name).lvs
  {
    var v := At(m.c, name);
    assert Lv(node, vg) in v.lvs;
    if name == e.name && Lv(node, vg) !in Apply(matches, v, e.action, m.c.clock).lvs {
      LvsLeaveByDestroy(matches, v, e.action, m.c.clock, Lv(node, vg));
    }
  }

  lemma ClusterStepKeepsInv(rules: Rules, matches: Matcher, m: MountWorld, e: Event)
    requires rules != Code && MountInv(matches, m) && MountLegal(rules, matches, m, OnCluster(e))
    ensures MountInv(matches, MountNext(matches, m, OnCluster(e)))
  {
    var m' := MountNext(matches, m, OnCluster(e));
    NextKeepsInv(rules, matches, m.c, e);
    StepKeepsShared(matches, At(m.c, e.name), e.action, m.c.clock);
    forall node, vg, name | Proper(name) && MountsAt(m', node, vg, name) != []
      ensures Lv(node, vg) in At(m'.c, name).lvs
    {
      assert MountsAt(m, node, vg, name) != [];
      ClusterStepBacked(rules, matches, m, e, node, vg, name);
    }
    forall node, vg, name | Proper(name) && At(m'.c, name).rec.Some? && !At(m'.c, name).rec.value.shared
      ensures |MountsAt(m', node, vg, name)| <= 1
    {
      assert MountsAt(m', node, vg, name) == MountsAt(m, node, vg, name);
      if At(m.c, name).rec.None? {
        assert At(m.c, name).lvs == {};
      }
    }
  }

  // ----- Steps on the mount tables -----

  /** Mounting one volume adds a mount to no device but its own. */
  lemma PublishAdds(m: MountWorld, m': MountWorld, node: string, name: string, path: string, vol: Record, other: string,
                    vg: string, at: string)
    requires Proper(name) && Proper(other)
    requires m' == m.(tables := m.tables[node := TableOf(m, node) + [Mount(DevOf(name, vol), path)]])
    ensures MountsAt(m', at, vg, other) ==
            MountsAt(m, at, vg, other)
            + (if at == node && other == name && vg == vol.volGroup then [path] else [])
  {
    if at == node {
      AppendMounts(TableOf(m, node), Mount(DevOf(name, vol), path), VolumeDevPath(vg, other));
      if VolumeDevPath(vg, other) == DevOf(name, vol) {
        DevPathIsInjective(vg, other, vol.volGroup, name);
      }
    }
  }

  lemma PublishKeepsInv(matches: Matcher, m: MountWorld, e: MountEvent)
    requires MountInv(matches, m) && e.Publish? && MountLegal(Code, matches, m, e)
    ensures MountInv(matches, MountNext(matches, m, e))
  {
    var m', v := MountNext(matches, m, e), At(m.c, e.name);
    if v.rec.Some? {
      var vol := v.rec.value;
      var there := Lv(e.node, vol.volGroup) in v.lvs;
      if Verify(TableOf(m, e.node), e.node, e.name, vol, e.path) == MayMount && e.ok && there {
        forall node, vg, name | Proper(name)
          ensures MountsAt(m', node, vg, name) ==
                  MountsAt(m, node, vg, name)
                  + (if node == e.node && name == e.name && vg == vol.volGroup then [e.path] else [])
        {
          PublishAdds(m, m', e.node, e.name, e.path, vol, name, vg, node);
        }
      } else {
        SameTables(m, m');
      }
    }
  }

  lemma SameTables(m: MountWorld, m': MountWorld)
    requires forall node :: TableOf(m', node) == TableOf(m, node)
    ensures forall node, vg, name :: MountsAt(m', node, vg, name) == MountsAt(m, node, vg, name)
  {
  }

  /** What an unmount or a reboot leaves of a node's mounts. */
  lemma FewerMountsKeepInv(matches: Matcher, m: MountWorld, m': MountWorld)
    requires MountInv(matches, m) && m'.c == m.c
    requires forall node, vg, name :: |MountsAt(m', node, vg, name)| <= |MountsAt(m, node, vg, name)|
    ensures MountInv(matches, m')
  {
  }

  lemma UnpublishKeepsInv(matches: Matcher, m: MountWorld, e: MountEvent)
    requires MountInv(matches, m) && e.Unpublish?
    ensures MountInv(matches, MountNext(matches, m, e))
  {
    var m' := MountNext(matches, m, e);
    forall node, vg, name
      ensures |MountsAt(m', node, vg, name)| <= |MountsAt(m, node, vg, name)|
    {
      if node == e.node {
        UnmountShortens(TableOf(m, node), e.path, VolumeDevPath(vg, name));
      }
    }
    FewerMountsKeepInv(matches, m, m');
  }

  lemma MountStepKeepsInv(rules: Rules, matches: Matcher, m: MountWorld, e: MountEvent)
    requires rules != Code && MountInv(matches, m) && MountLegal(rules, matches, m, e)
    ensures MountInv(matches, MountNext(matches, m, e))
  {
    match e
    case OnCluster(event) => ClusterStepKeepsInv(rules, matches, m, event);
    case Publish(_, _, _, _) => PublishKeepsInv(matches, m, e);
    case Unpublish(_, _, _) => UnpublishKeepsInv(matches, m, e);
    case Reboot(_) => FewerMountsKeepInv(matches, m, MountNext(matches, m, e));
  }

  lemma {:induction false} MountRunKeepsInv(rules: Rules, matches: Matcher, m: MountWorld, es: seq<MountEvent>)
    requires rules != Code && MountInv(matches, m) && MountRun(rules, matches, m, es)
    ensures MountInv(matches, MountExec(rules, matches, m, es))
    decreases |es|
  {
    if es != [] {
      MountStepKeepsInv(rules, matches, m, es[0]);
      MountRunKeepsInv(rules, matches, MountNext(matches, m, es[0]), es[1..]);
    }
  }

  /**
   Over every run of the protocol, of publishes, unpublishes and reboots: all mounts of a volume
   are on its owner, of its one LV, so two nodes never have it mounted; and a volume that is not
   shared is mounted at one path at most in the whole cluster.
   */
  lemma MountsAreExclusive(rules: Rules, matches: Matcher, es: seq<MountEvent>, name: string)
    requires rules != Code && MountRun(rules, matches, MOUNT_INIT, es) && Proper(name)
    ensures var m := MountExec(rules, matches, MOUNT_INIT, es);
            forall node, vg | MountsAt(m, node, vg, name) != [] ::
              && At(m.c, name).rec.Some?
              && var r := At(m.c, name).rec.value;
                 && node == r.owner && vg == r.volGroup && At(m.c, name).lvs == {Lv(node, vg)}
                 && (!r.shared ==> |MountsAt(m, node, vg, name)| == 1)
  {
    MountRunKeepsInv(rules, matches, MOUNT_INIT, es);
    var m := MountExec(rules, matches, MOUNT_INIT, es);
    forall node, vg | MountsAt(m, node, vg, name) != []
      ensures At(m.c, name).rec.Some? && At(m.c, name).lvs == {Lv(node, vg)}
      ensures node == At(m.c, name).rec.value.owner && vg == At(m.c, name).rec.value.volGroup
    {
      assert Lv(node, vg) in At(m.c, name).lvs;
    }
  }

  /**
   In every reachable state a volume that is Ready can be published on its owner, at a first path
   or, if it is shared, at any other; that adds this mount and no other.
   */
  lemma ReadyCanBePublished(rules: Rules, matches: Matcher, es: seq<MountEvent>, name: string, path: string)
    requires rules != Code && MountRun(rules, matches, MOUNT_INIT, es) && Proper(name) && path != ""
    ensures var m := MountExec(rules, matches, MOUNT_INIT, es);
            var v := At(m.c, name);
            v.rec.Some? && v.rec.value.state == Ready && !v.rec.value.marked ==>
              var r := v.rec.value;
              var m' := MountNext(matches, m, MountEvent.Publish(r.owner, name, path, true));
              var mount, table := Mount(DevOf(name, r), path), TableOf(m, r.owner);
              && (r.shared || (forall other | other in table :: other.dev != mount.dev) ==>
                    TableOf(m', r.owner) == table + if mount in table then [] else [mount])
              && (forall node | node != r.owner :: TableOf(m', node) == TableOf(m, node)) && m'.c == m.c
  {
    MountRunKeepsInv(rules, matches, MOUNT_INIT, es);
    var m := MountExec(rules, matches, MOUNT_INIT, es);
    var v := At(m.c, name);
    if v.rec.Some? {
      VerifyIsExact(TableOf(m, v.rec.value.owner), v.rec.value.owner, name, v.rec.value, path);
    }
  }

  /** An unpublish takes the topmost mount at the path off the node's table, and touches nothing else. */
  lemma UnpublishFreesPath(matches: Matcher, m: MountWorld, node: string, path: string, k: int)
    requires IsTopmost(TableOf(m, node), path, k)
    ensures var m', table := MountNext(matches, m, Unpublish(node, path, true)), TableOf(m, node);
            && TableOf(m', node) == table[..k] + table[k + 1..] && m'.c == m.c
            && forall other | other != node :: TableOf(m', other) == TableOf(m, other)
  {
    RemovesTopmost(TableOf(m, node), path, k);
  }

  /** A reboot leaves a node without mounts, and the others as they were. */
  lemma RebootClearsMounts(matches: Matcher, m: MountWorld, node: string, at: string, vg: string, name: string)
    ensures var m' := MountNext(matches, m, Reboot(node));
            m'.c == m.c && MountsAt(m', at, vg, name) == if at == node then [] else MountsAt(m, at, vg, name)
  {
  }
}
