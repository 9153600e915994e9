/**
 Publishing and unpublishing volumes as file systems: the mount tables of the nodes, and why a
 volume that is not shared is mounted in one place.
 */
module Mounts {
  import opened Records
  import opened Names

  datatype Mount = Mount(dev: string, path: string)

  type Table = seq<Mount>

  /** The paths a device is mounted at. */
  function MountsOf(table: Table, dev: string): seq<string> {
    if table == [] then []
    else MountsOf(table[..|table| - 1], dev) + if table[|table| - 1].dev == dev then [table[|table| - 1].path] else []
  }

  function DevOf(name: string, vol: Record): string {
    VolumeDevPath(vol.volGroup, name)
  }

  datatype Verdict = Refused | AlreadyMounted | MayMount

  /** What a mount request comes to on a node. */
  function Verify(table: Table, node: string, name: string, vol: Record, path: string): Verdict {
    var mounts := MountsOf(table, DevOf(name, vol));
    if path == "" || (vol.owner != "" && vol.owner != node) || !vol.finalizer then Refused
    else if path in mounts then AlreadyMounted
    else if mounts != [] && !vol.shared then Refused
    else MayMount
  }

  /** The table after a publish; `ok` is what format-and-mount comes to. */
  function Published(table: Table, node: string, name: string, vol: Record, path: string, ok: bool): Table {
    if Verify(table, node, name, vol, path) == MayMount && ok then table + [Mount(DevOf(name, vol), path)] else table
  }

  /** An unmount takes away the topmost mount at the path, whatever its device. */
  function Unpublished(table: Table, path: string, ok: bool): Table {
    if !ok then table else WithoutLast(table, path)
  }

  function WithoutLast(table: Table, path: string): Table {
    if table == [] then []
    else
      var k := |table| - 1;
      if table[k].path == path then table[..k] else WithoutLast(table[..k], path) + [table[k]]
  }

  /** The mount table of one node. */
  class NodeMounts {
    const node: string
    var table: Table

    constructor (node: string)
      ensures this.node == node && table == []
    {
      this.node, table := node, [];
    }

    /** The mounts of a device, read from the table. */
    method GetMounts(dev: string) returns (paths: seq<string>)
      ensures paths == MountsOf(table, dev)
      ensures forall p :: multiset(paths)[p] == multiset(table)[Mount(dev, p)]
    {
      paths := [];
      for i := 0 to |table|
        invariant paths == MountsOf(table[..i], dev)
      {
        assert table[..i + 1][..i] == table[..i];
        if table[i].dev == dev {
          paths := paths + [table[i].path];
        }
      }
      assert table[..|table|] == table;
      MountsOfIsExact(table, dev);
    }

    /**
     verifyMountRequest, with its search through the current mounts. The wrong node, a volume that
     is not ready, and a second place for a volume that is not shared are refused.
     */
    method VerifyMountRequest(name: string, vol: Record, path: string) returns (verdict: Verdict)
      ensures verdict == Verify(table, node, name, vol, path)
      ensures var m := Mount(DevOf(name, vol), path);
              var sound := path != "" && vol.owner in ["", node] && vol.finalizer;
              && (verdict == AlreadyMounted <==> sound && m in table)
              && (verdict == MayMount <==>
                    sound && m !in table && (vol.shared || forall other | other in table :: other.dev != m.dev))
    {
      VerifyIsExact(table, node, name, vol, path);
      if |path| == 0 {
        return Refused;
      }
      if |vol.owner| > 0 && vol.owner != node {
        return Refused;
      }
      if !vol.finalizer {
        return Refused;
      }
      var mounts := GetMounts(DevOf(name, vol));
      if |mounts| >= 1 {
        for i := 0 to |mounts|
          invariant path !in mounts[..i]
        {
          if mounts[i] == path {
            return AlreadyMounted;
          }
        }
        if !vol.shared {
          return Refused;
        }
      }
      return MayMount;
    }

    /**
     A request for a ready volume on its owner goes through if mounting works and the volume is
     shared or mounted nowhere else, or if it is mounted at the path already.
     */
    method MountVolume(name: string, vol: Record, path: string, ok: bool) returns (err: bool)
      modifies this
      ensures table == Published(old(table), node, name, vol, path, ok)
      ensures var m := Mount(DevOf(name, vol), path);
              var sound := path != "" && vol.owner in ["", node] && vol.finalizer;
              var free := vol.shared || forall other | other in old(table) :: other.dev != m.dev;
              && (!err <==> sound && (m in old(table) || (ok && free)))
              && table == old(table) + if err || m in old(table) then [] else [m]
    {
      var verdict := VerifyMountRequest(name, vol, path);
      if verdict == Refused {
        return true;
      }
      if verdict == AlreadyMounted {
        return false;
      }
      if !ok {
        return true;
      }
      table := table + [Mount(DevOf(name, vol), path)];
      err := false;
    }

    /** Takes away the topmost mount at the path, if there is one and unmounting works. */
    method UmountVolume(path: string, ok: bool) returns (err: bool)
      modifies this
      ensures table == Unpublished(old(table), path, ok)
      ensures forall k | IsTopmost(old(table), path, k) && ok :: table == old(table)[..k] + old(table)[k + 1..]
      ensures !ok || (forall m | m in old(table) :: m.path != path) ==> table == old(table)
      ensures err <==> !ok && exists m | m in old(table) :: m.path == path
    {
      var k := |table|;
      while k > 0 && table[k - 1].path != path
        invariant 0 <= k <= |table|
        invariant forall j | k <= j < |table| :: table[j].path != path
      {
        k := k - 1;
      }
      err := false;
      if k == 0 {
        NothingToRemove(table, path);
        return;
      }
      if !ok {
        assert table[k - 1].path == path;
        return true;
      }
      RemovesTopmost(table, path, k - 1);
      table := table[..k - 1] + table[k..];
    }
  }

  /** The mount at `k` is the last one at its path. */
  predicate IsTopmost(table: Table, path: string, k: int) {
    0 <= k < |table| && table[k].path == path && forall j | k < j < |table| :: table[j].path != path
  }

  lemma {:induction false} NothingToRemove(table: Table, path: string)
    requires forall j | 0 <= j < |table| :: table[j].path != path
    ensures WithoutLast(table, path) == table
  {
    if table != [] {
      NothingToRemove(table[..|table| - 1], path);
    }
  }

  /** An unmount takes the topmost mount at the path out of the table and leaves the rest in place. */
  lemma {:induction false} RemovesTopmost(table: Table, path: string, k: int)
    requires IsTopmost(table, path, k)
    ensures WithoutLast(table, path) == table[..k] + table[k + 1..]
  {
    var last := |table| - 1;
    if k < last {
      assert IsTopmost(table[..last], path, k);
      RemovesTopmost(table[..last], path, k);
      assert table[k + 1..] == table[..last][k + 1..] + [table[last]];
      assert table[..last][..k] == table[..k];
    } else {
      assert table[k + 1..] == [];
    }
  }

  lemma TopmostExists(table: Table, path: string) returns (k: int)
    requires exists m | m in table :: m.path == path
    ensures IsTopmost(table, path, k)
  {
    k := |table| - 1;
    while table[k].path != path
      invariant 0 <= k < |table| && forall j | k < j < |table| :: table[j].path != path
      decreases k
    {
      if k == 0 {
        assert forall j | 0 <= j < |table| :: table[j].path != path;
        assert false;
      }
      k := k - 1;
    }
  }

  /** The paths of a device are exactly those of its mounts, as often as it is mounted there. */
  lemma {:induction false} MountsOfIsExact(table: Table, dev: string)
    ensures forall p :: multiset(MountsOf(table, dev))[p] == multiset(table)[Mount(dev, p)]
  {
    if table != [] {
      var front, m := table[..|table| - 1], table[|table| - 1];
      MountsOfIsExact(front, dev);
      assert table == front + [m];
    }
  }

  lemma MountedIffInTable(table: Table, dev: string, path: string)
    ensures path in MountsOf(table, dev) <==> Mount(dev, path) in table
    ensures MountsOf(table, dev) == [] <==> forall m | m in table :: m.dev != dev
  {
    MountsOfIsExact(table, dev);
    assert path in MountsOf(table, dev) <==> path in multiset(MountsOf(table, dev));
    assert Mount(dev, path) in table <==> Mount(dev, path) in multiset(table);
    if MountsOf(table, dev) != [] {
      var p := MountsOf(table, dev)[0];
      assert p in multiset(MountsOf(table, dev)) && Mount(dev, p) in multiset(table);
    }
    forall m | m in table && m.dev == dev
      ensures MountsOf(table, dev) != []
    {
      assert m == Mount(dev, m.path) && m in multiset(table);
      assert m.path in multiset(MountsOf(table, dev));
    }
  }

  lemma VerifyIsExact(table: Table, node: string, name: string, vol: Record, path: string)
    ensures var m, verdict := Mount(DevOf(name, vol), path), Verify(table, node, name, vol, path);
            var sound := path != "" && vol.owner in ["", node] && vol.finalizer;
            && (verdict == AlreadyMounted <==> sound && m in table)
            && (verdict == MayMount <==>
                  sound && m !in table && (vol.shared || forall other | other in table :: other.dev != m.dev))
  {
    MountedIffInTable(table, DevOf(name, vol), path);
  }

  lemma AppendMounts(table: Table, m: Mount, dev: string)
    ensures MountsOf(table + [m], dev) == MountsOf(table, dev) + if m.dev == dev then [m.path] else []
  {
    assert (table + [m])[..|table|] == table;
  }

  /** A publish that goes through leaves the path mounted, and repeating it changes nothing. */
  lemma PublishedIsMounted(table: Table, node: string, name: string, vol: Record, path: string)
    requires Verify(table, node, name, vol, path) == MayMount
    ensures path in MountsOf(Published(table, node, name, vol, path, true), DevOf(name, vol))
    ensures forall again :: Published(Published(table, node, name, vol, path, true), node, name, vol, path, again)
                            == Published(table, node, name, vol, path, true)
  {
    AppendMounts(table, Mount(DevOf(name, vol), path), DevOf(name, vol));
  }

  /** A request on the owner for a ready volume that is not mounted yet goes through, and an unmount undoes it. */
  lemma PublishRoundTrip(table: Table, node: string, name: string, vol: Record, path: string)
    requires path != "" && vol.owner == node && vol.finalizer && MountsOf(table, DevOf(name, vol)) == []
    ensures MountsOf(Published(table, node, name, vol, path, true), DevOf(name, vol)) == [path]
    ensures Unpublished(Published(table, node, name, vol, path, true), path, true) == table
  {
    AppendMounts(table, Mount(DevOf(name, vol), path), DevOf(name, vol));
    assert (table + [Mount(DevOf(name, vol), path)])[..|table|] == table;
  }

  lemma {:induction false} MountsAppend(a: Table, b: Table, dev: string)
    ensures MountsOf(a + b, dev) == MountsOf(a, dev) + MountsOf(b, dev)
  {
    if b == [] {
      assert a + b == a;
    } else {
      var front, m := b[..|b| - 1], b[|b| - 1];
      MountsAppend(a, front, dev);
      assert a + b == a + front + [m] && b == front + [m];
      AppendMounts(a + front, m, dev);
      AppendMounts(front, m, dev);
    }
  }

  /** The mounts of a device before and after the one at `k`, with that one or without it. */
  lemma MountsAround(table: Table, k: int, dev: string)
    requires 0 <= k < |table|
    ensures var front, back := MountsOf(table[..k], dev), MountsOf(table[k + 1..], dev);
            && MountsOf(table, dev) == front + (if table[k].dev == dev then [table[k].path] else []) + back
            && MountsOf(table[..k] + table[k + 1..], dev) == front + back
  {
    MountsAppend(table[..k], table[k + 1..], dev);
    AppendMounts(table[..k], table[k], dev);
    MountsAppend(table[..k] + [table[k]], table[k + 1..], dev);
    assert table == table[..k] + [table[k]] + table[k + 1..];
  }

  /**
   An unmount takes the path away from the one device that is topmost there, and leaves the
   mounts of every device in place and in order otherwise.
   */
  lemma UnmountOnlyRemoves(table: Table, path: string, dev: string)
    ensures (forall m | m in table :: m.path != path) ==> WithoutLast(table, path) == table
    ensures forall k | IsTopmost(table, path, k) ::
              var front, back := MountsOf(table[..k], dev), MountsOf(table[k + 1..], dev);
              && MountsOf(table, dev) == front + (if table[k].dev == dev then [path] else []) + back
              && MountsOf(WithoutLast(table, path), dev) == front + back
  {
    if forall m | m in table :: m.path != path {
      NothingToRemove(table, path);
    }
    forall k | IsTopmost(table, path, k)
      ensures var front, back := MountsOf(table[..k], dev), MountsOf(table[k + 1..], dev);
              && MountsOf(table, dev) == front + (if table[k].dev == dev then [path] else []) + back
              && MountsOf(WithoutLast(table, path), dev) == front + back
    {
      RemovesTopmost(table, path, k);
      MountsAround(table, k, dev);
    }
  }

  lemma UnmountShortens(table: Table, path: string, dev: string)
    ensures |MountsOf(WithoutLast(table, path), dev)| <= |MountsOf(table, dev)|
  {
    UnmountOnlyRemoves(table, path, dev);
    if exists m | m in table :: m.path == path {
      var k := TopmostExists(table, path);
    }
  }
}
