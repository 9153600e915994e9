/**
 The node weights the scheduler gets, the capacity the controller reports, and how both agree
 with what an agent finds on its node.
 */
module Scheduling {
  import opened Capacity
  import opened Records
  import opened VolumeGroups

  // ----- Sums over maps -----

  /** The sum of a map's values. */
  ghost function Total(m: map<string, int>): int {
    if m == map[] then 0
    else
      var k :| k in m;
      m[k] + Total(m - {k})
  }

  lemma {:induction false} TotalWithout(m: map<string, int>, k: string)
    requires k in m
    ensures Total(m) == m[k] + Total(m - {k})
    decreases m
  {
    var j :| j in m && Total(m) == m[j] + Total(m - {j});
    if j != k {
      TotalWithout(m - {j}, k);
      TotalWithout(m - {k}, j);
      assert m - {j} - {k} == m - {k} - {j};
    }
  }

  /** A missing entry reads as zero. */
  function Weight(m: map<string, int>, k: string): int {
    if k in m then m[k] else 0
  }

  lemma TotalUpdates(m: map<string, int>, k: string, x: int)
    ensures Total(m[k := x]) == Total(m) - Weight(m, k) + x
  {
    var m' := m[k := x];
    TotalWithout(m', k);
    assert m' - {k} == m - {k};
    if k in m {
      TotalWithout(m, k);
    } else {
      assert m - {k} == m;
    }
  }

  // ----- Volumes per node and capacity per node -----

  /** A record as the scheduler lists it. The capacity is None when it does not parse. */
  datatype Listed = Listed(owner: string, volGroup: string, capacity: Option<Int64>)

  /** What a matching volume adds to its node's weight. */
  function Share(matches: string -> bool, byCapacity: bool, vol: Listed): int {
    if !matches(vol.volGroup) then 0
    else if !byCapacity then 1
    else if vol.capacity.Some? then vol.capacity.value else 0
  }

  predicate Counts(matches: string -> bool, byCapacity: bool, vol: Listed) {
    matches(vol.volGroup) && (byCapacity ==> vol.capacity.Some?)
  }

  /** The sum over a node's own volumes. */
  function WeightOn(matches: string -> bool, byCapacity: bool, vols: seq<Listed>, node: string): int {
    if vols == [] then 0
    else
      var k := |vols| - 1;
      WeightOn(matches, byCapacity, vols[..k], node)
      + if vols[k].owner == node then Share(matches, byCapacity, vols[k]) else 0
  }

  /** The sum over all volumes. */
  function WeightOfAll(matches: string -> bool, byCapacity: bool, vols: seq<Listed>): int {
    if vols == [] then 0
    else WeightOfAll(matches, byCapacity, vols[..|vols| - 1]) + Share(matches, byCapacity, vols[|vols| - 1])
  }

  /** The nodes that own a volume that counts. */
  function Owners(matches: string -> bool, byCapacity: bool, vols: seq<Listed>): set<string> {
    if vols == [] then {}
    else
      var k := |vols| - 1;
      Owners(matches, byCapacity, vols[..k]) + if Counts(matches, byCapacity, vols[k]) then {vols[k].owner} else {}
  }

  lemma {:induction false} OwnersAreExact(matches: string -> bool, byCapacity: bool, vols: seq<Listed>, n: string)
    ensures n in Owners(matches, byCapacity, vols) <==>
      exists vol :: vol in vols && Counts(matches, byCapacity, vol) && vol.owner == n
  {
    if vols != [] {
      OwnersAreExact(matches, byCapacity, vols[..|vols| - 1], n);
      assert vols == vols[..|vols| - 1] + [vols[|vols| - 1]];
    }
  }

  function ExactMap(matches: string -> bool, byCapacity: bool, vols: seq<Listed>): map<string, int> {
    map n | n in Owners(matches, byCapacity, vols) :: WeightOn(matches, byCapacity, vols, n)
  }

  lemma {:induction false} NoOwnerNoWeight(matches: string -> bool, byCapacity: bool, vols: seq<Listed>, n: string)
    requires n !in Owners(matches, byCapacity, vols)
    ensures WeightOn(matches, byCapacity, vols, n) == 0
  {
    if vols != [] {
      NoOwnerNoWeight(matches, byCapacity, vols[..|vols| - 1], n);
    }
  }

  lemma ExactMapStep(matches: string -> bool, byCapacity: bool, vols: seq<Listed>)
    requires vols != []
    ensures var k := |vols| - 1;
            var m, vol := ExactMap(matches, byCapacity, vols[..k]), vols[k];
            ExactMap(matches, byCapacity, vols) ==
              if Counts(matches, byCapacity, vol) then
                m[vol.owner := Weight(m, vol.owner) + Share(matches, byCapacity, vol)]
              else m
  {
    var k := |vols| - 1;
    var m, vol := ExactMap(matches, byCapacity, vols[..k]), vols[k];
    assert Weight(m, vol.owner) == WeightOn(matches, byCapacity, vols[..k], vol.owner) by {
      if vol.owner !in Owners(matches, byCapacity, vols[..k]) {
        NoOwnerNoWeight(matches, byCapacity, vols[..k], vol.owner);
      }
    }
    var m' := ExactMap(matches, byCapacity, vols);
    forall n | n in m'
      ensures n != vol.owner ==> n in m && m'[n] == m[n]
    {
    }
  }

  /** The places in the list of a node's matching volumes. */
  function PlacesOn(matches: string -> bool, vols: seq<Listed>, node: string): set<int> {
    set i | 0 <= i < |vols| && vols[i].owner == node && matches(vols[i].volGroup)
  }

  /** Without capacities a node's weight is the number of its matching volumes. */
  lemma {:induction false} WeightIsCount(matches: string -> bool, vols: seq<Listed>, node: string)
    ensures WeightOn(matches, false, vols, node) == |PlacesOn(matches, vols, node)|
  {
    if vols == [] {
      assert PlacesOn(matches, vols, node) == {};
    } else {
      var k := |vols| - 1;
      WeightIsCount(matches, vols[..k], node);
      var here := if vols[k].owner == node && matches(vols[k].volGroup) then {k} else {};
      assert PlacesOn(matches, vols, node) == PlacesOn(matches, vols[..k], node) + here;
    }
  }

  /** With capacities one more volume adds its capacity to its owner's weight, if it matches and has one. */
  lemma CapacityAddsUp(matches: string -> bool, vols: seq<Listed>, vol: Listed)
    ensures ExactMap(matches, true, []) == map[]
    ensures var m := ExactMap(matches, true, vols);
            ExactMap(matches, true, vols + [vol]) ==
              if matches(vol.volGroup) && vol.capacity.Some? then
                m[vol.owner := (if vol.owner in m then m[vol.owner] else 0) + vol.capacity.value]
              else m
  {
    assert (vols + [vol])[..|vols|] == vols;
    ExactMapStep(matches, true, vols + [vol]);
  }

  /** The weights of all nodes add up to the weight of all volumes. */
  lemma {:induction false} WeightsConserve(matches: string -> bool, byCapacity: bool, vols: seq<Listed>)
    ensures Total(ExactMap(matches, byCapacity, vols)) == WeightOfAll(matches, byCapacity, vols)
  {
    if vols == [] {
      assert ExactMap(matches, byCapacity, vols) == map[];
    } else {
      var k := |vols| - 1;
      var m := ExactMap(matches, byCapacity, vols[..k]);
      WeightsConserve(matches, byCapacity, vols[..k]);
      ExactMapStep(matches, byCapacity, vols);
      TotalUpdates(m, vols[k].owner, Weight(m, vols[k].owner) + Share(matches, byCapacity, vols[k]));
    }
  }

  /** The places in the list of all matching volumes. */
  function PlacesOfAll(matches: string -> bool, vols: seq<Listed>): set<int> {
    set i | 0 <= i < |vols| && matches(vols[i].volGroup)
  }

  lemma {:induction false} WeightOfAllIsCount(matches: string -> bool, vols: seq<Listed>)
    ensures WeightOfAll(matches, false, vols) == |PlacesOfAll(matches, vols)|
  {
    if vols == [] {
      assert PlacesOfAll(matches, vols) == {};
    } else {
      var k := |vols| - 1;
      WeightOfAllIsCount(matches, vols[..k]);
      var here := if matches(vols[k].volGroup) then {k} else {};
      assert PlacesOfAll(matches, vols) == PlacesOfAll(matches, vols[..k]) + here;
    }
  }

  lemma OwnersHavePlaces(matches: string -> bool, vols: seq<Listed>, n: string)
    ensures n in Owners(matches, false, vols) <==> PlacesOn(matches, vols, n) != {}
  {
    OwnersAreExact(matches, false, vols, n);
    if n in Owners(matches, false, vols) {
      var vol :| vol in vols && Counts(matches, false, vol) && vol.owner == n;
      var i :| 0 <= i < |vols| && vols[i] == vol;
      assert i in PlacesOn(matches, vols, n);
    }
    if PlacesOn(matches, vols, n) != {} {
      var i :| i in PlacesOn(matches, vols, n);
      assert vols[i] in vols && Counts(matches, false, vols[i]);
    }
  }

  /** The number of matching volumes on each node. */
  method GetVolumeWeightedMap(vols: seq<Listed>, matches: string -> bool) returns (nmap: map<string, int>)
    ensures nmap == ExactMap(matches, false, vols)
    ensures forall n :: n in nmap <==> PlacesOn(matches, vols, n) != {}
    ensures forall n | n in nmap :: nmap[n] == |PlacesOn(matches, vols, n)|
    ensures Total(nmap) == |PlacesOfAll(matches, vols)|
  {
    nmap := map[];
    for i := 0 to |vols|
      invariant nmap == ExactMap(matches, false, vols[..i])
    {
      assert vols[..i + 1][..i] == vols[..i];
      ExactMapStep(matches, false, vols[..i + 1]);
      if matches(vols[i].volGroup) {
        nmap := nmap[vols[i].owner := Weight(nmap, vols[i].owner) + 1];
      }
    }
    assert vols[..|vols|] == vols;
    WeightsConserve(matches, false, vols);
    WeightOfAllIsCount(matches, vols);
    forall n
      ensures n in nmap <==> PlacesOn(matches, vols, n) != {}
      ensures n in nmap ==> nmap[n] == |PlacesOn(matches, vols, n)|
    {
      WeightIsCount(matches, vols, n);
      OwnersHavePlaces(matches, vols, n);
    }
  }

  /** Arithmetic that folds every sum into a fixed range. */
  type Folding = int -> int

  predicate Additive(fold: Folding, a: int, b: int) {
    fold(fold(a) + b) == fold(a + b)
  }

  /** The 64-bit wrap-around as a folding. */
  const WRAPPING: Folding := (x: int) => Wrap64(x)

  lemma WrapIsAdditive(a: int, b: int)
    ensures Additive(WRAPPING, a, b) && WRAPPING(0) == 0
  {
    assert Wrap64(Wrap64(a) + b) == Wrap64(a + b);
  }

  function Folded(fold: Folding, m: map<string, int>): map<string, int> {
    map n | n in m :: fold(m[n])
  }

  lemma FoldedUpdates(fold: Folding, m: map<string, int>, k: string, x: int)
    requires fold(0) == 0 && Additive(fold, Weight(m, k), x)
    ensures Folded(fold, m)[k := fold(Weight(Folded(fold, m), k) + x)] == Folded(fold, m[k := Weight(m, k) + x])
  {
  }

  /** What a volume that counts does to the folded map. */
  function WithVolume(fold: Folding, matches: string -> bool, m: map<string, int>, vol: Listed): map<string, int> {
    if matches(vol.volGroup) && vol.capacity.Some? then
      m[vol.owner := fold(Weight(m, vol.owner) + vol.capacity.value)]
    else m
  }

  ghost predicate FoldsSums(fold: Folding) {
    fold(0) == 0 && forall a, b :: Additive(fold, a, b)
  }

  lemma CapacityMapStep(fold: Folding, matches: string -> bool, vols: seq<Listed>, i: int)
    requires 0 <= i < |vols| && FoldsSums(fold)
    ensures Folded(fold, ExactMap(matches, true, vols[..i + 1]))
         == WithVolume(fold, matches, Folded(fold, ExactMap(matches, true, vols[..i])), vols[i])
  {
    assert vols[..i + 1][..i] == vols[..i];
    ExactMapStep(matches, true, vols[..i + 1]);
    if Counts(matches, true, vols[i]) {
      assert Additive(fold, Weight(ExactMap(matches, true, vols[..i]), vols[i].owner), vols[i].capacity.value);
      FoldedUpdates(fold, ExactMap(matches, true, vols[..i]), vols[i].owner, vols[i].capacity.value);
    }
  }

  /** No node's sum leaves the 64-bit range. */
  predicate SumsFit(matches: string -> bool, vols: seq<Listed>) {
    forall n | n in Owners(matches, true, vols) :: -MAX_INT64 - 1 <= WeightOn(matches, true, vols, n) <= MAX_INT64
  }

  /** Where nothing overflows the weights add up to the capacity of all matching volumes. */
  lemma CapacityConserves(matches: string -> bool, vols: seq<Listed>)
    requires SumsFit(matches, vols)
    ensures Folded(WRAPPING, ExactMap(matches, true, vols)) == ExactMap(matches, true, vols)
    ensures Total(Folded(WRAPPING, ExactMap(matches, true, vols))) == WeightOfAll(matches, true, vols)
  {
    var exact := ExactMap(matches, true, vols);
    WeightsConserve(matches, true, vols);
    forall n | n in exact
      ensures Folded(WRAPPING, exact)[n] == exact[n]
    {
    }
    assert Folded(WRAPPING, exact) == exact;
  }

  /** The loop, whatever the arithmetic folds sums into. */
  method SumCapacities(vols: seq<Listed>, matches: string -> bool, fold: Folding) returns (nmap: map<string, int>)
    requires FoldsSums(fold)
    ensures nmap == Folded(fold, ExactMap(matches, true, vols))
  {
    nmap := map[];
    for i := 0 to |vols|
      invariant nmap == Folded(fold, ExactMap(matches, true, vols[..i]))
    {
      CapacityMapStep(fold, matches, vols, i);
      if matches(vols[i].volGroup) {
        if vols[i].capacity.Some? {
          nmap := nmap[vols[i].owner := fold(Weight(nmap, vols[i].owner) + vols[i].capacity.value)];
        }
      }
    }
    assert vols[..|vols|] == vols;
  }

  /** The capacity of the matching volumes on each node, in wrapping arithmetic. */
  method GetCapacityWeightedMap(vols: seq<Listed>, matches: string -> bool) returns (nmap: map<string, int>)
    ensures nmap == Folded(WRAPPING, ExactMap(matches, true, vols))
    ensures SumsFit(matches, vols) ==> Total(nmap) == WeightOfAll(matches, true, vols)
  {
    forall a, b
      ensures Additive(WRAPPING, a, b) && WRAPPING(0) == 0
    {
      WrapIsAdditive(a, b);
    }
    nmap := SumCapacities(vols, matches, WRAPPING);
    if SumsFit(matches, vols) {
      CapacityConserves(matches, vols);
    }
  }

  // ----- Free space -----

  datatype LvmNode = LvmNode(name: string, vgs: seq<VolumeGroup>)

  /** The most free space in a matching volume group, or 0. */
  function MaxFree(matches: string -> bool, vgs: seq<VolumeGroup>): Int64 {
    if vgs == [] then 0
    else
      var rest, vg := MaxFree(matches, vgs[..|vgs| - 1]), vgs[|vgs| - 1];
      if matches(vg.name) && rest < vg.free then vg.free else rest
  }

  lemma {:induction false} MaxFreeIsMaximum(matches: string -> bool, vgs: seq<VolumeGroup>)
    ensures 0 <= MaxFree(matches, vgs)
    ensures forall vg | vg in vgs && matches(vg.name) :: vg.free <= MaxFree(matches, vgs)
    ensures MaxFree(matches, vgs) > 0 ==> exists vg :: vg in vgs && matches(vg.name) && vg.free == MaxFree(matches, vgs)
  {
    if vgs != [] {
      MaxFreeIsMaximum(matches, vgs[..|vgs| - 1]);
      assert vgs == vgs[..|vgs| - 1] + [vgs[|vgs| - 1]];
    }
  }

  /** The scheduler's weights: nodes with space, the emptier the lighter. */
  function SpaceWeights(matches: string -> bool, nodes: seq<LvmNode>): map<string, int> {
    if nodes == [] then map[]
    else
      var k := |nodes| - 1;
      var m, free := SpaceWeights(matches, nodes[..k]), MaxFree(matches, nodes[k].vgs);
      if free > 0 then m[nodes[k].name := MAX_INT64 - free] else m
  }

  /** Node names are unique in a namespace. */
  predicate UniqueNames(nodes: seq<LvmNode>) {
    forall i, j | 0 <= i < j < |nodes| :: nodes[i].name != nodes[j].name
  }

  lemma {:induction false} SpaceWeightsAreExact(matches: string -> bool, nodes: seq<LvmNode>)
    requires UniqueNames(nodes)
    ensures forall n :: n in SpaceWeights(matches, nodes) ==> exists i :: 0 <= i < |nodes| && nodes[i].name == n
    ensures forall i | 0 <= i < |nodes| ::
              var n, free := nodes[i].name, MaxFree(matches, nodes[i].vgs);
              && (n in SpaceWeights(matches, nodes) <==> free > 0)
              && (free > 0 ==> SpaceWeights(matches, nodes)[n] == MAX_INT64 - free)
  {
    if nodes != [] {
      var k := |nodes| - 1;
      SpaceWeightsAreExact(matches, nodes[..k]);
      MaxFreeIsMaximum(matches, nodes[k].vgs);
      var m := SpaceWeights(matches, nodes[..k]);
      forall i | 0 <= i < |nodes|
        ensures var n, free := nodes[i].name, MaxFree(matches, nodes[i].vgs);
                && (n in SpaceWeights(matches, nodes) <==> free > 0)
                && (free > 0 ==> SpaceWeights(matches, nodes)[n] == MAX_INT64 - free)
      {
        if i < k {
          assert nodes[..k][i] == nodes[i];
        } else {
          assert nodes[k].name !in m;
        }
      }
      forall n | n in SpaceWeights(matches, nodes)
        ensures exists i :: 0 <= i < |nodes| && nodes[i].name == n
      {
        if n in m {
          var i :| 0 <= i < |nodes[..k]| && nodes[..k][i].name == n;
          assert nodes[i].name == n;
        } else {
          assert nodes[k].name == n;
        }
      }
    }
  }

  method GetSpaceWeightedMap(nodes: seq<LvmNode>, matches: string -> bool) returns (nmap: map<string, int>)
    ensures nmap == SpaceWeights(matches, nodes)
  {
    nmap := map[];
    for i := 0 to |nodes|
      invariant nmap == SpaceWeights(matches, nodes[..i])
    {
      var maxFree: Int64 := 0;
      var vgs := nodes[i].vgs;
      for j := 0 to |vgs|
        invariant maxFree == MaxFree(matches, vgs[..j])
      {
        assert vgs[..j + 1][..j] == vgs[..j];
        if matches(vgs[j].name) && maxFree < vgs[j].free {
          maxFree := vgs[j].free;
        }
      }
      assert vgs[..|vgs|] == vgs;
      assert nodes[..i + 1][..i] == nodes[..i];
      if maxFree > 0 {
        nmap := nmap[nodes[i].name := MAX_INT64 - maxFree];
      }
    }
    assert nodes[..|nodes|] == nodes;
  }

  /**
   Controller and agent agree: a thick volume of positive capacity has a candidate on a node
   exactly when the scheduler's map offers that node with enough space.
   */
  lemma ControllerAndAgentAgree(matches: string -> bool, nodes: seq<LvmNode>, i: nat, capacity: Int64)
    requires UniqueNames(nodes) && i < |nodes| && capacity > 0
    ensures var m := SpaceWeights(matches, nodes);
            Filtered(matches, capacity, false, nodes[i].vgs) != [] <==>
              nodes[i].name in m && MAX_INT64 - m[nodes[i].name] >= capacity
  {
    var vgs := nodes[i].vgs;
    SpaceWeightsAreExact(matches, nodes);
    MaxFreeIsMaximum(matches, vgs);
    FilteredMembers(matches, capacity, false, vgs);
    var list := Filtered(matches, capacity, false, vgs);
    if list != [] {
      assert list[0] in list;
    }
  }

  /** The capacity reported for the nodes named. */
  function AvailableIn(matches: string -> bool, cache: map<string, LvmNode>, names: seq<string>): Int64 {
    if names == [] then 0
    else
      var rest, n := AvailableIn(matches, cache, names[..|names| - 1]), names[|names| - 1];
      if n in cache && rest < MaxFree(matches, cache[n].vgs) then MaxFree(matches, cache[n].vgs) else rest
  }

  lemma {:induction false} AvailableIsMaximum(matches: string -> bool, cache: map<string, LvmNode>, names: seq<string>)
    ensures 0 <= AvailableIn(matches, cache, names)
    ensures forall n | n in names && n in cache :: MaxFree(matches, cache[n].vgs) <= AvailableIn(matches, cache, names)
    ensures AvailableIn(matches, cache, names) > 0 ==>
              exists n :: n in names && n in cache
                  && MaxFree(matches, cache[n].vgs) == AvailableIn(matches, cache, names)
  {
    if names != [] {
      AvailableIsMaximum(matches, cache, names[..|names| - 1]);
      assert names == names[..|names| - 1] + [names[|names| - 1]];
    }
  }

  /** One running maximum over all matching volume groups of all nodes named. */
  method GetCapacity(names: seq<string>, cache: map<string, LvmNode>, matches: string -> bool)
    returns (available: Int64)
    ensures available == AvailableIn(matches, cache, names)
  {
    available := 0;
    for i := 0 to |names|
      invariant 0 <= available == AvailableIn(matches, cache, names[..i])
    {
      assert names[..i + 1][..i] == names[..i];
      ghost var before := available;
      if names[i] in cache {
        var vgs := cache[names[i]].vgs;
        for j := 0 to |vgs|
          invariant 0 <= before <= available == Max(before, MaxFree(matches, vgs[..j]))
        {
          assert vgs[..j + 1][..j] == vgs[..j];
          if matches(vgs[j].name) {
            if available < vgs[j].free {
              available := vgs[j].free;
            }
          }
        }
        assert vgs[..|vgs|] == vgs;
      }
    }
    assert names[..|names|] == names;
  }

  /** The cache holds exactly the nodes listed. */
  predicate CacheOf(cache: map<string, LvmNode>, nodes: seq<LvmNode>) {
    && (forall n | n in cache :: cache[n] in nodes && cache[n].name == n)
    && (forall i | 0 <= i < |nodes| :: nodes[i].name in cache && cache[nodes[i].name] == nodes[i])
  }

  /** The reported capacity is what the lightest node of the scheduler's map has free, or 0 without one. */
  lemma CapacityMatchesWeights(matches: string -> bool, nodes: seq<LvmNode>, cache: map<string, LvmNode>,
                               names: seq<string>)
    requires UniqueNames(nodes) && CacheOf(cache, nodes) && forall n | n in cache :: n in names
    ensures var m, available := SpaceWeights(matches, nodes), AvailableIn(matches, cache, names);
            && (m == map[] ==> available == 0)
            && (m != map[] ==> exists n :: n in m && m[n] == MAX_INT64 - available)
            && (forall n | n in m :: MAX_INT64 - available <= m[n])
  {
    SpaceWeightsAreExact(matches, nodes);
    AvailableIsMaximum(matches, cache, names);
    var m, available := SpaceWeights(matches, nodes), AvailableIn(matches, cache, names);
    forall n | n in m
      ensures n in cache && m[n] == MAX_INT64 - MaxFree(matches, cache[n].vgs)
        && 0 < MaxFree(matches, cache[n].vgs) <= available
    {
      var i :| 0 <= i < |nodes| && nodes[i].name == n;
    }
    if available > 0 {
      var n :| n in names && n in cache && MaxFree(matches, cache[n].vgs) == available;
      var i :| 0 <= i < |nodes| && nodes[i] == cache[n];
      assert n in m && m[n] == MAX_INT64 - available;
    }
    if m != map[] {
      var n :| n in m;
      assert available > 0;
    }
  }
}
