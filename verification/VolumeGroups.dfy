/**
 The volume groups a node tries for a volume: the eligible ones, least free space first.
 */
module VolumeGroups {
  import opened Capacity

  datatype VolumeGroup = VolumeGroup(name: string, free: Int64)

  /** The volume group's name matches and, for a thick volume, the volume fits. */
  predicate Eligible(matches: string -> bool, capacity: Int64, thin: bool, vg: VolumeGroup) {
    matches(vg.name) && (thin || capacity <= vg.free)
  }

  function Filtered(matches: string -> bool, capacity: Int64, thin: bool, vgs: seq<VolumeGroup>): seq<VolumeGroup> {
    if vgs == [] then []
    else
      var k := |vgs| - 1;
      Filtered(matches, capacity, thin, vgs[..k]) + if Eligible(matches, capacity, thin, vgs[k]) then [vgs[k]] else []
  }

  lemma {:induction false} FilteredIsExact(matches: string -> bool, capacity: Int64, thin: bool, vgs: seq<VolumeGroup>)
    ensures forall vg ::
              multiset(Filtered(matches, capacity, thin, vgs))[vg]
              == if matches(vg.name) && (thin || capacity <= vg.free) then multiset(vgs)[vg] else 0
  {
    if vgs != [] {
      FilteredIsExact(matches, capacity, thin, vgs[..|vgs| - 1]);
      assert vgs == vgs[..|vgs| - 1] + [vgs[|vgs| - 1]];
    }
  }

  lemma FilteredMembers(matches: string -> bool, capacity: Int64, thin: bool, vgs: seq<VolumeGroup>)
    ensures forall vg :: vg in Filtered(matches, capacity, thin, vgs) <==>
      vg in vgs && Eligible(matches, capacity, thin, vg)
  {
    FilteredIsExact(matches, capacity, thin, vgs);
    assert forall vg :: vg in vgs <==> vg in multiset(vgs);
    var list := Filtered(matches, capacity, thin, vgs);
    assert forall vg :: vg in list <==> vg in multiset(list);
  }

  /** Filtering keeps the order. */
  lemma {:induction false} FilteredAppends(matches: string -> bool, capacity: Int64, thin: bool, a: seq<VolumeGroup>,
                                           b: seq<VolumeGroup>)
    ensures Filtered(matches, capacity, thin, a + b)
         == Filtered(matches, capacity, thin, a) + Filtered(matches, capacity, thin, b)
  {
    if b == [] {
      assert a + b == a;
    } else {
      var k := |b| - 1;
      assert (a + b)[..|a + b| - 1] == a + b[..k];
      FilteredAppends(matches, capacity, thin, a, b[..k]);
    }
  }

  /** The volume groups with exactly this much free space, in order. */
  function OfFree(s: seq<VolumeGroup>, k: int): seq<VolumeGroup> {
    if s == [] then [] else (if s[0].free == k then [s[0]] else []) + OfFree(s[1..], k)
  }

  ghost predicate SameByFree(s: seq<VolumeGroup>, t: seq<VolumeGroup>) {
    forall k :: OfFree(s, k) == OfFree(t, k)
  }

  predicate Sorted(s: seq<VolumeGroup>) {
    forall i, j | 0 <= i < j < |s| :: s[i].free <= s[j].free
  }

  /** `t` is `s` sorted by free space, with equals in their old order. */
  ghost predicate IsStableSort(s: seq<VolumeGroup>, t: seq<VolumeGroup>) {
    Sorted(t) && SameByFree(s, t)
  }

  lemma SeqsAssociate(a: seq<VolumeGroup>, b: seq<VolumeGroup>, c: seq<VolumeGroup>)
    ensures a + (b + c) == (a + b) + c
  {
  }

  lemma {:induction false} OfFreeAppends(s: seq<VolumeGroup>, t: seq<VolumeGroup>, k: int)
    ensures OfFree(s + t, k) == OfFree(s, k) + OfFree(t, k)
  {
    if s == [] {
      assert s + t == t;
    } else {
      OfFreeAppends(s[1..], t, k);
      var head := if s[0].free == k then [s[0]] else [];
      calc {
        OfFree(s + t, k);
        { assert (s + t)[1..] == s[1..] + t && (s + t)[0] == s[0]; }
        head + OfFree(s[1..] + t, k);
        head + (OfFree(s[1..], k) + OfFree(t, k));
        { SeqsAssociate(head, OfFree(s[1..], k), OfFree(t, k)); }
        OfFree(s, k) + OfFree(t, k);
      }
    }
  }

  /** Exchanging neighbours with different free space keeps the order among equals. */
  lemma ExchangeKeepsOrder(s: seq<VolumeGroup>, j: int, t: seq<VolumeGroup>)
    requires 0 < j < |s| && s[j - 1].free != s[j].free
    requires t == s[j - 1 := s[j]][j := s[j - 1]]
    ensures SameByFree(s, t)
  {
    var front, x, y, back := s[..j - 1], s[j - 1], s[j], s[j + 1..];
    assert s == front + ([x, y] + back) && t == front + ([y, x] + back);
    forall k
      ensures OfFree(s, k) == OfFree(t, k)
    {
      OfFreeAppends(front, [x, y] + back, k);
      OfFreeAppends(front, [y, x] + back, k);
      OfFreeAppends([x, y], back, k);
      OfFreeAppends([y, x], back, k);
      assert OfFree([x, y], k) == OfFree([y, x], k) by {
        assert [x, y][1..] == [y] && [y, x][1..] == [x];
      }
    }
  }

  lemma {:induction false} OfFreeIsExact(s: seq<VolumeGroup>, k: int)
    ensures forall vg :: vg in OfFree(s, k) <==> vg in s && vg.free == k
    ensures s != [] && s[0].free == k ==> OfFree(s, k) != [] && OfFree(s, k)[0] == s[0]
  {
    if s != [] {
      OfFreeIsExact(s[1..], k);
      assert s == [s[0]] + s[1..];
    }
  }

  lemma NonemptyByFree(t: seq<VolumeGroup>, u: seq<VolumeGroup>)
    requires SameByFree(t, u) && t != []
    ensures u != []
  {
    OfFreeIsExact(t, t[0].free);
    OfFreeIsExact(u, t[0].free);
    assert OfFree(u, t[0].free) != [];
  }

  /** There is only one stable sort, so any algorithm that yields one yields this one. */
  lemma {:induction false} StableSortIsUnique(t: seq<VolumeGroup>, u: seq<VolumeGroup>)
    requires Sorted(t) && Sorted(u) && SameByFree(t, u)
    ensures t == u
    decreases |t| + |u|
  {
    if t != [] { NonemptyByFree(t, u); }
    if u != [] { NonemptyByFree(u, t); }
    if t != [] {
      OfFreeIsExact(t, t[0].free);
      OfFreeIsExact(u, t[0].free);
      assert t[0] in OfFree(t, t[0].free);
      OfFreeIsExact(t, u[0].free);
      OfFreeIsExact(u, u[0].free);
      assert u[0] in OfFree(u, u[0].free);
      assert t[0].free == u[0].free && t[0] == u[0];
      forall k
        ensures OfFree(t[1..], k) == OfFree(u[1..], k)
      {
        var head := if t[0].free == k then [t[0]] else [];
        assert OfFree(t, k) == head + OfFree(t[1..], k) && OfFree(u, k) == head + OfFree(u[1..], k);
        assert OfFree(t, k)[|head|..] == OfFree(t[1..], k) && OfFree(u, k)[|head|..] == OfFree(u[1..], k);
      }
      StableSortIsUnique(t[1..], u[1..]);
    }
  }

  /** A stable sort is a permutation. */
  lemma {:induction false} CountByFree(s: seq<VolumeGroup>, vg: VolumeGroup)
    ensures multiset(s)[vg] == multiset(OfFree(s, vg.free))[vg]
  {
    if s != [] {
      CountByFree(s[1..], vg);
      assert s == [s[0]] + s[1..];
    }
  }

  lemma StableSortIsPermutation(s: seq<VolumeGroup>, t: seq<VolumeGroup>)
    requires SameByFree(s, t)
    ensures multiset(s) == multiset(t)
  {
    forall vg
      ensures multiset(s)[vg] == multiset(t)[vg]
    {
      CountByFree(s, vg);
      CountByFree(t, vg);
      assert OfFree(s, vg.free) == OfFree(t, vg.free);
    }
  }

  lemma SamePlaces(s: seq<VolumeGroup>, t: seq<VolumeGroup>)
    requires multiset(s) == multiset(t)
    ensures forall vg :: vg in s <==> vg in t
  {
    assert forall vg :: vg in s <==> vg in multiset(s);
    assert forall vg :: vg in t <==> vg in multiset(t);
  }

  /** Moves the element at `i` down to its place among the sorted ones before it. */
  method Insert(a: array<VolumeGroup>, i: nat)
    requires i < a.Length && Sorted(a[..i])
    modifies a
    ensures Sorted(a[..i + 1]) && SameByFree(old(a[..]), a[..])
  {
    assert forall p, q | 0 <= p < q < i :: a[..i][p].free <= a[..i][q].free;
    var j := i;
    while j > 0 && a[j].free < a[j - 1].free
      invariant 0 <= j <= i
      invariant forall p, q | 0 <= p < q <= i && q != j :: a[p].free <= a[q].free
      invariant SameByFree(old(a[..]), a[..])
    {
      ghost var before := a[..];
      a[j - 1], a[j] := a[j], a[j - 1];
      ExchangeKeepsOrder(before, j, a[..]);
      j := j - 1;
    }
  }

  /** Sorts in place by exchanging neighbours, as the standard library's insertion step does. */
  method SortByFree(a: array<VolumeGroup>)
    modifies a
    ensures IsStableSort(old(a[..]), a[..])
  {
    var i := 0;
    while i < a.Length
      invariant 0 <= i <= a.Length
      invariant Sorted(a[..i]) && SameByFree(old(a[..]), a[..])
    {
      Insert(a, i);
      i := i + 1;
    }
    assert a[..i] == a[..];
  }

  /** The list is the stable sort of exactly the eligible volume groups. */
  method GetVgPriorityList(vgs: seq<VolumeGroup>, matches: string -> bool, capacity: Int64, thin: bool)
    returns (list: seq<VolumeGroup>)
    ensures IsStableSort(Filtered(matches, capacity, thin, vgs), list)
    ensures forall vg ::
              multiset(list)[vg] == if matches(vg.name) && (thin || capacity <= vg.free) then multiset(vgs)[vg] else 0
    ensures forall vg :: vg in list <==> vg in vgs && Eligible(matches, capacity, thin, vg)
    ensures list != [] ==> forall vg | vg in vgs && Eligible(matches, capacity, thin, vg) :: list[0].free <= vg.free
  {
    var filtered: seq<VolumeGroup> := [];
    for i := 0 to |vgs|
      invariant filtered == Filtered(matches, capacity, thin, vgs[..i])
    {
      assert vgs[..i + 1][..i] == vgs[..i];
      if matches(vgs[i].name) {
        if thin || vgs[i].free >= capacity {
          filtered := filtered + [vgs[i]];
        }
      }
    }
    assert vgs[..|vgs|] == vgs;
    var a := new VolumeGroup[|filtered|](i requires 0 <= i < |filtered| => filtered[i]);
    assert a[..] == filtered;
    SortByFree(a);
    list := a[..];
    StableSortIsPermutation(filtered, list);
    FilteredIsExact(matches, capacity, thin, vgs);
    SamePlaces(list, filtered);
    FilteredMembers(matches, capacity, thin, vgs);
  }
}
