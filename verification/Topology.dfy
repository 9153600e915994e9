/**
 The nodes of a topology segment: the fast path through a label index and the full scan.
 */
module Topology {
  import opened Records

  datatype NodeObject = NodeObject(name: string, labels: map<string, string>)

  /** A node matches when it carries every label of the segment with the same value. */
  predicate Selects(segments: map<string, string>, labels: map<string, string>) {
    forall k | k in segments :: k in labels && labels[k] == segments[k]
  }

  /** The values a node is filed under in the index of a label. */
  function LabelIndexValues(key: string, node: NodeObject): seq<string> {
    if key in node.labels then [node.labels[key]] else []
  }

  type Index = map<string, seq<NodeObject>>

  function ByIndex(index: Index, value: string): seq<NodeObject> {
    if value in index then index[value] else []
  }

  /** The index a key's index function builds on this cache. */
  ghost predicate IndexOf(index: Index, key: string, cache: seq<NodeObject>) {
    forall value, node :: node in ByIndex(index, value) <==> node in cache && value in LabelIndexValues(key, node)
  }

  /** The reference: filter every node by all segments. */
  function Wanted(segments: map<string, string>, cache: seq<NodeObject>): set<string> {
    set node | node in cache && Selects(segments, node.labels) :: node.name
  }

  /** The names of the nodes that match, in order. */
  function Selected(vs: seq<NodeObject>, segments: map<string, string>): seq<string> {
    if vs == [] then []
    else
      var k := |vs| - 1;
      Selected(vs[..k], segments) + if Selects(segments, vs[k].labels) then [vs[k].name] else []
  }

  lemma {:induction false} SelectedIsExact(vs: seq<NodeObject>, segments: map<string, string>, n: string)
    ensures n in Selected(vs, segments) <==>
              exists node :: node in vs && Selects(segments, node.labels) && node.name == n
  {
    if vs != [] {
      var k := |vs| - 1;
      SelectedIsExact(vs[..k], segments, n);
      assert vs == vs[..k] + [vs[k]];
    }
  }

  /** The places of the nodes that match. */
  function PlacesOf(vs: seq<NodeObject>, segments: map<string, string>): set<int> {
    set i | 0 <= i < |vs| && Selects(segments, vs[i].labels)
  }

  /** Each node that matches is named once. */
  lemma {:induction false} SelectedCounts(vs: seq<NodeObject>, segments: map<string, string>)
    ensures |Selected(vs, segments)| == |PlacesOf(vs, segments)|
  {
    if vs == [] {
      assert PlacesOf(vs, segments) == {};
    } else {
      var k := |vs| - 1;
      SelectedCounts(vs[..k], segments);
      assert PlacesOf(vs, segments)
          == PlacesOf(vs[..k], segments) + if Selects(segments, vs[k].labels) then {k} else {};
    }
  }

  /** Filters a list of nodes by all segments. */
  method FilterNodes(vs: seq<NodeObject>, segments: map<string, string>) returns (names: seq<string>)
    ensures names == Selected(vs, segments)
    ensures forall n :: n in names <==> exists node :: node in vs && Selects(segments, node.labels) && node.name == n
    ensures |names| == |PlacesOf(vs, segments)|
  {
    names := [];
    for i := 0 to |vs|
      invariant names == Selected(vs[..i], segments)
    {
      assert vs[..i + 1][..i] == vs[..i];
      if Selects(segments, vs[i].labels) {
        names := names + [vs[i].name];
      }
    }
    assert vs[..|vs|] == vs;
    SelectedCounts(vs, segments);
    forall n
      ensures n in names <==> exists node :: node in vs && Selects(segments, node.labels) && node.name == n
    {
      SelectedIsExact(vs, segments, n);
    }
  }

  /** All three paths yield the same nodes as the full scan by all segments. */
  method FilterNodesByTopology(cache: seq<NodeObject>, index: Option<Index>, indexedKey: string,
                               segments: map<string, string>)
    returns (names: seq<string>)
    requires index.Some? ==> IndexOf(index.value, indexedKey, cache)
    ensures forall n :: n in names <==> n in Wanted(segments, cache)
  {
    if |segments| == 0 {
      names := seq(|cache|, i requires 0 <= i < |cache| => cache[i].name);
      assert forall i | 0 <= i < |cache| ::
        names[i] == cache[i].name && cache[i] in cache && Selects(segments, cache[i].labels);
    } else if index.None? {
      names := FilterNodes(cache, segments);
    } else if indexedKey in segments {
      names := FilterNodes(ByIndex(index.value, segments[indexedKey]), segments);
    } else {
      names := FilterNodes(cache, segments);
    }
  }

  /** The index may answer for the scan because it holds exactly the nodes with the value. */
  lemma IndexRefinesScan(cache: seq<NodeObject>, index: Index, key: string, segments: map<string, string>)
    requires IndexOf(index, key, cache) && key in segments
    ensures Wanted(segments, ByIndex(index, segments[key])) == Wanted(segments, cache)
  {
    forall node
      ensures node in ByIndex(index, segments[key]) && Selects(segments, node.labels) <==>
        node in cache && Selects(segments, node.labels)
    {
      assert Selects(segments, node.labels) ==> segments[key] in LabelIndexValues(key, node);
    }
  }
}
