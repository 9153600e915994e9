/**
 Expand calls about one volume may overlap each other. What comes of it: of two that read the same
 record the first to write goes through, and the other is told of an error.
 */
module Overlap {
  import opened Capacity
  import opened Records
  import opened Protocol
  import opened Theorems

  function WithExpand(v: Volume, id: nat, call: Call): Volume {
    v.(calls := v.calls[id := call])
  }

  lemma ExpandBegins(matches: Matcher, v: Volume, now: nat, id: nat, size: Int64)
    requires id !in v.calls && forall other | other in v.calls :: v.calls[other].IsExpand()
    ensures Takes(Serial, matches, v, Begin(id, ExpandValidate(size)), now, WithExpand(v, id, ExpandValidate(size)))
  {
  }

  lemma ExpandPasses(matches: Matcher, v: Volume, now: nat, id: nat, size: Int64)
    ensures Takes(Serial, matches, WithExpand(v, id, ExpandValidate(size)), Validate(id, true), now,
                  WithExpand(v, id, ExpandRead(size)))
  {
    assert v.calls[id := ExpandValidate(size)][id := ExpandRead(size)] == v.calls[id := ExpandRead(size)];
  }

  lemma ExpandReads(matches: Matcher, v: Volume, now: nat, id: nat, size: Int64)
    requires v.rec.Some? && v.rec.value.capacity < RoundedCapacity(size)
    ensures Takes(Serial, matches, WithExpand(v, id, ExpandRead(size)), Step(id, ""), now,
                  WithExpand(v, id, ExpandWrite(size, v.rec.value)))
  {
    var write := ExpandWrite(size, v.rec.value);
    assert v.calls[id := ExpandRead(size)][id := write] == v.calls[id := write];
  }

  /** An expand call, begun while only expand calls run, gets as far as its write. */
  lemma ExpandGetsToWrite(matches: Matcher, vs: seq<Volume>, acts: seq<Action>, now: nat, id: nat, size: Int64)
    returns (us: seq<Volume>, more: seq<Action>)
    requires Path(Serial, matches, vs, acts, now)
    requires var v := vs[|acts|];
             && v.rec.Some? && v.rec.value.capacity < RoundedCapacity(size)
             && id !in v.calls && forall other | other in v.calls :: v.calls[other].IsExpand()
    ensures Path(Serial, matches, us, more, now) && us[0] == vs[0] && |more| == |acts| + 3
    ensures us[|more|] == WithExpand(vs[|acts|], id, ExpandWrite(size, vs[|acts|].rec.value))
  {
    var v, t := vs[|acts|], now + |acts|;
    var v1, v2 := WithExpand(v, id, ExpandValidate(size)), WithExpand(v, id, ExpandRead(size));
    ExpandBegins(matches, v, t, id, size);
    ExpandPasses(matches, v, t + 1, id, size);
    ExpandReads(matches, v, t + 2, id, size);
    us, more := vs + [v1], acts + [Begin(id, ExpandValidate(size))];
    PathGrows(Serial, matches, vs, acts, now, Begin(id, ExpandValidate(size)), v1);
    PathGrows(Serial, matches, us, more, now, Validate(id, true), v2);
    us, more := us + [v2], more + [Validate(id, true)];
    var v3 := WithExpand(v, id, ExpandWrite(size, v.rec.value));
    PathGrows(Serial, matches, us, more, now, Step(id, ""), v3);
    us, more := us + [v3], more + [Step(id, "")];
  }

  lemma WriteTakes(matches: Matcher, v: Volume, now: nat, a: Int64, b: Int64) returns (v': Volume)
    requires v.rec.Some? && v.rec.value.rv < now && (v.rec.value.marked ==> v.rec.value.finalizer)
    requires v.rec.value.capacity < RoundedCapacity(a)
    requires v.calls == map[0 := ExpandWrite(a, v.rec.value), 1 := ExpandWrite(b, v.rec.value)]
    ensures Takes(Serial, matches, v, Step(0, ""), now, v')
    ensures v'.rec == Some(v.rec.value.(rv := now, capacity := RoundedCapacity(a)))
    ensures v'.calls == map[1 := ExpandWrite(b, v.rec.value)]
    ensures CallStep(v', v'.calls[1], "", now + 1).1 == Returned(Error)
  {
    v' := DoStep(v, 0, "", now);
    assert v.calls - {0} == map[1 := ExpandWrite(b, v.rec.value)];
  }

  /**
   With P4 as callers keep it, two expand calls run at a time: the first to write goes through, and
   the other is told of an error.
   */
  lemma OverlappingExpandsCollide(matches: Matcher, v: Volume, now: nat, a: Int64, b: Int64)
    returns (vs: seq<Volume>, acts: seq<Action>)
    requires v.rec.Some? && v.calls == map[] && v.rec.value.rv < now
    requires v.rec.value.marked ==> v.rec.value.finalizer
    ensures Path(Serial, matches, vs, acts, now) && vs[0] == v
    ensures v.rec.value.capacity < RoundedCapacity(a) && v.rec.value.capacity < RoundedCapacity(b) ==>
              var v' := vs[|acts|];
              && v'.rec == Some(v.rec.value.(rv := now + 6, capacity := RoundedCapacity(a)))
              && v'.calls == map[1 := ExpandWrite(b, v.rec.value)]
              && CallStep(v', v'.calls[1], "", now + 7).1 == Returned(Error)
  {
    vs, acts := [v], [];
    if v.rec.value.capacity < RoundedCapacity(a) && v.rec.value.capacity < RoundedCapacity(b) {
      vs, acts := ExpandGetsToWrite(matches, vs, acts, now, 0, a);
      vs, acts := ExpandGetsToWrite(matches, vs, acts, now, 1, b);
      var v7 := WriteTakes(matches, vs[|acts|], now + 6, a, b);
      PathGrows(Serial, matches, vs, acts, now, Step(0, ""), v7);
      vs, acts := vs + [v7], acts + [Step(0, "")];
    }
  }
}
