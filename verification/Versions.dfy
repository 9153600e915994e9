/**
 What compare-and-swap on resource versions gives, with no premise at all: a copy that is
 still current equals the stored record, so no write is lost.
 */
module Versions {
  import opened Capacity
  import opened Records
  import opened Protocol

  /** A copy is out of date or equal to what is stored. */
  predicate Fresh(v: Volume, copy: Record, now: nat) {
    copy.rv < now && (Current(v, copy) ==> v.rec.value == copy)
  }

  predicate FreshCall(v: Volume, call: Call, now: nat) {
    call.ExpandWrite? ==> Fresh(v, call.copy, now) && call.copy.capacity < RoundedCapacity(call.size)
  }

  predicate VersionedRecord(v: Volume, now: nat) {
    v.rec.Some? ==>
      && v.rec.value.rv < now && v.rec.value.uid < now
      && v.rec.value.capacity == Peak(v.hist)
  }

  predicate Versioned(v: Volume, now: nat) {
    && VersionedRecord(v, now)
    && (forall node | node in v.syncs :: Fresh(v, v.syncs[node].copy, now))
    && (forall id | id in v.calls :: FreshCall(v, v.calls[id], now))
  }

  /** What no step changes in a record, and in which direction the rest moves. */
  predicate Descends(r: Record, r': Record) {
    && r'.uid == r.uid && r'.owner == r.owner && r'.vgPattern == r.vgPattern
    && r'.thin == r.thin && r'.shared == r.shared
    && r.capacity <= r'.capacity
    && (r.marked ==> r'.marked)
  }

  /** A record older than `now` was there before, and descends from what it was. */
  predicate Evolves(v: Volume, v': Volume, now: nat) {
    v'.rec.Some? && v'.rec.value.uid < now ==> v.rec.Some? && Descends(v.rec.value, v'.rec.value)
  }

  /** A step leaves the record alone, removes it, or writes it with the resource version `now`. */
  predicate Stamped(v: Volume, v': Volume, now: nat) {
    && VersionedRecord(v', now + 1)
    && (v'.rec == v.rec || v'.rec.None? || v'.rec.value.rv == now)
    && Evolves(v, v', now)
  }

  /** Every copy held after the step was held before or is the record written. */
  predicate Remembers(v: Volume, v': Volume, now: nat) {
    && (forall node | node in v'.syncs ::
          v'.rec == Some(v'.syncs[node].copy) || Fresh(v, v'.syncs[node].copy, now))
    && (forall id | id in v'.calls :: FreshCall(v, v'.calls[id], now))
  }

  lemma StampedKeepsVersions(v: Volume, v': Volume, now: nat)
    requires Versioned(v, now) && Stamped(v, v', now) && Remembers(v, v', now)
    ensures Versioned(v', now + 1)
  {
  }

  lemma PeakAppends(h: History, size: Int64)
    ensures Peak(h.(expanded := h.expanded + [size])) == Max(Peak(h), RoundedCapacity(size))
  {
    assert (h.expanded + [size])[..|h.expanded|] == h.expanded;
  }

  lemma CreateStepStamps(v: Volume, id: nat, owner: string, now: nat)
    requires Versioned(v, now) && id in v.calls && !v.calls[id].IsExpand()
    ensures Stamped(v, DoStep(v, id, owner, now), now) && Remembers(v, DoStep(v, id, owner, now), now)
  {
  }

  lemma ExpandReadStamps(v: Volume, id: nat, owner: string, now: nat)
    requires Versioned(v, now) && id in v.calls && v.calls[id].ExpandRead?
    ensures Stamped(v, DoStep(v, id, owner, now), now) && Remembers(v, DoStep(v, id, owner, now), now)
  {
    PeakAppends(v.hist, v.calls[id].size);
  }

  /** An expansion writes the larger capacity through a current copy. */
  lemma ExpandedStamps(v: Volume, size: Int64, now: nat)
    requires Versioned(v, now) && v.rec.Some? && v.rec.value.capacity < RoundedCapacity(size)
    ensures Stamped(v, Expand(Write(v, v.rec.value.(capacity := RoundedCapacity(size)), now), size), now)
  {
    PeakAppends(v.hist, size);
  }

  lemma ExpandWriteStamps(v: Volume, id: nat, owner: string, now: nat)
    requires Versioned(v, now) && id in v.calls && v.calls[id].ExpandWrite?
    ensures Stamped(v, DoStep(v, id, owner, now), now) && Remembers(v, DoStep(v, id, owner, now), now)
  {
    var call := v.calls[id];
    assert FreshCall(v, call, now);
    if Current(v, call.copy) {
      ExpandedStamps(v, call.size, now);
    }
  }

  /** A write through a current copy that keeps the capacity. */
  lemma WriteStamps(v: Volume, r: Record, now: nat)
    requires Versioned(v, now) && v.rec.Some?
    requires Descends(v.rec.value, r) && r.rv == v.rec.value.rv && r.capacity == v.rec.value.capacity
    ensures Stamped(v, Write(v, r, now), now)
  {
  }

  lemma FinalizeStamps(v: Volume, node: string, now: nat)
    requires Versioned(v, now) && node in v.syncs
    ensures Stamped(v, DoFinalize(v, node, now), now) && Remembers(v, DoFinalize(v, node, now), now)
  {
    var copy := v.syncs[node].copy;
    if Current(v, copy) {
      WriteStamps(v, copy.(finalizer := false), now);
    }
  }

  lemma AssignStamps(v: Volume, node: string, now: nat)
    requires Versioned(v, now)
    requires node in v.syncs && v.syncs[node].phase.Assigning? && v.syncs[node].phase.rest != []
    ensures Stamped(v, DoAssign(v, node, now), now) && Remembers(v, DoAssign(v, node, now), now)
  {
    var y := v.syncs[node];
    if Current(v, y.copy) {
      WriteStamps(v, y.copy.(volGroup := y.phase.rest[0]), now);
    }
  }

  lemma PublishStamps(v: Volume, node: string, now: nat)
    requires Versioned(v, now) && node in v.syncs
    ensures Stamped(v, DoPublish(v, node, now), now) && Remembers(v, DoPublish(v, node, now), now)
  {
    var y := v.syncs[node];
    if Current(v, y.copy) {
      WriteStamps(v, Outcome(y), now);
    }
  }

  /** Agent steps that write no record. */
  lemma AgentStepStamps(matches: Matcher, v: Volume, a: Action, now: nat)
    requires Versioned(v, now) && Enabled(matches, v, a)
    requires a.Start? || a.Destroy? || a.Create? || a.List? || a.Abort? || a.Crash? || a.Resync?
    ensures Stamped(v, Apply(matches, v, a, now), now) && Remembers(v, Apply(matches, v, a, now), now)
  {
    var v' := Apply(matches, v, a, now);
    assert v'.rec == v.rec && v'.hist == v.hist && v'.calls == v.calls;
  }

  lemma CallStepStamps(matches: Matcher, v: Volume, a: Action, now: nat)
    requires Versioned(v, now) && Enabled(matches, v, a)
    requires a.Begin? || a.Validate? || a.Cancel?
    ensures Stamped(v, Apply(matches, v, a, now), now) && Remembers(v, Apply(matches, v, a, now), now)
  {
    var v' := Apply(matches, v, a, now);
    assert v'.rec == v.rec && v'.hist == v.hist && v'.syncs == v.syncs;
  }

  lemma StepStamps(matches: Matcher, v: Volume, a: Action, now: nat)
    requires Versioned(v, now) && Enabled(matches, v, a)
    ensures Stamped(v, Apply(matches, v, a, now), now) && Remembers(v, Apply(matches, v, a, now), now)
  {
    match a
    case Step(id, owner) =>
      if v.calls[id].ExpandRead? { ExpandReadStamps(v, id, owner, now); }
      else if v.calls[id].ExpandWrite? { ExpandWriteStamps(v, id, owner, now); }
      else { CreateStepStamps(v, id, owner, now); }
    case Finalize(node) => FinalizeStamps(v, node, now);
    case Assign(node) => AssignStamps(v, node, now);
    case Publish(node) => PublishStamps(v, node, now);
    case _ =>
      if a.Begin? || a.Validate? || a.Cancel? { CallStepStamps(matches, v, a, now); }
      else { AgentStepStamps(matches, v, a, now); }
  }

  predicate AllVersioned(c: Cluster) {
    forall n | n in c.vols :: Versioned(c.vols[n], c.clock)
  }

  lemma NextKeepsVersions(rules: Rules, matches: Matcher, c: Cluster, e: Event)
    requires AllVersioned(c) && Legal(rules, matches, c, e)
    ensures AllVersioned(Next(matches, c, e))
    ensures forall n :: Evolves(At(c, n), At(Next(matches, c, e), n), c.clock)
  {
    var v, v' := At(c, e.name), At(Next(matches, c, e), e.name);
    StepStamps(matches, v, e.action, c.clock);
    StampedKeepsVersions(v, v', c.clock);
  }

  /**
   No lost updates, over any run of the code: a record found at the end that is as old as the
   start kept its owner, its pattern and its flags, and its capacity did not shrink.
   */
  lemma {:induction false} NoLostUpdates(rules: Rules, matches: Matcher, c: Cluster, es: seq<Event>)
    requires AllVersioned(c) && Run(rules, matches, c, es)
    ensures AllVersioned(Exec(rules, matches, c, es))
    ensures c.clock <= Exec(rules, matches, c, es).clock
    ensures forall n :: Evolves(At(c, n), At(Exec(rules, matches, c, es), n), c.clock)
    decreases |es|
  {
    if es != [] {
      NextKeepsVersions(rules, matches, c, es[0]);
      NoLostUpdates(rules, matches, Next(matches, c, es[0]), es[1..]);
    }
  }

  /**
   In every reachable state a record's capacity is the maximum of the created size and the
   sizes of all successful expansions, in whatever order they came. It is a fixed point of
   rounding when the requests are in range.
   */
  lemma CapacityIsPeak(rules: Rules, matches: Matcher, es: seq<Event>, n: string)
    requires Run(rules, matches, INIT, es)
    ensures var v := At(Exec(rules, matches, INIT, es), n);
            v.rec.Some? ==>
              && PeakedAt(v.hist, v.rec.value.capacity)
              && (InRange(v.hist.created) && (forall q | q in v.hist.expanded :: InRange(q)) ==>
                    RoundedCapacity(v.rec.value.capacity) == v.rec.value.capacity)
  {
    NoLostUpdates(rules, matches, INIT, es);
    var v := At(Exec(rules, matches, INIT, es), n);
    if v.rec.Some? {
      PeakIsMaximum(v.hist);
      if InRange(v.hist.created) && forall q | q in v.hist.expanded :: InRange(q) {
        var q :| (q == v.hist.created || q in v.hist.expanded) && v.rec.value.capacity == RoundedCapacity(q);
        RoundedIsClosure(q, q);
      }
    }
  }
}
