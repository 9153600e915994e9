/**
 What a world of volumes and snapshots can come to, step by step.
 */
module SnapshotReach {
  import opened Records
  import opened Protocol
  import opened Safety
  import opened Theorems
  import opened Progress
  import opened Snapshots
  import opened SnapshotSafety

  ghost predicate Reaches(rules: WorldRules, matches: Matcher, w: World, w': World) {
    exists es :: WorldRun(rules, matches, w, es) && WorldExec(rules, matches, w, es) == w'
  }

  lemma {:induction false} RunsJoin(rules: WorldRules, matches: Matcher, w: World, es: seq<WorldEvent>,
                                    more: seq<WorldEvent>)
    requires WorldRun(rules, matches, w, es) && WorldRun(rules, matches, WorldExec(rules, matches, w, es), more)
    ensures WorldRun(rules, matches, w, es + more)
    ensures WorldExec(rules, matches, w, es + more) == WorldExec(rules, matches, WorldExec(rules, matches, w, es), more)
    decreases |es|
  {
    if es == [] {
      assert es + more == more;
    } else {
      assert (es + more)[1..] == es[1..] + more;
      RunsJoin(rules, matches, WorldNext(matches, w, es[0]), es[1..], more);
    }
  }

  lemma ReachesTwice(rules: WorldRules, matches: Matcher, w: World, w': World, w'': World)
    requires Reaches(rules, matches, w, w') && Reaches(rules, matches, w', w'')
    ensures Reaches(rules, matches, w, w'')
  {
    var es :| WorldRun(rules, matches, w, es) && WorldExec(rules, matches, w, es) == w';
    var more :| WorldRun(rules, matches, w', more) && WorldExec(rules, matches, w', more) == w'';
    RunsJoin(rules, matches, w, es, more);
  }

  lemma ReachesItself(rules: WorldRules, matches: Matcher, w: World)
    ensures Reaches(rules, matches, w, w)
  {
    assert WorldRun(rules, matches, w, []) && WorldExec(rules, matches, w, []) == w;
  }

  lemma ReachesNext(rules: WorldRules, matches: Matcher, w: World, e: WorldEvent, w': World)
    requires WorldLegal(rules, matches, w, e) && w' == WorldNext(matches, w, e)
    ensures Reaches(rules, matches, w, w')
  {
    assert [e][1..] == [];
    assert WorldRun(rules, matches, w', []) && WorldExec(rules, matches, w', []) == w';
    assert WorldRun(rules, matches, w, [e]) && WorldExec(rules, matches, w, [e]) == w';
  }

  lemma ReachesOneMore(rules: WorldRules, matches: Matcher, w: World, w': World, e: WorldEvent, w'': World)
    requires Reaches(rules, matches, w, w') && WorldLegal(rules, matches, w', e) && w'' == WorldNext(matches, w', e)
    ensures Reaches(rules, matches, w, w'')
  {
    ReachesNext(rules, matches, w', e, w'');
    ReachesTwice(rules, matches, w, w', w'');
  }

  lemma {:induction false} CheckedRunIsRun(matches: Matcher, w: World, es: seq<WorldEvent>)
    requires WorldRun(Checked, matches, w, es)
    ensures WorldRun(Unchecked, matches, w, es)
    ensures WorldExec(Unchecked, matches, w, es) == WorldExec(Checked, matches, w, es)
    decreases |es|
  {
    if es != [] {
      CheckedRunIsRun(matches, WorldNext(matches, w, es[0]), es[1..]);
    }
  }

  lemma CheckedReaches(matches: Matcher, w: World, w': World)
    requires Reaches(Checked, matches, w, w')
    ensures Reaches(Unchecked, matches, w, w')
  {
    var es :| WorldRun(Checked, matches, w, es) && WorldExec(Checked, matches, w, es) == w';
    CheckedRunIsRun(matches, w, es);
  }

  lemma ReachedKeepsInv(matches: Matcher, w: World, w': World)
    requires WorldInv(matches, w) && Reaches(Checked, matches, w, w')
    ensures WorldInv(matches, w')
  {
    var es :| WorldRun(Checked, matches, w, es) && WorldExec(Checked, matches, w, es) == w';
    WorldRunKeepsInv(matches, w, es);
  }

  // ----- Steps of one snapshot -----

  function WithSnap(w: World, s: string, x: Snap): World {
    World(w.c.(clock := w.c.clock + 1), w.snaps[s := x])
  }

  lemma SnapStepReaches(rules: WorldRules, matches: Matcher, w: World, w': World, s: string, a: SnapAction, x: Snap)
    requires Reaches(rules, matches, w, w') && SnapLegal(rules, w', SnapAt(w', s), a)
    requires x == SnapApply(w', SnapAt(w', s), a)
    ensures Reaches(rules, matches, w, WithSnap(w', s, x))
  {
    ReachesOneMore(rules, matches, w, w', OnSnap(s, a), WithSnap(w', s, x));
  }

  /** Being put back on the queue makes no difference to a sync that takes the key off it. */
  lemma ResyncedStarts(x: Snap, node: string)
    ensures DoSnapStart(x.(queue := x.queue + {node}), node) == DoSnapStart(x, node)
  {
    assert x.queue + {node} - {node} == x.queue - {node};
  }

  /** Nothing is touched but the one snapshot. */
  predicate OnlySnap(w: World, w': World, s: string) {
    w'.c.vols == w.c.vols && w.c.clock <= w'.c.clock && s in w'.snaps && w'.snaps - {s} == w.snaps - {s}
  }

  lemma OtherSnapsStay(w: World, w': World, s: string, t: string)
    requires OnlySnap(w, w', s) && t != s
    ensures t in w'.snaps <==> t in w.snaps
    ensures t in w.snaps ==> w'.snaps[t] == w.snaps[t]
  {
    assert t in w.snaps <==> t in w.snaps - {s};
    assert t in w'.snaps <==> t in w'.snaps - {s};
    if t in w.snaps {
      assert w.snaps[t] == (w.snaps - {s})[t] && w'.snaps[t] == (w'.snaps - {s})[t];
    }
  }

  /** The owner's agent restarts, finds the record again and starts to work on it. */
  lemma SnapOwnerStarts(matches: Matcher, w: World, s: string) returns (w': World)
    requires s in w.snaps && w.snaps[s].rec.Some?
    ensures var node := w.snaps[s].rec.value.owner;
            && Reaches(Checked, matches, w, w') && OnlySnap(w, w', s) && w'.c.clock == w.c.clock + 3
            && w'.snaps[s] == DoSnapStart(SnapCrashed(w.snaps[s], node), node)
  {
    var x, node := w.snaps[s], w.snaps[s].rec.value.owner;
    var x1 := SnapCrashed(x, node);
    var x2 := x1.(queue := x1.queue + {node});
    var x3 := DoSnapStart(x1, node);
    ResyncedStarts(x1, node);
    ReachesItself(Checked, matches, w);
    var w1 := WithSnap(w, s, x1);
    SnapStepReaches(Checked, matches, w, w, s, SnapCrash(node), x1);
    var w2 := WithSnap(w1, s, x2);
    SnapStepReaches(Checked, matches, w, w1, s, SnapResync(node), x2);
    w' := WithSnap(w2, s, x3);
    SnapStepReaches(Checked, matches, w, w2, s, SnapStart(node), x3);
    UpdateSpares(w.snaps, s, x1);
    UpdateSpares(w1.snaps, s, x2);
    UpdateSpares(w2.snaps, s, x3);
  }

  lemma UpdateSpares(m: map<string, Snap>, s: string, x: Snap)
    ensures m[s := x] - {s} == m - {s}
  {
  }

  lemma SnapStepSpares(rules: WorldRules, matches: Matcher, w: World, s: string, a: SnapAction) returns (w': World)
    requires s in w.snaps && SnapLegal(rules, w, w.snaps[s], a)
    ensures Reaches(rules, matches, w, w') && OnlySnap(w, w', s) && w'.c.clock == w.c.clock + 1
    ensures w'.snaps[s] == SnapApply(w, w.snaps[s], a) && w' == WorldNext(matches, w, OnSnap(s, a))
  {
    w' := WithSnap(w, s, SnapApply(w, w.snaps[s], a));
    ReachesItself(rules, matches, w);
    SnapStepReaches(rules, matches, w, w, s, a, SnapApply(w, w.snaps[s], a));
    UpdateSpares(w.snaps, s, SnapApply(w, w.snaps[s], a));
  }

  lemma SyncUpdateSpares(m: map<string, SnapSync>, node: string, y: SnapSync)
    ensures m[node := y] - {node} == m - {node} && m - {node} - {node} == m - {node}
  {
  }

  /** The owner's agent makes the snapshot LV of a Pending snapshot record. */
  lemma SnapshotGetsMade(matches: Matcher, w: World, s: string) returns (w': World)
    requires s in w.snaps && w.snaps[s].rec.Some? && w.snaps[s].lvs == {}
    requires var r := w.snaps[s].rec.value;
             r.state == Pending && !r.marked && Lv(r.owner, r.volGroup) in At(w.c, r.origin).lvs
    ensures Reaches(Checked, matches, w, w') && OnlySnap(w, w', s)
    ensures var r, x, x' := w.snaps[s].rec.value, w.snaps[s], w'.snaps[s];
            && x'.rec == x.rec && x'.lvs == {SnapLv(r.owner, r.volGroup, r.origin)}
            && SnapInPhase(x', r.owner, SnapPublishing) && x'.syncs[r.owner].copy == r
            && x'.queue == x.queue - {r.owner} && x'.syncs - {r.owner} == x.syncs - {r.owner}
  {
    var x, r := w.snaps[s], w.snaps[s].rec.value;
    var w1 := SnapOwnerStarts(matches, w, s);
    var x1 := w1.snaps[s];
    assert At(w1.c, r.origin) == At(w.c, r.origin) && x1.syncs[r.owner] == SnapSync(SnapCreating, r);
    w' := SnapStepSpares(Checked, matches, w1, s, SnapCreate(r.owner, true));
    ReachesTwice(Checked, matches, w, w1, w');
    SyncUpdateSpares(x.syncs - {r.owner}, r.owner, x1.syncs[r.owner]);
    SyncUpdateSpares(x1.syncs, r.owner, w'.snaps[s].syncs[r.owner]);
    assert x.syncs - {r.owner} - {r.owner} == x.syncs - {r.owner};
  }

  /** The sync that made the LV of this very record says so. */
  lemma SnapshotGetsPublished(matches: Matcher, w: World, s: string, node: string) returns (w': World)
    requires s in w.snaps && w.snaps[s].rec.Some? && SnapInPhase(w.snaps[s], node, SnapPublishing)
    requires w.snaps[s].syncs[node].copy == w.snaps[s].rec.value
    requires w.snaps[s].rec.value.state == Pending && !w.snaps[s].rec.value.finalizer && !w.snaps[s].rec.value.marked
    ensures Reaches(Checked, matches, w, w') && OnlySnap(w, w', s)
    ensures w'.snaps[s].lvs == w.snaps[s].lvs && w'.snaps[s].queue == w.snaps[s].queue
    ensures w'.snaps[s].syncs == w.snaps[s].syncs - {node}
    ensures w'.snaps[s].rec == Some(w.snaps[s].rec.value.(rv := w.c.clock, finalizer := true, state := Ready))
  {
    w' := SnapStepSpares(Checked, matches, w, s, SnapPublish(node));
  }

  /** No LV but the one the record names. */
  predicate LvsNamed(x: Snap) {
    x.rec.Some? ==> x.lvs <= {SnapLv(x.rec.value.owner, x.rec.value.volGroup, x.rec.value.origin)}
  }

  predicate IsGone(x: Snap) {
    x.rec.None? && x.lvs == {}
  }

  /** Whatever a snapshot's deletion was interrupted at, the owner's agent can remove its LV and its record. */
  lemma SnapshotCanGo(matches: Matcher, w: World, s: string) returns (w': World)
    requires s in w.snaps && w.snaps[s].rec.Some? && w.snaps[s].rec.value.marked && w.snaps[s].rec.value.finalizer
    requires LvsNamed(w.snaps[s])
    ensures Reaches(Checked, matches, w, w') && OnlySnap(w, w', s) && IsGone(w'.snaps[s])
    ensures var node := w.snaps[s].rec.value.owner; w'.snaps[s].syncs - {node} == w.snaps[s].syncs - {node}
  {
    var x, r := w.snaps[s], w.snaps[s].rec.value;
    var w1 := SnapOwnerStarts(matches, w, s);
    var x1 := w1.snaps[s];
    assert x1.syncs[r.owner] == SnapSync(SnapDestroying, r) && x1.lvs == x.lvs && x1.rec == x.rec;
    var w2 := SnapStepSpares(Checked, matches, w1, s, SnapDestroy(r.owner, true));
    ReachesTwice(Checked, matches, w, w1, w2);
    var x2 := w2.snaps[s];
    assert x2.lvs == {} && x2.rec == x.rec && x2.syncs[r.owner] == SnapSync(SnapFinalizing, r);
    w' := SnapStepSpares(Checked, matches, w2, s, SnapFinalize(r.owner));
    ReachesTwice(Checked, matches, w, w2, w');
    SyncUpdateSpares(x.syncs - {r.owner}, r.owner, x1.syncs[r.owner]);
    SyncUpdateSpares(x1.syncs, r.owner, x2.syncs[r.owner]);
    SyncUpdateSpares(x2.syncs, r.owner, x2.syncs[r.owner]);
    assert x.syncs - {r.owner} - {r.owner} == x.syncs - {r.owner};
  }

  /** A delete that may go ahead leaves nothing. */
  lemma DroppedGoes(matches: Matcher, w: World, s: string) returns (w': World)
    requires s in w.snaps && w.snaps[s].rec.Some? && CanDrop(w.snaps[s]) && LvsNamed(w.snaps[s])
    ensures Reaches(Checked, matches, w, w') && OnlySnap(w, w', s) && IsGone(w'.snaps[s])
    ensures var node := w.snaps[s].rec.value.owner; w'.snaps[s].syncs - {node} == w.snaps[s].syncs - {node}
  {
    var w1 := SnapStepSpares(Checked, matches, w, s, Drop);
    if w1.snaps[s].rec.None? {
      w' := w1;
    } else {
      w' := SnapshotCanGo(matches, w1, s);
      ReachesTwice(Checked, matches, w, w1, w');
    }
  }

  /** A sync about to publish does so, and then the snapshot is deleted. */
  lemma PublisherGoes(matches: Matcher, w: World, s: string, node: string) returns (w': World)
    requires s in w.snaps && AboutToPublish(w.snaps[s], node) && LvsNamed(w.snaps[s])
    requires var r := w.snaps[s].rec.value;
             w.snaps[s].syncs[node].copy == r && r.owner == node && r.state == Pending && !r.finalizer && !r.marked
    ensures Reaches(Checked, matches, w, w') && OnlySnap(w, w', s) && IsGone(w'.snaps[s])
    ensures w'.snaps[s].syncs - {node} == w.snaps[s].syncs - {node}
  {
    var w1 := SnapshotGetsPublished(matches, w, s, node);
    w' := DroppedGoes(matches, w1, s);
    ReachesTwice(Checked, matches, w, w1, w');
    assert w.snaps[s].syncs - {node} - {node} == w.snaps[s].syncs - {node};
  }

  /** A Pending snapshot without an LV: its owner's agent lets go of it first. */
  lemma FreshGoes(matches: Matcher, w: World, s: string) returns (w': World)
    requires s in w.snaps && w.snaps[s].rec.Some? && SnapLocal(w.snaps[s], w.c.clock) && w.snaps[s].lvs == {}
    ensures Reaches(Checked, matches, w, w') && OnlySnap(w, w', s) && IsGone(w'.snaps[s])
  {
    var x, node := w.snaps[s], w.snaps[s].rec.value.owner;
    var w1 := SnapStepSpares(Checked, matches, w, s, SnapCrash(node));
    forall other | other in w1.snaps[s].syncs && !x.rec.value.finalizer
      ensures w1.snaps[s].syncs[other].phase != SnapCreating
    {
      assert SnapSyncSound(x, other, x.syncs[other], w.c.clock);
    }
    w' := DroppedGoes(matches, w1, s);
    ReachesTwice(Checked, matches, w, w1, w');
  }

  /** A snapshot that is not stuck can be deleted without a trace, whatever else there is in the world. */
  lemma SnapshotGoes(matches: Matcher, w: World, s: string) returns (w': World)
    requires s in w.snaps && w.snaps[s].rec.Some? && SnapLocal(w.snaps[s], w.c.clock) && !Stuck(w.snaps[s])
    ensures Reaches(Checked, matches, w, w') && OnlySnap(w, w', s) && IsGone(w'.snaps[s])
  {
    var x := w.snaps[s];
    if x.rec.value.state != Pending {
      w' := DroppedGoes(matches, w, s);
    } else if x.lvs == {} {
      w' := FreshGoes(matches, w, s);
    } else {
      var node :| node in x.syncs && AboutToPublish(x, node);
      assert SnapSyncSound(x, node, x.syncs[node], w.c.clock);
      w' := PublisherGoes(matches, w, s, node);
    }
  }

  // ----- Steps of one volume -----

  function WithVolume(w: World, n: string, v: Volume): World {
    w.(c := Cluster(w.c.vols[n := v], w.c.clock + 1))
  }

  lemma VolumeStepReaches(rules: WorldRules, matches: Matcher, w: World, w': World, n: string, a: Action, v: Volume)
    requires Reaches(rules, matches, w, w') && Takes(Serial, matches, At(w'.c, n), a, w'.c.clock, v)
    requires a.Validate? ==> NoSnapshotOf(w', n)
    ensures Reaches(rules, matches, w, WithVolume(w', n, v))
  {
    ReachesOneMore(rules, matches, w, w', OnVolume(Event(n, a)), WithVolume(w', n, v));
  }

  lemma FirstStepReaches(rules: WorldRules, matches: Matcher, w: World, n: string, a: Action, v: Volume)
    returns (w': World)
    requires Takes(Serial, matches, At(w.c, n), a, w.c.clock, v) && (a.Validate? ==> NoSnapshotOf(w, n))
    ensures Reaches(rules, matches, w, w') && w'.snaps == w.snaps && At(w'.c, n) == v
    ensures w'.c.clock == w.c.clock + 1 && w'.c.vols - {n} == w.c.vols - {n}
  {
    ReachesItself(rules, matches, w);
    VolumeStepReaches(rules, matches, w, w, n, a, v);
    w' := WithVolume(w, n, v);
  }

  lemma OthersStay(c: Cluster, c': Cluster, n: string, m: string)
    requires c'.vols - {n} == c.vols - {n} && m != n
    ensures At(c', m) == At(c, m)
  {
    assert m in c.vols <==> m in c.vols - {n};
    assert m in c'.vols <==> m in c'.vols - {n};
    if m in c.vols {
      assert c.vols[m] == (c.vols - {n})[m] && c'.vols[m] == (c'.vols - {n})[m];
    }
  }

  predicate OnlyVolumes(es: seq<WorldEvent>) {
    forall e | e in es :: e.OnVolume?
  }

  /** A path about a volume on which no call passes its validation is a run of the world. */
  lemma {:induction false} PathRuns(rules: WorldRules, matches: Matcher, w: World, n: string, vs: seq<Volume>,
                                    acts: seq<Action>)
    returns (es: seq<WorldEvent>, w': World)
    requires Path(Serial, matches, vs, acts, w.c.clock) && vs[0] == At(w.c, n) && forall a | a in acts :: !a.Validate?
    ensures WorldRun(rules, matches, w, es) && WorldExec(rules, matches, w, es) == w' && OnlyVolumes(es)
    ensures w'.snaps == w.snaps && At(w'.c, n) == vs[|acts|]
    ensures w'.c.clock == w.c.clock + |acts| && w'.c.vols - {n} == w.c.vols - {n}
    decreases |acts|
  {
    if acts == [] {
      es, w' := [], w;
    } else {
      var v, us, more := PathSplits(Serial, matches, vs, acts, w.c.clock);
      var first := OnVolume(Event(n, acts[0]));
      var w1 := WithVolume(w, n, v);
      assert WorldLegal(rules, matches, w, first) && WorldNext(matches, w, first) == w1;
      var rest;
      rest, w' := PathRuns(rules, matches, w1, n, us, more);
      es := [first] + rest;
      assert es[0] == first && es[1..] == rest;
    }
  }

  lemma LeadsRuns(rules: WorldRules, matches: Matcher, w: World, n: string, v: Volume, later: nat)
    returns (es: seq<WorldEvent>, w': World)
    requires Leads(matches, At(w.c, n), w.c.clock, v, later)
    ensures WorldRun(rules, matches, w, es) && WorldExec(rules, matches, w, es) == w' && OnlyVolumes(es)
    ensures w'.snaps == w.snaps && At(w'.c, n) == v && w'.c.clock == later && w'.c.vols - {n} == w.c.vols - {n}
  {
    var vs, acts :| LeadsBy(matches, At(w.c, n), w.c.clock, v, later, vs, acts);
    es, w' := PathRuns(rules, matches, w, n, vs, acts);
  }

  lemma LeadsReaches(rules: WorldRules, matches: Matcher, w: World, n: string, v: Volume, later: nat)
    returns (w': World)
    requires Leads(matches, At(w.c, n), w.c.clock, v, later)
    ensures Reaches(rules, matches, w, w') && w'.snaps == w.snaps && At(w'.c, n) == v
    ensures w'.c.clock == later && w'.c.vols - {n} == w.c.vols - {n}
  {
    var es;
    es, w' := LeadsRuns(rules, matches, w, n, v, later);
  }

  /** The owner's agent destroys the LV of a marked volume. */
  lemma VolumeGetsDestroyed(matches: Matcher, w: World, w0: World, n: string) returns (w': World)
    requires Reaches(Checked, matches, w, w0) && n in w0.c.vols && Sound(matches, At(w0.c, n))
    requires At(w0.c, n).rec.Some? && At(w0.c, n).rec.value.marked
    ensures Reaches(Checked, matches, w, w') && w'.snaps == w0.snaps && At(w'.c, n).lvs == {}
  {
    var v := At(w0.c, n);
    var node := v.rec.value.owner;
    RestartTakes(matches, v, node, w0.c.clock);
    var v3 := DoStart(Crashed(v, node), node);
    RepairTakes(matches, v, v3, w0.c.clock);
    var w1 := WithVolume(w0, n, Crashed(v, node));
    VolumeStepReaches(Checked, matches, w, w0, n, Crash(node), Crashed(v, node));
    var w2 := WithVolume(w1, n, Resynced(v, node));
    VolumeStepReaches(Checked, matches, w, w1, n, Resync(node), Resynced(v, node));
    var w3 := WithVolume(w2, n, v3);
    VolumeStepReaches(Checked, matches, w, w2, n, Start(node), v3);
    w' := WithVolume(w3, n, DoDestroy(v3, node, true));
    VolumeStepReaches(Checked, matches, w, w3, n, Destroy(node, true), DoDestroy(v3, node, true));
  }
}
