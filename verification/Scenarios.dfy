/**
 Runs of the code, with calls that do not overlap, that lead to the states in which P3 and P2
 fail. Together with the if-and-only-ifs they are concrete leaks.
 */
module Scenarios {
  import opened Capacity
  import opened Records
  import opened Protocol
  import opened Theorems
  import opened PremisesExact

  const REQ := Request(MI, "p", false, false)

  /** The record as first created, at clock 2, on node "a". */
  const PENDING := NewRecord(REQ, "a", 2)

  const V1 := IDLE.(calls := map[0 := CreateGet(REQ)])
  const V2 := IDLE.(calls := map[0 := CreateProvision(REQ)])
  const V3 := Volume(Some(PENDING), {}, map[], {"a"}, map[0 := CreatePoll(REQ, true)], History(MI, []))
  const V4 := V3.(queue := {}, syncs := map["a" := Sync(Listing, PENDING)])

  const PROVISION := [Begin(0, CreateGet(REQ)), Step(0, "a"), Step(0, "a"), Start("a")]

  /** A create call provisions the record and the agent on "a" starts to work on it. */
  lemma ProvisionPath(matches: Matcher)
    ensures Path(Serial, matches, [IDLE, V1, V2, V3, V4], PROVISION, 0)
  {
    assert Takes(Serial, matches, IDLE, PROVISION[0], 0, V1);
    assert Takes(Serial, matches, V1, PROVISION[1], 1, V2);
    assert Takes(Serial, matches, V2, PROVISION[2], 2, V3);
    assert Takes(Serial, matches, V3, PROVISION[3], 3, V4);
  }

  // ----- A Pending record is deleted while its agent is about to create -----

  const RECORDED := PENDING.(rv := 5, volGroup := "g")
  const D5 := V4.(syncs := map["a" := Sync(Assigning(["g"]), PENDING)])
  const D6 := V4.(rec := Some(RECORDED), syncs := map["a" := Sync(Creating([]), RECORDED)])
  const D7 := D6.(calls := map[])

  const ASSIGN := [List("a", ["g"]), Assign("a"), Cancel(0)]

  lemma AssignPath(matches: Matcher)
    requires matches("p", "g")
    ensures Path(Serial, matches, [V4, D5, D6, D7], ASSIGN, 4)
  {
    assert ["g"][1..] == [];
    assert Takes(Serial, matches, V4, ASSIGN[0], 4, D5);
    assert Takes(Serial, matches, D5, ASSIGN[1], 5, D6);
    assert Takes(Serial, matches, D6, ASSIGN[2], 6, D7);
  }

  const DELETE := [Begin(1, DeleteValidate), Validate(1, true), Step(1, "a")]

  /** A delete call goes as far as the delete request, whatever an unmarked record it finds. */
  lemma DeletePath(matches: Matcher, v: Volume, now: nat)
    requires v.rec.Some? && !v.rec.value.marked && v.calls == map[]
    ensures Path(Serial, matches, [v, v.(calls := map[1 := DeleteValidate]), v.(calls := map[1 := DeleteGet]),
                                   v.(calls := map[1 := DeleteDelete])], DELETE, now)
  {
    var u1, u2, u3 := v.(calls := map[1 := DeleteValidate]), v.(calls := map[1 := DeleteGet]),
      v.(calls := map[1 := DeleteDelete]);
    assert v.calls[1 := DeleteValidate] == u1.calls && u1.calls[1 := DeleteGet] == u2.calls
      && u2.calls[1 := DeleteDelete] == u3.calls;
    assert Takes(Serial, matches, v, DELETE[0], now, u1);
    assert Takes(Serial, matches, u1, DELETE[1], now + 1, u2);
    assert Takes(Serial, matches, u2, DELETE[2], now + 2, u3);
  }

  /** Both pieces up to the end of the create call. */
  lemma PendingPath(matches: Matcher)
    requires matches("p", "g")
    ensures Path(Serial, matches, [IDLE, V1, V2, V3, V4, D5, D6, D7], PROVISION + ASSIGN, 0)
  {
    ProvisionPath(matches);
    AssignPath(matches);
    PathsJoin(Serial, matches, [IDLE, V1, V2, V3, V4], PROVISION, [V4, D5, D6, D7], ASSIGN, 0);
    assert [IDLE, V1, V2, V3, V4] + [V4, D5, D6, D7][1..] == [IDLE, V1, V2, V3, V4, D5, D6, D7];
  }

  /** Two paths that meet are a run from the start. */
  lemma PathsAreRun(matches: Matcher, n: string, vs: seq<Volume>, acts: seq<Action>, us: seq<Volume>, more: seq<Action>)
    requires Path(Serial, matches, vs, acts, 0) && Path(Serial, matches, us, more, |acts|)
    requires vs[0] == IDLE && us[0] == vs[|acts|]
    ensures Run(Serial, matches, INIT, On(n, acts + more))
    ensures At(Exec(Serial, matches, INIT, On(n, acts + more)), n) == us[|more|]
  {
    PathsJoin(Serial, matches, vs, acts, us, more, 0);
    PathIsRun(Serial, matches, INIT, n, vs + us[1..], acts + more);
  }

  const DELETE_RUN := PROVISION + ASSIGN + DELETE

  const D10 := D7.(calls := map[1 := DeleteDelete])

  lemma DeleteRunIsRun(matches: Matcher, n: string)
    requires matches("p", "g")
    ensures Run(Serial, matches, INIT, On(n, DELETE_RUN))
    ensures At(Exec(Serial, matches, INIT, On(n, DELETE_RUN)), n) == D10
  {
    PendingPath(matches);
    DeletePath(matches, D7, 7);
    var vs := [IDLE, V1, V2, V3, V4, D5, D6, D7];
    var us := [D7, D7.(calls := map[1 := DeleteValidate]), D7.(calls := map[1 := DeleteGet]), D10];
    PathsAreRun(matches, n, vs, PROVISION + ASSIGN, us, DELETE);
  }

  /** The code lets a delete call remove a Pending record, and the LV that follows has no record. */
  lemma DeletingPendingLeaks(matches: Matcher, n: string)
    requires matches("p", "g")
    ensures Run(Serial, matches, INIT, On(n, DELETE_RUN))
    ensures var c := Exec(Serial, matches, INIT, On(n, DELETE_RUN));
            && Enabled(matches, At(c, n), Step(1, "a"))
            && !LeakFreeForever(matches, Next(matches, c, Event(n, Step(1, "a"))))
  {
    DeleteRunIsRun(matches, n);
    RunKeepsInv(Serial, matches, INIT, On(n, DELETE_RUN));
    assert D10.syncs["a"].phase.Creating?;
    DeleteSafeIff(matches, Exec(Serial, matches, INIT, On(n, DELETE_RUN)), n, 1, "a");
  }

  // ----- A key left on a node's queue by a delete event meets the re-created record -----

  const FAILED := PENDING.(rv := 5, state := Failed, error := Some(Internal))
  const MOVED := NewRecord(REQ, "b", 11)
  const S5 := V4.(syncs := map["a" := Sync(Failing(Internal), PENDING)])
  const S6 := V4.(rec := Some(FAILED), syncs := map[])
  const S7 := S6.(calls := map[0 := CreateDelete(REQ, true)])
  const S8 := S6.(rec := None, queue := {"a"}, calls := map[0 := CreateWaitDestroy(REQ, true)])
  const S9 := S8.(calls := map[])
  const S10 := S8.(calls := map[1 := CreateGet(REQ)])
  const S11 := S8.(calls := map[1 := CreateProvision(REQ)])
  const S12 := Volume(Some(MOVED), {}, map[], {"a", "b"}, map[1 := CreatePoll(REQ, true)], History(MI, []))

  const FAIL := [List("a", []), Publish("a"), Step(0, "b"), Step(0, "b")]

  lemma FailPath(matches: Matcher)
    ensures Path(Serial, matches, [V4, S5, S6, S7, S8], FAIL, 4)
  {
    assert S5.syncs - {"a"} == map[];
    assert Takes(Serial, matches, V4, FAIL[0], 4, S5);
    assert Takes(Serial, matches, S5, FAIL[1], 5, S6);
    CleanUpTakes(matches);
  }

  /** The create call finds the record Failed and deletes it. */
  lemma CleanUpTakes(matches: Matcher)
    ensures Takes(Serial, matches, S6, FAIL[2], 6, S7)
    ensures Takes(Serial, matches, S7, FAIL[3], 7, S8)
  {
    assert S6.calls[0 := CreateDelete(REQ, true)] == S7.calls;
    assert S7.calls[0 := CreateWaitDestroy(REQ, true)] == S8.calls;
  }

  const RECREATE := [Step(0, "b"), Begin(1, CreateGet(REQ)), Step(1, "b"), Step(1, "b")]

  lemma RecreatePath(matches: Matcher)
    ensures Path(Serial, matches, [S8, S9, S10, S11, S12], RECREATE, 8)
  {
    assert S8.calls - {0} == S9.calls && S9.calls[1 := CreateGet(REQ)] == S10.calls;
    assert Takes(Serial, matches, S8, RECREATE[0], 8, S9);
    assert Takes(Serial, matches, S9, RECREATE[1], 9, S10);
    MoveTakes(matches);
  }

  /** The second create call provisions the record on "b". */
  lemma MoveTakes(matches: Matcher)
    ensures Takes(Serial, matches, S10, RECREATE[2], 10, S11)
    ensures Takes(Serial, matches, S11, RECREATE[3], 11, S12)
  {
    assert S10.calls[1 := CreateProvision(REQ)] == S11.calls;
    assert S11.calls[1 := CreatePoll(REQ, true)] == S12.calls;
    assert {"a"} + {"b"} == {"a", "b"};
  }

  /** Both pieces up to the deletion of the record. */
  lemma FailedPath(matches: Matcher)
    ensures Path(Serial, matches, [IDLE, V1, V2, V3, V4, S5, S6, S7, S8], PROVISION + FAIL, 0)
  {
    ProvisionPath(matches);
    FailPath(matches);
    PathsJoin(Serial, matches, [IDLE, V1, V2, V3, V4], PROVISION, [V4, S5, S6, S7, S8], FAIL, 0);
    assert [IDLE, V1, V2, V3, V4] + [V4, S5, S6, S7, S8][1..] == [IDLE, V1, V2, V3, V4, S5, S6, S7, S8];
  }

  const RECREATE_RUN := PROVISION + FAIL + RECREATE

  lemma RecreateRunIsRun(matches: Matcher, n: string)
    ensures Run(Serial, matches, INIT, On(n, RECREATE_RUN))
    ensures At(Exec(Serial, matches, INIT, On(n, RECREATE_RUN)), n) == S12
  {
    FailedPath(matches);
    RecreatePath(matches);
    var vs, us := [IDLE, V1, V2, V3, V4, S5, S6, S7, S8], [S8, S9, S10, S11, S12];
    PathsAreRun(matches, n, vs, PROVISION + FAIL, us, RECREATE);
  }

  /** The code lets node "a" sync the record that node "b" owns, and an LV on the wrong node follows. */
  lemma StaleKeyLeaks(matches: Matcher, n: string)
    requires matches("p", "g")
    ensures Run(Serial, matches, INIT, On(n, RECREATE_RUN))
    ensures var c := Exec(Serial, matches, INIT, On(n, RECREATE_RUN));
            && Enabled(matches, At(c, n), Start("a"))
            && !LeakFreeForever(matches, Next(matches, c, Event(n, Start("a"))))
  {
    RecreateRunIsRun(matches, n);
    RunKeepsInv(Serial, matches, INIT, On(n, RECREATE_RUN));
    StartSafeIff(matches, Exec(Serial, matches, INIT, On(n, RECREATE_RUN)), n, "a", "g");
  }
}
