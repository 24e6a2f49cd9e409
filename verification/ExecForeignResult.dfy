/** A run of the coordinator in which a record succeeds although its command was never sent. */
module ExecForeignResult {
  import opened Collections
  import opened ExecRecords
  import opened ExecProtocol
  import opened ExecProvenance

  /** Some run ends in this state. */
  ghost predicate Reached(s: State) {
    exists s0 :: Init(s0) && Leads(s0, s)
  }

  lemma Reach(s: State, l: Label, s': State)
    requires Reached(s) && Step(s, l, s')
    ensures Reached(s')
  {
    hide Step, Leads, Init;
    var s0 :| Init(s0) && Leads(s0, s);
    LeadsOn(s0, s, l, s');
  }

  /** What is reached is reached by a run. */
  lemma ReachedByRun(s: State) returns (states: seq<State>, labels: seq<Label>)
    requires Reached(s)
    ensures Run(states, labels) && states[|labels|] == s
  {
    hide Step, Init;
    var s0 :| Init(s0) && Leads(s0, s);
    states, labels :| Path(states, labels) && states[0] == s0 && states[|labels|] == s;
  }

  const REQ := Request("a", "r", "c", "f", true)
  const LATER := RETENTION + 1
  const DONE := ExecResponse(0, "out", "", false, false, false)
  const QUEUED_AT_0 := NewRecord(REQ, 0)
  const RUNNING_AT_0 := Restated(QUEUED_AT_0, Running, 0)
  const CANCELED_AT_0 := Restated(RUNNING_AT_0, Canceled, 0)
  const QUEUED_LATER := NewRecord(REQ, LATER)
  const FOREIGN := ResultFromExec(DONE, None)
  const LOG3 := [Created(0, "a"), Flipped(0, "a"), Dispatched(0, "a", 0)]
  const SECOND := Thread(REQ, 1, false, Waiting)

  function First(cancelled: bool, p: Phase): Thread { Thread(REQ, 0, cancelled, p) }

  function Alone(record: Record, p: Phase, cancelled: bool, lock: Lock, log: seq<Event>): State {
    State(map["a" := record], map["a" := 0], 1, map[0 := First(cancelled, p)], 1, map["a" := 0], lock, true, log)
  }

  function Again(record: Record, p: Phase, active: map<SessionId, nat>): State {
    State(map["a" := record], map["a" := 1], 2, map[0 := First(true, p), 1 := SECOND], 2, active, HeldBy(0), true,
          LOG3 + [Created(1, "a")])
  }

  const BOOT := RecoverDone(0, 0, map[], true)
  const START := Start(REQ, 0, 0, map[], true, ReadOk, Durable)
  const FLIP := SetRunning(0, 0, ReadOk, Durable)
  const CANCEL := Cancel(REQ, 0, ReadOk, Durable)
  const RESTART := Start(REQ, LATER, 0, map[], true, ReadOk, Durable)
  const RETURN := Return(0, DONE, None)
  const FINISH := Finish(0, LATER, ReadOk, Durable)

  const S0 := State(map[], map[], 0, map[], 0, map[], Free, false, [])
  const S1 := S0.(up := true)
  const S2 := Alone(QUEUED_AT_0, Waiting, false, Free, [Created(0, "a")])
  const S3 := Alone(QUEUED_AT_0, Holding, false, HeldBy(0), [Created(0, "a")])
  const S4 := Alone(QUEUED_AT_0, Ready, false, HeldBy(0), [Created(0, "a")])
  const S5 := Alone(RUNNING_AT_0, Committed(0), false, HeldBy(0), [Created(0, "a"), Flipped(0, "a")])
  const S6 := Alone(RUNNING_AT_0, Executing(0), false, HeldBy(0), LOG3)
  const S7 := Alone(CANCELED_AT_0, Executing(0), true, HeldBy(0), LOG3)
  const S8 := Again(QUEUED_LATER, Executing(0), map["a" := 1])
  const S9 := Again(QUEUED_LATER, Ending(FOREIGN, Some(0)), map["a" := 1])
  const S10 := Again(Closed(QUEUED_LATER, FOREIGN, LATER), Leaving, map[])

  lemma Boot()
    ensures Reached(S1)
  {
    LeadsHere(S0);
    assert Init(S0);
    var none: Store := map[];
    assert WithStore(S0, none) == S0;
    assert Collected(S0.store, none, 0, |S0.store|, true);
    assert RecoverDoneStep(S0, BOOT, S1);
    Reach(S0, BOOT, S1);
  }

  lemma FirstStart()
    ensures Reached(S2)
  {
    Boot();
    var none: Store := map[];
    assert WithStore(S1, none) == S1;
    assert Collected(S1.store, none, 0, |S1.store|, true);
    assert StartReply(none, REQ).None?;
    assert S2 == Admitted(S1, REQ, 0, Durable);
    assert StartStep(S1, START, S2, Ok(QUEUED_AT_0.result));
    Reach(S1, START, S2);
  }

  lemma TakeLock()
    ensures Reached(S4)
  {
    FirstStart();
    Reach(S2, Acquire(0), S3);
    Reach(S3, CheckContext(0), S4);
  }

  lemma Flip()
    ensures Reached(S5)
  {
    TakeLock();
    assert SetRunningStep(S4, FLIP, S5);
    Reach(S4, FLIP, S5);
  }

  lemma Send()
    ensures Reached(S6)
  {
    Flip();
    assert DispatchStep(S5, 0, S6);
    Reach(S5, Dispatch(0), S6);
  }

  lemma CancelIt()
    ensures Reached(S7)
  {
    Send();
    assert CancelStep(S6, CANCEL, S7, Ok(CANCELED_AT_0.result));
    Reach(S6, CANCEL, S7);
  }

  lemma CollectOnly(r: Record, now: int)
    requires Terminal(r.result.state) && Expired(r, now)
    ensures Collected(map["a" := r], map[], now, |map["a" := r]|, true)
  {
    assert |map["a" := r]| == 1;
  }

  lemma SecondStart()
    ensures StartStep(S7, RESTART, S8, Ok(QUEUED_LATER.result))
  {
    var none: Store := map[];
    CollectOnly(CANCELED_AT_0, LATER);
    assert StartReply(none, REQ).None?;
    var mid := WithStore(S7, none);
    assert mid == S7.(store := map[], inc := map[]);
    assert S8 == Admitted(mid, REQ, LATER, Durable);
  }

  lemma StartAgain()
    ensures Reached(S8)
  {
    CancelIt();
    SecondStart();
    Reach(S7, RESTART, S8);
  }

  lemma Answered()
    ensures Reached(S9)
  {
    StartAgain();
    assert ReturnStep(S8, RETURN, S9);
    Reach(S8, RETURN, S9);
  }

  lemma ForeignEnd()
    ensures Reached(S10)
  {
    Answered();
    assert FinishStep(S9, FINISH, S10);
    Reach(S9, FINISH, S10);
  }

  /** Some run ends with a record that says succeeded although nobody sent that record's command. */
  lemma ForeignResult() returns (s: State)
    ensures Reached(s)
    ensures "a" in s.store && "a" in s.inc
    ensures s.store["a"].result.state.Succeeded? && !WasSent(s.log, s.inc["a"])
  {
    ForeignEnd();
    s := S10;
  }
}
