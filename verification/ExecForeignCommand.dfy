/** Two more runs of the coordinator in which a session is started again while goroutines of its
    earlier records are still there. */
module ExecForeignCommand {
  import opened Collections
  import opened ExecRecords
  import opened ExecProtocol
  import opened ExecProvenance
  import opened ExecForeignResult

  // ----- a command sent under another request's record -----

  const LAST := 2 * LATER
  const OTHER := Request("a", "r", "c", "other", true)
  const STOLEN := Closed(QUEUED_LATER, FOREIGN, LATER)
  const QUEUED_LAST := NewRecord(OTHER, LAST)
  const LOG4 := LOG3 + [Created(1, "a")]
  const LOG5 := LOG4 + [Created(2, "a")]
  const LOG6 := LOG5 + [Flipped(2, "a")]
  const THIRD := Thread(OTHER, 2, false, Waiting)

  function Stale(record: Record, p: Phase, lock: Lock, log: seq<Event>): State {
    State(map["a" := record], map["a" := 2], 3, map[1 := Thread(REQ, 1, false, p), 2 := THIRD], 3, map["a" := 2], lock,
          true, log)
  }

  const THIRD_START := Start(OTHER, LAST, 0, map[], true, ReadOk, Durable)
  const STALE_FLIP := SetRunning(1, LAST, ReadOk, Durable)
  const RUNNING_LAST := Restated(QUEUED_LAST, Running, LAST)

  const T11 := State(map["a" := STOLEN], map["a" := 1], 2, map[1 := SECOND], 2, map[], Free, true, LOG4)
  const T12 := Stale(QUEUED_LAST, Waiting, Free, LOG5)
  const T13 := Stale(QUEUED_LAST, Holding, HeldBy(1), LOG5)
  const T14 := Stale(QUEUED_LAST, Ready, HeldBy(1), LOG5)
  const T15 := Stale(RUNNING_LAST, Committed(2), HeldBy(1), LOG6)
  const T16 := Stale(RUNNING_LAST, Executing(2), HeldBy(1), LOG6 + [Dispatched(2, "a", 1)])

  lemma FirstLeaves()
    ensures Reached(T11)
  {
    ForeignEnd();
    assert ReleaseStep(S10, 0, T11);
    Reach(S10, Release(0), T11);
  }

  lemma ThirdStart()
    ensures StartStep(T11, THIRD_START, T12, Ok(QUEUED_LAST.result))
  {
    var none: Store := map[];
    CollectOnly(STOLEN, LAST);
    assert StartReply(none, OTHER).None?;
    var mid := WithStore(T11, none);
    assert mid == T11.(store := map[], inc := map[]);
    assert T12 == Admitted(mid, OTHER, LAST, Durable);
  }

  lemma StartedThird()
    ensures Reached(T12)
  {
    FirstLeaves();
    ThirdStart();
    Reach(T11, THIRD_START, T12);
  }

  lemma SecondReady()
    ensures Reached(T14)
  {
    StartedThird();
    Reach(T12, Acquire(1), T13);
    Reach(T13, CheckContext(1), T14);
  }

  lemma SecondFlips()
    ensures Reached(T15)
  {
    SecondReady();
    assert SetRunningStep(T14, STALE_FLIP, T15);
    Reach(T14, STALE_FLIP, T15);
  }

  /** Some run sends the command of a finished and collected record under the record of a different
      request that started the session again. */
  lemma ForeignCommand() returns (s: State)
    ensures Reached(s)
    ensures Dispatched(2, "a", 1) in s.log && 1 in s.threads && s.threads[1].born == 1
    ensures "a" in s.store && "a" in s.inc && s.inc["a"] == 2
    ensures s.store["a"].fingerprint != s.threads[1].request.fingerprint
  {
    SecondFlips();
    assert DispatchStep(T15, 1, T16);
    Reach(T15, Dispatch(1), T16);
    s := T16;
  }

  // ----- a cancellation that hits the next record -----

  const DROPPED := Restated(QUEUED_AT_0, Canceled, 0)
  const STOPPED := Result("", "", Canceled, None, "", "context canceled", false)
  const LOG2 := [Created(0, "a"), Created(1, "a")]

  function Cut(record: Record, p: Phase, lock: Lock, active: map<SessionId, nat>): State {
    State(map["a" := record], map["a" := 1], 2, map[0 := First(true, p), 1 := SECOND], 2, active, lock, true, LOG2)
  }

  const C3 := Alone(DROPPED, Waiting, true, Free, [Created(0, "a")])
  const C4 := Cut(QUEUED_LATER, Waiting, Free, map["a" := 1])
  const C5 := Cut(QUEUED_LATER, Holding, HeldBy(0), map["a" := 1])
  const C6 := Cut(QUEUED_LATER, Ending(STOPPED, None), HeldBy(0), map["a" := 1])
  const C7 := Cut(Closed(QUEUED_LATER, STOPPED, LATER), Leaving, HeldBy(0), map[])

  lemma CancelQueued()
    ensures Reached(C3)
  {
    FirstStart();
    assert CancelStep(S2, CANCEL, C3, Ok(DROPPED.result));
    Reach(S2, CANCEL, C3);
  }

  lemma StartCut()
    ensures StartStep(C3, RESTART, C4, Ok(QUEUED_LATER.result))
  {
    var none: Store := map[];
    CollectOnly(DROPPED, LATER);
    assert StartReply(none, REQ).None?;
    var mid := WithStore(C3, none);
    assert mid == C3.(store := map[], inc := map[]);
    assert C4 == Admitted(mid, REQ, LATER, Durable);
  }

  lemma StartedCut()
    ensures Reached(C4)
  {
    CancelQueued();
    StartCut();
    Reach(C3, RESTART, C4);
  }

  lemma CutEnds()
    ensures Reached(C6)
  {
    StartedCut();
    Reach(C4, Acquire(0), C5);
    Reach(C5, CheckContext(0), C6);
  }

  /** Some run ends with a record that says canceled although its own goroutine is still waiting with
      a live context. */
  lemma ForeignCancel() returns (s: State)
    ensures Reached(s)
    ensures "a" in s.store && "a" in s.inc && s.store["a"].result.state.Canceled?
    ensures exists t :: t in s.threads && s.threads[t].born == s.inc["a"] &&
                        s.threads[t].phase == Waiting && !s.threads[t].cancelled
  {
    CutEnds();
    assert FinishStep(C6, FINISH, C7);
    Reach(C6, FINISH, C7);
    s := C7;
    assert 1 in s.threads;
  }
}
