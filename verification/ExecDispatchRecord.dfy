/** What is stored when a command is sent: the running record it was committed to, unless that was
    canceled in between. */
module ExecDispatchRecord {
  import opened Collections
  import opened ExecRecords
  import opened ExecProtocol
  import opened ExecTheorems
  import opened ExecForeignResult

  /** Incarnation `i` is stored under its session ID, and running. */
  predicate StoredRunning(s: State, i: nat, sid: SessionId) {
    sid in s.store && sid in s.inc && s.inc[sid] == i && s.store[sid].result.state.Running?
  }

  /** This step cancels the running record of incarnation `i`. */
  predicate Cancels(s: State, l: Label, s': State, i: nat, sid: SessionId) {
    && l.Cancel? && l.req.sessionId == sid && StoredRunning(s, i, sid)
    && sid in s'.store && sid in s'.inc && s'.inc[sid] == i && s'.store[sid].result.state.Canceled?
  }

  ghost predicate CanceledBefore(states: seq<State>, labels: seq<Label>, n: nat, i: nat, sid: SessionId) {
    exists m: nat :: m < n && m < |labels| && m + 1 < |states| && Cancels(states[m], labels[m], states[m + 1], i, sid)
  }

  predicate CommittedTo(s: State, t: nat, i: nat, sid: SessionId) {
    t in s.threads && s.threads[t].phase == Committed(i) && s.threads[t].request.sessionId == sid
  }

  // ----- a committed goroutine's record survives every step but a cancel -----

  ghost predicate Keeps(s: State, l: Label, s': State, t: nat, i: nat, sid: SessionId) {
    CommittedTo(s', t, i, sid) ==>
      || StoredRunning(s', i, sid)
      || (CommittedTo(s, t, i, sid) && (StoredRunning(s, i, sid) ==> Cancels(s, l, s', i, sid)))
  }

  lemma StartKeeps(s: State, l: Label, s': State, a: Answer, t: nat, i: nat, sid: SessionId)
    requires l.Start? && StartStep(s, l, s', a)
    ensures Keeps(s, l, s', t, i, sid)
  {
    hide NewRecord, SameRequest;
  }

  lemma CancelStepKeeps(s: State, l: Label, s': State, a: Answer, t: nat, i: nat, sid: SessionId)
    requires Filed(s.store) && l.Cancel? && CancelStep(s, l, s', a)
    ensures Keeps(s, l, s', t, i, sid)
  {
  }

  lemma SetRunningKeeps(s: State, l: Label, s': State, t: nat, i: nat, sid: SessionId)
    requires Filed(s.store) && s.inc.Keys == s.store.Keys && Exclusive(s.threads, s.lock)
    requires l.SetRunning? && SetRunningStep(s, l, s')
    ensures Keeps(s, l, s', t, i, sid)
  {
  }

  lemma FinishKeeps(s: State, l: Label, s': State, t: nat, i: nat, sid: SessionId)
    requires Exclusive(s.threads, s.lock) && l.Finish? && FinishStep(s, l, s')
    ensures Keeps(s, l, s', t, i, sid)
  {
  }

  lemma RecoverKeeps(s: State, l: Label, s': State, t: nat, i: nat, sid: SessionId)
    requires Placed(s.threads, s.spawned, s.births, s.up)
    requires (l.RecoverOne? && RecoverOneStep(s, l, s')) || (l.RecoverDone? && RecoverDoneStep(s, l, s'))
    ensures Keeps(s, l, s', t, i, sid)
  {
  }

  lemma QuietKeeps(s: State, l: Label, s': State, t: nat, i: nat, sid: SessionId)
    requires Step(s, l, s')
    requires !l.Start? && !l.Cancel? && !l.SetRunning? && !l.Finish? && !l.RecoverOne? && !l.RecoverDone?
    ensures Keeps(s, l, s', t, i, sid)
  {
    hide ResultFromExec;
  }

  lemma StepKeeps(s: State, l: Label, s': State, t: nat, i: nat, sid: SessionId)
    requires Inv(s) && Step(s, l, s')
    ensures Keeps(s, l, s', t, i, sid)
  {
    hide Keeps, RunningIsHeld, Logged, QueuedUntouched, LiveIsRecent, CommitsBacked, Exclusive, Placed, StartStep,
      CancelStep, AcquireStep, CheckContextStep, SetRunningStep, ClearActiveStep, DispatchStep, ReturnStep, FinishStep,
      ReleaseStep, RecoverOneStep, RecoverDoneStep;
    if l.Start? {
      var a :| StartStep(s, l, s', a);
      StartKeeps(s, l, s', a, t, i, sid);
    } else if l.Cancel? {
      var a :| CancelStep(s, l, s', a);
      CancelStepKeeps(s, l, s', a, t, i, sid);
    } else if l.SetRunning? {
      SetRunningKeeps(s, l, s', t, i, sid);
    } else if l.Finish? {
      FinishKeeps(s, l, s', t, i, sid);
    } else if l.RecoverOne? || l.RecoverDone? {
      RecoverKeeps(s, l, s', t, i, sid);
    } else {
      QuietKeeps(s, l, s', t, i, sid);
    }
  }

  lemma {:induction false} CommittedIsStored(states: seq<State>, labels: seq<Label>, n: nat, t: nat, i: nat,
                                             sid: SessionId)
    requires Run(states, labels) && n < |states| && CommittedTo(states[n], t, i, sid)
    ensures StoredRunning(states[n], i, sid) || CanceledBefore(states, labels, n, i, sid)
  {
    hide Step, Inv, StoredRunning, Cancels, CommittedTo;
    if n == 0 {
      NobodyCommitted(states[0], t, i, sid);
    } else {
      RunInv(states, labels, n - 1);
      var s, s' := states[n - 1], states[n];
      StepKeeps(s, labels[n - 1], s', t, i, sid);
      if !StoredRunning(s', i, sid) {
        CommittedIsStored(states, labels, n - 1, t, i, sid);
        if StoredRunning(s, i, sid) {
          assert Cancels(states[n - 1], labels[n - 1], states[n - 1 + 1], i, sid);
        }
      }
    }
  }

  lemma NobodyCommitted(s: State, t: nat, i: nat, sid: SessionId)
    requires Init(s)
    ensures !CommittedTo(s, t, i, sid)
  {
  }

  lemma CanceledStays(states: seq<State>, labels: seq<Label>, n: nat, i: nat, sid: SessionId)
    requires Run(states, labels) && n < |states| && CanceledBefore(states, labels, n, i, sid)
    ensures !StoredRunning(states[n], i, sid)
  {
    hide Run;
    var m: nat :| m < n && m < |labels| && m + 1 < |states| && Cancels(states[m], labels[m], states[m + 1], i, sid);
    RecordLifetime(states, labels, m + 1, n);
  }

  /** In every run, when a command is sent the record that its goroutine flipped to running is still
      stored, and running, if and only if nobody canceled it since. Neither the retention pass nor a
      start, a recovery or another goroutine takes it away. */
  lemma DispatchStored(states: seq<State>, labels: seq<Label>, n: nat, tid: nat)
    requires Run(states, labels) && n < |labels| && labels[n] == Dispatch(tid)
    ensures tid in states[n].threads && states[n].threads[tid].phase.Committed?
    ensures var th := states[n].threads[tid];
            StoredRunning(states[n], th.phase.inc, th.request.sessionId) <==>
            !CanceledBefore(states, labels, n, th.phase.inc, th.request.sessionId)
  {
    hide StoredRunning, CanceledBefore;
    assert Step(states[n], labels[n], states[n + 1]);
    var th := states[n].threads[tid];
    var i, sid := th.phase.inc, th.request.sessionId;
    hide Run;
    CommittedIsStored(states, labels, n, tid, i, sid);
    if CanceledBefore(states, labels, n, i, sid) { CanceledStays(states, labels, n, i, sid); }
  }

  // ----- a dispatch without its record -----

  const FLIPPED_LOG := [Created(0, "a"), Flipped(0, "a")]

  function Overtaken(p: Phase, log: seq<Event>): State {
    State(map["a" := QUEUED_LATER], map["a" := 1], 2, map[0 := First(true, p), 1 := SECOND], 2, map["a" := 1],
          HeldBy(0), true, log)
  }

  const D6 := Alone(CANCELED_AT_0, Committed(0), true, HeldBy(0), FLIPPED_LOG)
  const D7 := Overtaken(Committed(0), FLIPPED_LOG + [Created(1, "a")])
  const D8 := Overtaken(Executing(0), FLIPPED_LOG + [Created(1, "a"), Dispatched(0, "a", 0)])

  lemma CanceledCommitted()
    ensures Reached(D6)
  {
    Flip();
    assert CancelStep(S5, CANCEL, D6, Ok(CANCELED_AT_0.result));
    Reach(S5, CANCEL, D6);
  }

  lemma Overtake()
    ensures StartStep(D6, RESTART, D7, Ok(QUEUED_LATER.result))
  {
    var none: Store := map[];
    CollectOnly(CANCELED_AT_0, LATER);
    assert StartReply(none, REQ).None?;
    var mid := WithStore(D6, none);
    assert mid == D6.(store := map[], inc := map[]);
    assert D7 == Admitted(mid, REQ, LATER, Durable);
  }

  lemma StartOvertakes()
    ensures Reached(D7)
  {
    CanceledCommitted();
    Overtake();
    Reach(D6, RESTART, D7);
  }

  /** Some run sends a command whose record was canceled and collected; the session's next record is
      queued at that time. */
  lemma UnrecordedDispatch() returns (s: State, tid: nat, s': State)
    ensures Reached(s) && DispatchStep(s, tid, s')
    ensures forall k | k in s.inc :: s.inc[k] != s.threads[tid].phase.inc
  {
    StartOvertakes();
    s, tid, s' := D7, 0, D8;
  }
}
