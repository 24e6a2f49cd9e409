/** Whose command a dispatch sends. A goroutine sends the command it was started with, but flips and
    runs whatever record lies under its session ID. This module follows every goroutine back to the
    start that spawned it and says exactly when the two belong together. */
module ExecOwnership {
  import opened Collections
  import opened ExecRecords
  import opened ExecProtocol
  import opened ExecTheorems
  import opened ExecProvenance

  // ----- the invariant -----

  /** The incarnation a goroutine has committed to and not yet finished. */
  function RunInc(p: Phase): Option<nat> {
    match p
    case Committed(i) => Some(i)
    case Executing(i) => Some(i)
    case _ => None
  }

  /** The command may have been sent. */
  predicate Past(p: Phase) { p.Executing? || p.Ending? || p.Leaving? || p.Dying? }

  /** When the record was flipped to running it was the one the goroutine was started for exactly
      when the session had not been started again by then. */
  ghost predicate FlippedAt(log: seq<Event>, f: nat, i: nat, sid: SessionId, born: nat) {
    f < |log| && log[f] == Flipped(i, sid) && (born == i <==> NotRestarted(log[..f], sid, born))
  }

  ghost predicate OwnedThread(log: seq<Event>, th: Thread) {
    && Created(th.born, th.request.sessionId) in log
    && (RunInc(th.phase).Some? ==>
          exists f: nat :: FlippedAt(log, f, RunInc(th.phase).value, th.request.sessionId, th.born))
  }

  ghost predicate Owned(threads: map<nat, Thread>, log: seq<Event>) {
    forall t | t in threads :: OwnedThread(log, threads[t])
  }

  /** No goroutine has sent its command twice. */
  ghost predicate OncePerGoroutine(log: seq<Event>) {
    forall i, j | 0 <= i < j < |log| && log[i].Dispatched? && log[j].Dispatched? :: log[i].tid != log[j].tid
  }

  ghost predicate Sole(threads: map<nat, Thread>, spawned: nat, log: seq<Event>) {
    && OncePerGoroutine(log)
    && (forall e | e in log && e.Dispatched? :: e.tid < spawned)
    && (forall e | e in log && e.Dispatched? && e.tid in threads :: Past(threads[e.tid].phase))
    && (forall t | t in threads :: t < spawned)
  }

  // ----- steps that neither flip nor dispatch -----

  /** A goroutine goes on, or a new one is there. */
  ghost predicate Carries(s: State, s': State, t: nat)
    requires t in s'.threads
  {
    var th' := s'.threads[t];
    || (&& t in s.threads
        && var th := s.threads[t];
           && th'.born == th.born && th'.request == th.request
           && (RunInc(th'.phase) == None || RunInc(th'.phase) == RunInc(th.phase))
           && (Past(th.phase) ==> Past(th'.phase)))
    || (&& t == s.spawned < s'.spawned && th'.phase == Waiting
        && Created(th'.born, th'.request.sessionId) in s'.log)
  }

  ghost predicate Moves(s: State, s': State) {
    && s.log <= s'.log
    && (forall e | e in s'.log && e.Dispatched? :: e in s.log)
    && (forall i | |s.log| <= i < |s'.log| :: !s'.log[i].Dispatched?)
    && s.spawned <= s'.spawned
    && forall t | t in s'.threads :: Carries(s, s', t)
  }

  lemma MovesOwned(s: State, s': State)
    requires Moves(s, s') && Owned(s.threads, s.log)
    ensures Owned(s'.threads, s'.log)
  {
    forall t | t in s'.threads
      ensures OwnedThread(s'.log, s'.threads[t])
    {
      assert Carries(s, s', t);
      var th' := s'.threads[t];
      if th'.phase != Waiting || Created(th'.born, th'.request.sessionId) !in s'.log {
        OwnedGrows(s.log, s'.log, s.threads[t], th');
      }
    }
  }

  lemma OwnedGrows(log: seq<Event>, log': seq<Event>, th: Thread, th': Thread)
    requires log <= log' && OwnedThread(log, th) && th'.born == th.born && th'.request == th.request
    requires RunInc(th'.phase) == None || RunInc(th'.phase) == RunInc(th.phase)
    ensures OwnedThread(log', th')
  {
    if RunInc(th'.phase).Some? {
      var f: nat :| FlippedAt(log, f, RunInc(th.phase).value, th.request.sessionId, th.born);
      assert log'[..f] == log[..f];
      assert FlippedAt(log', f, RunInc(th.phase).value, th.request.sessionId, th.born);
    }
  }

  lemma MovesSole(s: State, s': State)
    requires Moves(s, s') && Sole(s.threads, s.spawned, s.log)
    ensures Sole(s'.threads, s'.spawned, s'.log)
  {
    forall i, j | 0 <= i < j < |s'.log| && s'.log[i].Dispatched? && s'.log[j].Dispatched?
      ensures s'.log[i].tid != s'.log[j].tid
    {
      assert s'.log[i] == s.log[i] && s'.log[j] == s.log[j];
    }
    forall t | t in s'.threads
      ensures t < s'.spawned
      ensures forall e | e in s'.log && e.Dispatched? && e.tid == t :: Past(s'.threads[t].phase)
    {
      assert Carries(s, s', t);
    }
  }

  lemma StartMoves(s: State, l: Label, s': State, a: Answer)
    requires l.Start? && StartStep(s, l, s', a)
    ensures Moves(s, s')
  {
    hide Collected, StartReply, NewRecord;
  }

  lemma CancelMoves(s: State, l: Label, s': State, a: Answer)
    requires l.Cancel? && CancelStep(s, l, s', a)
    ensures Moves(s, s')
  {
  }

  lemma RecoverMoves(s: State, l: Label, s': State)
    requires (l.RecoverOne? && RecoverOneStep(s, l, s')) || (l.RecoverDone? && RecoverDoneStep(s, l, s'))
    ensures Moves(s, s')
  {
    hide Collected;
  }

  lemma FinishMoves(s: State, l: Label, s': State)
    requires l.Finish? && FinishStep(s, l, s')
    ensures Moves(s, s')
  {
    hide Closed;
  }

  predicate FlipsNow(s: State, l: Label) {
    && l.SetRunning? && At(s, l.tid) && l.read.ReadOk? && l.w.Durable?
    && Live(s.store, s.threads[l.tid].request.sessionId)
  }

  lemma SetRunningMoves(s: State, l: Label, s': State)
    requires l.SetRunning? && SetRunningStep(s, l, s') && !FlipsNow(s, l)
    ensures Moves(s, s')
  {
    SetRunningStays(s, l, s');
    hide SetRunningStep, FlipsNow;
    assert forall t | t in s'.threads && t != l.tid :: Carries(s, s', t);
  }

  /** Without a flip the goroutine gives up, and at most a flip is logged. */
  lemma SetRunningStays(s: State, l: Label, s': State)
    requires l.SetRunning? && SetRunningStep(s, l, s') && !FlipsNow(s, l)
    ensures At(s, l.tid) && s.threads[l.tid].phase == Ready && l.tid in s'.threads
    ensures s'.threads == s.threads[l.tid := s.threads[l.tid].(phase := s'.threads[l.tid].phase)]
    ensures s'.threads[l.tid].phase.Abandoning? && s'.spawned == s.spawned
    ensures s'.log == s.log || exists i, sid :: s'.log == s.log + [Flipped(i, sid)]
  {
    hide Restated, Written, Inc;
  }

  lemma QuietMoves(s: State, l: Label, s': State)
    requires Step(s, l, s')
    requires !l.Start? && !l.Cancel? && !l.SetRunning? && !l.Dispatch? && !l.Finish? && !l.RecoverOne? &&
             !l.RecoverDone?
    ensures Moves(s, s')
  {
    hide ResultFromExec;
  }

  lemma StepMoves(s: State, l: Label, s': State)
    requires Step(s, l, s') && !FlipsNow(s, l) && !l.Dispatch?
    ensures Moves(s, s')
  {
    hide Moves, FlipsNow, StartStep, CancelStep, AcquireStep, CheckContextStep, SetRunningStep, ClearActiveStep,
      DispatchStep, ReturnStep, FinishStep, ReleaseStep, RecoverOneStep, RecoverDoneStep;
    if l.Start? {
      var a :| StartStep(s, l, s', a);
      StartMoves(s, l, s', a);
    } else if l.Cancel? {
      var a :| CancelStep(s, l, s', a);
      CancelMoves(s, l, s', a);
    } else if l.SetRunning? {
      SetRunningMoves(s, l, s');
    } else if l.Finish? {
      FinishMoves(s, l, s');
    } else if l.RecoverOne? || l.RecoverDone? {
      RecoverMoves(s, l, s');
    } else {
      QuietMoves(s, l, s');
    }
  }

  // ----- the flip and the dispatch -----

  /** The record under the session ID is the goroutine's own exactly when nobody started it again. */
  lemma OwnOrRestarted(inc: map<SessionId, nat>, log: seq<Event>, sid: SessionId, born: nat)
    requires LatestStored(inc, log) && sid in inc && Created(born, sid) in log
    ensures inc[sid] == born <==> NotRestarted(log, sid, born)
  {
  }

  lemma FlipOwned(s: State, l: Label, s': State)
    requires l.SetRunning? && SetRunningStep(s, l, s') && FlipsNow(s, l)
    requires s.inc.Keys == s.store.Keys && LatestStored(s.inc, s.log) && Owned(s.threads, s.log)
    ensures Owned(s'.threads, s'.log)
  {
    hide Restated, NotRestarted, LatestStored;
    var th, sid := s.threads[l.tid], s.threads[l.tid].request.sessionId;
    var i := s.inc[sid];
    OwnOrRestarted(s.inc, s.log, sid, th.born);
    assert s'.log[..|s.log|] == s.log;
    assert FlippedAt(s'.log, |s.log|, i, sid, th.born);
    forall t | t in s'.threads
      ensures OwnedThread(s'.log, s'.threads[t])
    {
      if t != l.tid { OwnedGrows(s.log, s'.log, s.threads[t], s'.threads[t]); }
    }
  }

  lemma FlipSole(s: State, l: Label, s': State)
    requires l.SetRunning? && SetRunningStep(s, l, s') && FlipsNow(s, l)
    requires Sole(s.threads, s.spawned, s.log)
    ensures Sole(s'.threads, s'.spawned, s'.log)
  {
    hide Restated;
    forall i, j | 0 <= i < j < |s'.log| && s'.log[i].Dispatched? && s'.log[j].Dispatched?
      ensures s'.log[i].tid != s'.log[j].tid
    {
      assert s'.log[i] == s.log[i] && s'.log[j] == s.log[j];
    }
  }

  lemma DispatchOwned(s: State, tid: nat, s': State)
    requires DispatchStep(s, tid, s') && Owned(s.threads, s.log)
    ensures Owned(s'.threads, s'.log)
  {
    forall t | t in s'.threads
      ensures OwnedThread(s'.log, s'.threads[t])
    {
      OwnedGrows(s.log, s'.log, s.threads[t], s'.threads[t]);
    }
  }

  lemma DispatchSole(s: State, tid: nat, s': State)
    requires DispatchStep(s, tid, s') && Sole(s.threads, s.spawned, s.log)
    ensures Sole(s'.threads, s'.spawned, s'.log)
  {
    assert forall e | e in s.log && e.Dispatched? :: e.tid != tid;
    forall i, j | 0 <= i < j < |s'.log| && s'.log[i].Dispatched? && s'.log[j].Dispatched?
      ensures s'.log[i].tid != s'.log[j].tid
    {
      assert s'.log[i] == s.log[i] && s.log[i] in s.log;
      if j < |s.log| { assert s'.log[j] == s.log[j]; }
    }
  }

  lemma {:induction false} RunOwned(states: seq<State>, labels: seq<Label>, n: nat)
    requires Run(states, labels) && n < |states|
    ensures Owned(states[n].threads, states[n].log) && Sole(states[n].threads, states[n].spawned, states[n].log)
  {
    hide Owned, Sole, Inv, Provenance, Step, Init;
    if n == 0 {
      NoneOwned(states[0]);
    } else {
      RunOwned(states, labels, n - 1);
      RunTraced(states, labels, n - 1);
      RunInv(states, labels, n - 1);
      StepOwned(states[n - 1], labels[n - 1], states[n]);
    }
  }

  lemma NoneOwned(s: State)
    requires Init(s)
    ensures Owned(s.threads, s.log) && Sole(s.threads, s.spawned, s.log)
  {
  }

  lemma StepOwned(s: State, l: Label, s': State)
    requires Inv(s) && Provenance(s) && Step(s, l, s')
    requires Owned(s.threads, s.log) && Sole(s.threads, s.spawned, s.log)
    ensures Owned(s'.threads, s'.log) && Sole(s'.threads, s'.spawned, s'.log)
  {
    hide Owned, Sole, Moves, LatestStored, AllTraced, RunningIsRan, WellKept, Placed, Exclusive, RunningIsHeld, Logged,
      QueuedUntouched, LiveIsRecent, CommitsBacked, StartStep, CancelStep, AcquireStep, CheckContextStep,
      SetRunningStep, ClearActiveStep, DispatchStep, ReturnStep, FinishStep, ReleaseStep, RecoverOneStep,
      RecoverDoneStep;
    if l.Dispatch? {
      DispatchOwned(s, l.tid, s');
      DispatchSole(s, l.tid, s');
    } else if FlipsNow(s, l) {
      FlipOwned(s, l, s');
      FlipSole(s, l, s');
    } else {
      StepMoves(s, l, s');
      MovesOwned(s, s');
      MovesSole(s, s');
    }
  }

  // ----- back to the start that spawned the goroutine -----

  /** The start at position `m` created incarnation `born` for `req`. */
  predicate Starts(states: seq<State>, labels: seq<Label>, m: nat, born: nat, req: Request) {
    && m < |labels| && m + 1 < |states| && labels[m].Start? && labels[m].req == req
    && states[m].births == born && states[m + 1].births == born + 1
  }

  ghost predicate Started(states: seq<State>, labels: seq<Label>, n: nat, born: nat, req: Request) {
    exists m: nat :: m < n && Starts(states, labels, m, born, req)
  }

  /** A step's goroutines are those of before or the one its start spawned; its creations likewise. */
  ghost predicate Sprung(s: State, l: Label, s': State) {
    && (forall t | t in s'.threads ::
          || (t in s.threads && s'.threads[t].born == s.threads[t].born &&
              s'.threads[t].request == s.threads[t].request)
          || (l.Start? && s'.births == s.births + 1 && s'.threads[t].born == s.births &&
              s'.threads[t].request == l.req))
    && (forall e | e in s'.log && e.Created? ::
          e in s.log || (l.Start? && s'.births == s.births + 1 && e == Created(s.births, l.req.sessionId)))
  }

  lemma StartSprung(s: State, l: Label, s': State, a: Answer)
    requires l.Start? && StartStep(s, l, s', a)
    ensures Sprung(s, l, s')
  {
    hide Collected, StartReply, NewRecord;
  }

  lemma CancelSprung(s: State, l: Label, s': State, a: Answer)
    requires l.Cancel? && CancelStep(s, l, s', a)
    ensures Sprung(s, l, s')
  {
    hide Restated;
  }

  lemma SetRunningSprung(s: State, l: Label, s': State)
    requires l.SetRunning? && SetRunningStep(s, l, s')
    ensures Sprung(s, l, s')
  {
    hide Restated, Written, Live;
  }

  lemma FinishSprung(s: State, l: Label, s': State)
    requires l.Finish? && FinishStep(s, l, s')
    ensures Sprung(s, l, s')
  {
    hide Closed;
  }

  lemma RecoverSprung(s: State, l: Label, s': State)
    requires (l.RecoverOne? && RecoverOneStep(s, l, s')) || (l.RecoverDone? && RecoverDoneStep(s, l, s'))
    ensures Sprung(s, l, s')
  {
    hide Collected, Interrupted;
  }

  lemma QuietSprung(s: State, l: Label, s': State)
    requires Step(s, l, s')
    requires !l.Start? && !l.Cancel? && !l.SetRunning? && !l.Finish? && !l.RecoverOne? && !l.RecoverDone?
    ensures Sprung(s, l, s')
  {
    hide ResultFromExec;
  }

  lemma StepSprung(s: State, l: Label, s': State)
    requires Step(s, l, s')
    ensures Sprung(s, l, s')
  {
    hide Sprung, StartStep, CancelStep, AcquireStep, CheckContextStep, SetRunningStep, ClearActiveStep,
      DispatchStep, ReturnStep, FinishStep, ReleaseStep, RecoverOneStep, RecoverDoneStep;
    if l.Start? {
      var a :| StartStep(s, l, s', a);
      StartSprung(s, l, s', a);
    } else if l.Cancel? {
      var a :| CancelStep(s, l, s', a);
      CancelSprung(s, l, s', a);
    } else if l.SetRunning? {
      SetRunningSprung(s, l, s');
    } else if l.Finish? {
      FinishSprung(s, l, s');
    } else if l.RecoverOne? || l.RecoverDone? {
      RecoverSprung(s, l, s');
    } else {
      QuietSprung(s, l, s');
    }
  }

  ghost predicate AllStarted(states: seq<State>, labels: seq<Label>, n: nat)
    requires n < |states|
  {
    && (forall t | t in states[n].threads ::
          Started(states, labels, n, states[n].threads[t].born, states[n].threads[t].request))
    && (forall e | e in states[n].log && e.Created? ::
          exists req :: Started(states, labels, n, e.inc, req) && req.sessionId == e.sid)
  }

  lemma {:induction false} RunStarted(states: seq<State>, labels: seq<Label>, n: nat)
    requires Run(states, labels) && n < |states|
    ensures AllStarted(states, labels, n)
  {
    hide Step;
    if n > 0 {
      RunStarted(states, labels, n - 1);
      StepSprung(states[n - 1], labels[n - 1], states[n]);
      hide Run;
      AllStartedNext(states, labels, n - 1);
    }
  }

  lemma AllStartedNext(states: seq<State>, labels: seq<Label>, n: nat)
    requires n + 1 < |states| && n < |labels| && AllStarted(states, labels, n)
    requires Sprung(states[n], labels[n], states[n + 1])
    ensures AllStarted(states, labels, n + 1)
  {
    hide Starts;
    var s, s' := states[n], states[n + 1];
    if labels[n].Start? && s'.births == s.births + 1 { StartedNow(states, labels, n); }
    forall t | t in s'.threads
      ensures Started(states, labels, n + 1, s'.threads[t].born, s'.threads[t].request)
    {
      if t in s.threads && s'.threads[t].born == s.threads[t].born && s'.threads[t].request == s.threads[t].request {
        var m: nat :| m < n && Starts(states, labels, m, s'.threads[t].born, s'.threads[t].request);
        assert m < n + 1;
      }
    }
    forall e | e in s'.log && e.Created?
      ensures exists req :: Started(states, labels, n + 1, e.inc, req) && req.sessionId == e.sid
    {
      if e in s.log {
        var req :| Started(states, labels, n, e.inc, req) && req.sessionId == e.sid;
        var m: nat :| m < n && Starts(states, labels, m, e.inc, req);
        assert Started(states, labels, n + 1, e.inc, req);
      } else {
        assert Started(states, labels, n + 1, e.inc, labels[n].req);
      }
    }
  }

  lemma StartedNow(states: seq<State>, labels: seq<Label>, n: nat)
    requires n + 1 < |states| && n < |labels| && labels[n].Start? && states[n + 1].births == states[n].births + 1
    ensures Started(states, labels, n + 1, states[n].births, labels[n].req)
  {
    assert Starts(states, labels, n, states[n].births, labels[n].req);
  }

  /** An incarnation has one start. */
  lemma StartsOnce(states: seq<State>, labels: seq<Label>, m: nat, n: nat, born: nat, r: Request, q: Request)
    requires Run(states, labels) && Starts(states, labels, m, born, r) && Starts(states, labels, n, born, q)
    ensures m == n && r == q
  {
    hide Run;
    if m < n { RunBirths(states, labels, m + 1, n); }
    if n < m { RunBirths(states, labels, n + 1, m); }
  }

  lemma RunBirths(states: seq<State>, labels: seq<Label>, m: nat, n: nat)
    requires Run(states, labels) && m <= n < |states|
    ensures states[m].births <= states[n].births
  {
    hide Run;
    RecordLifetime(states, labels, m, n);
  }

  // ----- theorems -----

  /** Every dispatch of every run sends the command of the start that spawned its goroutine, under an
      incarnation of that session. The incarnation is the goroutine's own, and its request the one
      sent, exactly when the session had not been started again by the time the record was flipped to
      running; in particular when it was never started again. */
  lemma DispatchOwn(states: seq<State>, labels: seq<Label>, n: nat, tid: nat)
    requires Run(states, labels) && n < |labels| && labels[n] == Dispatch(tid)
    ensures tid in states[n].threads && states[n].threads[tid].phase.Committed?
    ensures var log, th := states[n].log, states[n].threads[tid];
            var i, sid := th.phase.inc, th.request.sessionId;
            && states[n + 1].log == log + [Dispatched(i, sid, tid)]
            && Started(states, labels, n, th.born, th.request)
            && (exists req :: Started(states, labels, n, i, req) && req.sessionId == sid)
            && (exists f: nat :: FlippedAt(log, f, i, sid, th.born))
            && (NotRestarted(log, sid, th.born) ==> th.born == i)
            && (forall m: nat, req | th.born == i && Starts(states, labels, m, i, req) :: req == th.request)
  {
    hide Run, Started, Starts, Inv;
    StepAt(states, labels, n);
    RunOwned(states, labels, n);
    RunStarted(states, labels, n);
    var s, th := states[n], states[n].threads[tid];
    var i, sid := th.phase.inc, th.request.sessionId;
    assert OwnedThread(s.log, th);
    var f: nat :| FlippedAt(s.log, f, i, sid, th.born);
    assert NotRestarted(s.log, sid, th.born) ==> NotRestarted(s.log[..f], sid, th.born);
    CommitCreated(states, labels, n, tid);
    forall m: nat, req | th.born == i && Starts(states, labels, m, i, req)
      ensures req == th.request
    {
      var k := StartOf(states, labels, n, th.born, th.request);
      StartsOnce(states, labels, m, k, i, req, th.request);
    }
  }

  lemma StepAt(states: seq<State>, labels: seq<Label>, n: nat)
    requires Run(states, labels) && n < |labels|
    ensures n + 1 < |states| && Step(states[n], labels[n], states[n + 1])
  {
    hide Step;
  }

  lemma StartOf(states: seq<State>, labels: seq<Label>, n: nat, born: nat, req: Request) returns (m: nat)
    requires Started(states, labels, n, born, req)
    ensures Starts(states, labels, m, born, req)
  {
    m :| m < n && Starts(states, labels, m, born, req);
  }

  lemma CommitCreated(states: seq<State>, labels: seq<Label>, n: nat, tid: nat)
    requires Run(states, labels) && n < |states| && tid in states[n].threads && states[n].threads[tid].phase.Committed?
    ensures Created(states[n].threads[tid].phase.inc, states[n].threads[tid].request.sessionId) in states[n].log
  {
    hide Run;
    RunTraced(states, labels, n);
    assert Traced(states[n].log, tid, states[n].threads[tid]);
  }

  // ----- one start, one dispatch -----

  /** Between the states `a` and `s` of a run, two goroutines are the same when their starts are. */
  ghost predicate Paired(a: State, s: State) {
    && a.births <= s.births && a.spawned <= s.spawned && a.log <= s.log
    && forall t, u | t in a.threads && u in s.threads && a.threads[t].born == s.threads[u].born :: t == u
  }

  ghost predicate StartsNew(s: State, s': State, t: nat)
    requires t in s'.threads
  {
    || (t in s.threads && s'.threads[t].born == s.threads[t].born)
    || (t == s.spawned < s'.spawned && s'.threads[t].born == s.births < s'.births)
  }

  ghost predicate Grows(s: State, s': State) {
    && s.births <= s'.births && s.spawned <= s'.spawned && s.log <= s'.log
    && forall t | t in s'.threads :: StartsNew(s, s', t)
  }

  lemma StartGrows(s: State, l: Label, s': State, a: Answer)
    requires l.Start? && StartStep(s, l, s', a)
    ensures Grows(s, s')
  {
    hide Collected, StartReply, NewRecord;
  }

  lemma CancelGrows(s: State, l: Label, s': State, a: Answer)
    requires l.Cancel? && CancelStep(s, l, s', a)
    ensures Grows(s, s')
  {
    hide Restated;
  }

  lemma SetRunningGrows(s: State, l: Label, s': State)
    requires l.SetRunning? && SetRunningStep(s, l, s')
    ensures Grows(s, s')
  {
    hide Restated, Written;
  }

  lemma FinishGrows(s: State, l: Label, s': State)
    requires l.Finish? && FinishStep(s, l, s')
    ensures Grows(s, s')
  {
    hide Closed, Written;
  }

  lemma RecoverGrows(s: State, l: Label, s': State)
    requires (l.RecoverOne? && RecoverOneStep(s, l, s')) || (l.RecoverDone? && RecoverDoneStep(s, l, s'))
    ensures Grows(s, s')
  {
    hide Collected, Interrupted;
  }

  lemma QuietGrows(s: State, l: Label, s': State)
    requires Step(s, l, s')
    requires !l.Start? && !l.Cancel? && !l.SetRunning? && !l.Finish? && !l.RecoverOne? && !l.RecoverDone?
    ensures Grows(s, s')
  {
    hide ResultFromExec;
  }

  lemma StepGrows(s: State, l: Label, s': State)
    requires Step(s, l, s')
    ensures Grows(s, s')
  {
    hide Grows, StartStep, CancelStep, AcquireStep, CheckContextStep, SetRunningStep, ClearActiveStep, DispatchStep,
      ReturnStep, FinishStep, ReleaseStep, RecoverOneStep, RecoverDoneStep;
    if l.Start? {
      var a :| StartStep(s, l, s', a);
      StartGrows(s, l, s', a);
    } else if l.Cancel? {
      var a :| CancelStep(s, l, s', a);
      CancelGrows(s, l, s', a);
    } else if l.SetRunning? {
      SetRunningGrows(s, l, s');
    } else if l.Finish? {
      FinishGrows(s, l, s');
    } else if l.RecoverOne? || l.RecoverDone? {
      RecoverGrows(s, l, s');
    } else {
      QuietGrows(s, l, s');
    }
  }

  lemma PairedNext(a: State, s: State, s': State)
    requires Paired(a, s) && Grows(s, s') && Placed(a.threads, a.spawned, a.births, a.up)
    ensures Paired(a, s')
  {
    forall t, u | t in a.threads && u in s'.threads && a.threads[t].born == s'.threads[u].born
      ensures t == u
    {
      assert StartsNew(s, s', u);
    }
  }

  lemma PairedSelf(s: State, s': State)
    requires Paired(s, s) && Grows(s, s') && Placed(s.threads, s.spawned, s.births, s.up)
    ensures Paired(s', s')
  {
    forall t, u | t in s'.threads && u in s'.threads && s'.threads[t].born == s'.threads[u].born
      ensures t == u
    {
      assert StartsNew(s, s', t) && StartsNew(s, s', u);
    }
  }

  lemma {:induction false} RunPaired(states: seq<State>, labels: seq<Label>, m: nat, n: nat)
    requires Run(states, labels) && m <= n < |states|
    ensures Paired(states[m], states[n])
    decreases n, n - m
  {
    hide Step, Paired, Grows, RunningIsHeld, Logged, QueuedUntouched, LiveIsRecent, CommitsBacked, Exclusive, Placed,
      WellKept, Numbered;
    if n == 0 {
      NonePaired(states[0]);
    } else {
      StepGrows(states[n - 1], labels[n - 1], states[n]);
      if m < n {
        RunPaired(states, labels, m, n - 1);
        RunInv(states, labels, m);
        PairedNext(states[m], states[n - 1], states[n]);
      } else {
        RunPaired(states, labels, n - 1, n - 1);
        RunInv(states, labels, n - 1);
        PairedSelf(states[n - 1], states[n]);
      }
    }
  }

  lemma NonePaired(s: State)
    requires Init(s)
    ensures Paired(s, s)
  {
  }

  /** The dispatch at position `m` sends the command of the start at position `k`. */
  predicate SendsFor(states: seq<State>, labels: seq<Label>, m: nat, k: nat) {
    && k < m < |labels| && m < |states| && labels[m].Dispatch? && labels[m].tid in states[m].threads
    && var th := states[m].threads[labels[m].tid];
       Starts(states, labels, k, th.born, th.request)
  }

  lemma SendsForSome(states: seq<State>, labels: seq<Label>, m: nat) returns (k: nat)
    requires Run(states, labels) && m < |labels| && labels[m].Dispatch?
    ensures SendsFor(states, labels, m, k)
  {
    DispatchOwn(states, labels, m, labels[m].tid);
    hide Run, Starts;
    var th := states[m].threads[labels[m].tid];
    k :| k < m && Starts(states, labels, k, th.born, th.request);
  }

  lemma SendsForOne(states: seq<State>, labels: seq<Label>, m: nat, k: nat, l: nat)
    requires Run(states, labels) && SendsFor(states, labels, m, k) && SendsFor(states, labels, m, l)
    ensures k == l
  {
    hide Run, Starts;
    var th := states[m].threads[labels[m].tid];
    StartsOnce(states, labels, k, l, th.born, th.request, th.request);
  }

  /** Two dispatches for one start are the same goroutine's, and a goroutine sends once. */
  lemma SentForOnce(states: seq<State>, labels: seq<Label>, m: nat, n: nat, k: nat)
    requires Run(states, labels) && m <= n
    requires SendsFor(states, labels, m, k) && SendsFor(states, labels, n, k)
    ensures m == n
  {
    hide Starts, Inv, Owned, OwnedThread;
    var t := labels[m].tid;
    RunPaired(states, labels, m, n);
    SameBorn(states, labels, m, n, k);
    assert labels[n].tid == t;
    if m < n {
      DispatchLogged(states, labels, m, t);
      DispatchLogged(states, labels, n, t);
      RunPaired(states, labels, m + 1, n);
      RunOwned(states, labels, n + 1);
      SameTwice(states[m].log, states[m + 1].log, states[n].log, states[n + 1].log, t);
    }
  }

  lemma SameBorn(states: seq<State>, labels: seq<Label>, m: nat, n: nat, k: nat)
    requires SendsFor(states, labels, m, k) && SendsFor(states, labels, n, k)
    ensures states[m].threads[labels[m].tid].born == states[n].threads[labels[n].tid].born
  {
  }

  lemma DispatchLogged(states: seq<State>, labels: seq<Label>, n: nat, tid: nat)
    requires Run(states, labels) && n < |labels| && labels[n] == Dispatch(tid)
    ensures |states[n + 1].log| == |states[n].log| + 1 && states[n].log <= states[n + 1].log
    ensures states[n + 1].log[|states[n].log|].Dispatched? && states[n + 1].log[|states[n].log|].tid == tid
  {
    hide Run;
    StepAt(states, labels, n);
  }

  lemma SameTwice(a: seq<Event>, a': seq<Event>, b: seq<Event>, b': seq<Event>, tid: nat)
    requires |a'| == |a| + 1 && a' <= b && |b'| == |b| + 1 && b <= b'
    requires a'[|a|].Dispatched? && a'[|a|].tid == tid && b'[|b|].Dispatched? && b'[|b|].tid == tid
    ensures !OncePerGoroutine(b')
  {
    assert b'[|a|] == b[|a|] == a'[|a|];
  }

  /** Every dispatch of a run sends the command of exactly one accepted start, and every start's
      command is sent at most once, whatever record it is sent under. */
  lemma SentOncePerStart(states: seq<State>, labels: seq<Label>)
    requires Run(states, labels)
    ensures forall m: nat | m < |labels| && labels[m].Dispatch? :: exists k: nat :: SendsFor(states, labels, m, k)
    ensures forall m, k, l | SendsFor(states, labels, m, k) && SendsFor(states, labels, m, l) :: k == l
    ensures forall m, n, k | SendsFor(states, labels, m, k) && SendsFor(states, labels, n, k) :: m == n
    ensures forall n | 0 <= n < |states| :: OncePerGoroutine(states[n].log)
  {
    hide Run, SendsFor, OncePerGoroutine;
    forall m: nat | m < |labels| && labels[m].Dispatch?
      ensures exists k: nat :: SendsFor(states, labels, m, k)
    {
      var k := SendsForSome(states, labels, m);
    }
    forall m, k, l | SendsFor(states, labels, m, k) && SendsFor(states, labels, m, l)
      ensures k == l
    {
      SendsForOne(states, labels, m, k, l);
    }
    forall m, n, k | SendsFor(states, labels, m, k) && SendsFor(states, labels, n, k)
      ensures m == n
    {
      if m <= n { SentForOnce(states, labels, m, n, k); } else { SentForOnce(states, labels, n, m, k); }
    }
    forall n | 0 <= n < |states|
      ensures OncePerGoroutine(states[n].log)
    {
      RunOwned(states, labels, n);
    }
  }

  /** The incarnation whose outcome an ending goroutine holds: the one it ran, or, when it was
      cancelled before it ran any, the one it was started for. */
  function OutcomeOf(th: Thread): nat
    requires th.phase.Ending?
  {
    if th.phase.ran.Some? then th.phase.ran.value else th.born
  }

  /** A goroutine records its outcome, whatever it is, in the record it belongs to exactly when the
      session was not started again since that record was created. */
  lemma OwnOutcome(states: seq<State>, labels: seq<Label>, n: nat, tid: nat)
    requires Run(states, labels) && n < |states| && At(states[n], tid) && states[n].threads[tid].phase.Ending?
    requires states[n].threads[tid].request.sessionId in states[n].store
    ensures states[n].threads[tid].request.sessionId in states[n].inc
    ensures var s, th := states[n], states[n].threads[tid];
            s.inc[th.request.sessionId] == OutcomeOf(th) <==>
            NotRestarted(s.log, th.request.sessionId, OutcomeOf(th))
  {
    hide Run;
    RunTraced(states, labels, n);
    RunOwned(states, labels, n);
    RunInv(states, labels, n);
    var th := states[n].threads[tid];
    assert Traced(states[n].log, tid, th) && OwnedThread(states[n].log, th);
    OwnOrRestarted(states[n].inc, states[n].log, th.request.sessionId, OutcomeOf(th));
  }
}
