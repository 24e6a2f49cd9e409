/** What the coordinator answers, case by case, and where the result of every stored record comes from. */
module ExecAnswers {
  import opened Collections
  import opened ExecRecords
  import opened ExecProtocol
  import opened ExecTheorems

  // ----- starts, polls and cancels -----

  /** The start's record is added to `kept`: queued, under the request's identity, with nothing run. */
  predicate Queues(kept: Store, req: Request, now: int, after: Store) {
    && req.sessionId in after && after - {req.sessionId} == kept && req.sessionId !in kept
    && var r := after[req.sessionId];
       && r.sessionId == req.sessionId && r.requestId == req.requestId && r.callerKey == req.callerKey
       && r.fingerprint == req.fingerprint && r.createdAt == now && r.updatedAt == now
       && r.result == Result(req.sessionId, req.requestId, Queued, None, "", "", false)
  }

  /** One more goroutine waits, with this request and a live context, to be cancelled under its session ID. */
  predicate Spawns(s: State, req: Request, s': State) {
    && req.sessionId in s'.active && s'.active - {req.sessionId} == s.active - {req.sessionId}
    && var t := s'.active[req.sessionId];
       && t !in s.threads && t in s'.threads && s'.threads - {t} == s.threads
       && s'.threads[t].request == req && !s'.threads[t].cancelled && s'.threads[t].phase == Waiting
  }

  /** Nothing is created, spawned or cancelled. */
  predicate Idles(s: State, kept: Store, s': State) {
    s'.store == kept && s'.threads == s.threads && s'.active == s.active && s'.log == s.log
  }

  /** A start that collected and read without a failure answers from the record of the same request, else
      refuses a taken session ID or a full store, else writes a queued record and spawns its goroutine. */
  lemma StartAnswers(s: State, l: Label, s': State, a: Answer)
    requires WellKept(s.store) && Placed(s.threads, s.spawned, s.births, s.up)
    requires l.Start? && StartStep(s, l, s', a) && l.req.commandValid && l.collected && l.read.ReadOk?
    ensures forall k | k in l.kept && l.kept[k].callerKey == l.req.callerKey &&
                       l.kept[k].requestId == l.req.requestId ::
              && Idles(s, l.kept, s')
              && a == if l.kept[k].fingerprint == l.req.fingerprint then Ok(l.kept[k].result) else Refused(409)
    ensures (forall k | k in l.kept ::
               l.kept[k].callerKey != l.req.callerKey || l.kept[k].requestId != l.req.requestId) ==>
              if l.req.sessionId in l.kept then
                && Idles(s, l.kept, s')
                && a == Refused(if l.kept[l.req.sessionId].callerKey == l.req.callerKey then 409 else 403)
              else if |l.kept| >= 128 then Idles(s, l.kept, s') && a == Refused(503)
              else
                match l.w
                case Durable =>
                  && Queues(l.kept, l.req, l.now, s'.store) && Spawns(s, l.req, s')
                  && a == Ok(s'.store[l.req.sessionId].result)
                case NotWritten => Idles(s, l.kept, s') && a == Broken
                case LandedThenFailed =>
                  && Queues(l.kept, l.req, l.now, s'.store) && a == Broken
                  && s'.threads == s.threads && s'.active == s.active
  {
    hide StartStep, Collected, StartReply, NewRecord, Admitted, Queues, Spawns, Idles, WellKept, Placed;
    StartCases(s, l, s', a);
    if k :| k in l.kept && l.kept[k].callerKey == l.req.callerKey && l.kept[k].requestId == l.req.requestId {
      forall k | k in l.kept && l.kept[k].callerKey == l.req.callerKey && l.kept[k].requestId == l.req.requestId
        ensures Idles(s, l.kept, s')
        ensures a == if l.kept[k].fingerprint == l.req.fingerprint then Ok(l.kept[k].result) else Refused(409)
      {
        OldestHere(s.store, l.kept, k);
        KeptAnswers(s.store, l.kept, l.req, k);
      }
    } else {
      NoneAnswers(l.kept, l.req);
      if l.req.sessionId !in l.kept && |l.kept| < 128 { AdmitsFresh(s, l.kept, l.req, l.now, l.w); }
    }
  }

  lemma StartCases(s: State, l: Label, s': State, a: Answer)
    requires l.Start? && StartStep(s, l, s', a) && l.req.commandValid && l.collected && l.read.ReadOk?
    ensures OldestFirst(s.store, l.kept)
    ensures match StartReply(l.kept, l.req)
            case Some(reply) => a == reply && Idles(s, l.kept, s')
            case None =>
              && s' == Admitted(WithStore(s, l.kept), l.req, l.now, l.w)
              && a == if l.w.Durable? then Ok(NewRecord(l.req, l.now).result) else Broken
  {
    hide StartReply, Admitted, NewRecord;
    CollectedOldest(s.store, l.kept, l.now, |s.store| + l.stray, true);
    hide Collected;
  }

  lemma OldestHere(store: Store, kept: Store, k: SessionId)
    requires OldestFirst(store, kept) && k in kept
    ensures k in store && store[k] == kept[k]
  {
  }

  lemma CollectedOldest(before: Store, after: Store, now: int, entries: nat, complete: bool)
    requires Collected(before, after, now, entries, complete)
    ensures OldestFirst(before, after)
  {
  }

  lemma AdmitsFresh(s: State, kept: Store, req: Request, now: int, w: WriteOutcome)
    requires Placed(s.threads, s.spawned, s.births, s.up) && req.sessionId !in kept
    ensures var s' := Admitted(WithStore(s, kept), req, now, w);
            match w
            case Durable =>
              && Queues(kept, req, now, s'.store) && Spawns(s, req, s')
              && s'.store[req.sessionId].result == NewRecord(req, now).result
            case NotWritten => Idles(s, kept, s')
            case LandedThenFailed =>
              Queues(kept, req, now, s'.store) && s'.threads == s.threads && s'.active == s.active
  {
    assert s.spawned !in s.threads;
    if !w.NotWritten? { assert kept[req.sessionId := NewRecord(req, now)] - {req.sessionId} == kept; }
    if w.Durable? {
      var t := Thread(req, s.births, false, Waiting);
      assert s.threads[s.spawned := t] - {s.spawned} == s.threads;
    }
  }

  lemma NoneAnswers(kept: Store, req: Request)
    requires forall k | k in kept :: kept[k].callerKey != req.callerKey || kept[k].requestId != req.requestId
    ensures StartReply(kept, req) ==
            if req.sessionId in kept then
              Some(Refused(if kept[req.sessionId].callerKey == req.callerKey then 409 else 403))
            else if |kept| >= 128 then Some(Refused(503)) else None
  {
    assert !Known(kept, req);
  }

  /** A poll answers with the stored result of its own caller's session, and never changes anything. */
  lemma PollAnswers(s: State, l: Label, s': State, a: Answer)
    requires l.Poll? && PollStep(s, l, s', a)
    ensures s' == s
    ensures l.read.ReadFails? ==> a == Broken
    ensures l.read.ReadOk? ==>
              var sid := l.req.sessionId;
              a == if sid !in s.store then Refused(404)
                   else if s.store[sid].callerKey != l.req.callerKey ||
                           (l.req.requestId != "" && s.store[sid].requestId != l.req.requestId) then Refused(403)
                   else Ok(s.store[sid].result)
  {
  }

  /** The session is there, is this caller's, and is this request's when the caller names one. */
  predicate Owns(store: Store, req: Request) {
    && req.sessionId in store && store[req.sessionId].callerKey == req.callerKey
    && (req.requestId != "" ==> store[req.sessionId].requestId == req.requestId)
  }

  predicate Unfinished(r: Record) { r.result.state.Queued? || r.result.state.Running? }

  /** The context of the session's goroutine is cancelled and no other goroutine is touched. */
  predicate Interrupts(s: State, sid: SessionId, s': State) {
    && s'.active == s.active && s'.lock == s.lock && s'.log == s.log && s'.threads.Keys == s.threads.Keys
    && (sid in s.active && s.active[sid] in s.threads ==> s'.threads[s.active[sid]].cancelled)
    && forall t | t in s.threads ::
         if sid in s.active && t == s.active[sid] then
           && s'.threads[t].request == s.threads[t].request && s'.threads[t].born == s.threads[t].born
           && s'.threads[t].phase == s.threads[t].phase
         else s'.threads[t] == s.threads[t]
  }

  /** Only the state and the time of the record changed. */
  predicate Stops(store: Store, sid: SessionId, now: int, after: Store) {
    && sid in store && sid in after && after - {sid} == store - {sid}
    && var was, r := store[sid], after[sid];
       && r.result.state == Canceled && r.updatedAt == now && SameIdentity(was, r)
       && r.result.exitCode == was.result.exitCode && r.result.stdout == was.result.stdout
       && r.result.stderr == was.result.stderr && r.result.truncated == was.result.truncated
       && r.result.sessionId == was.result.sessionId && r.result.requestId == was.result.requestId
  }

  /** A cancel refuses strangers, reports a finished session as it is, and otherwise cancels the context
      of the goroutine and the record, the answer depending on the write only. */
  lemma CancelAnswers(s: State, l: Label, s': State, a: Answer)
    requires Filed(s.store) && l.Cancel? && CancelStep(s, l, s', a)
    ensures l.read.ReadFails? ==> a == Broken && s' == s
    ensures l.read.ReadOk? && !Owns(s.store, l.req) ==>
              s' == s && a == Refused(if l.req.sessionId in s.store then 403 else 404)
    ensures l.read.ReadOk? && Owns(s.store, l.req) ==>
              var sid := l.req.sessionId;
              if !Unfinished(s.store[sid]) then s' == s && a == Ok(s.store[sid].result)
              else
                && Interrupts(s, sid, s')
                && (if l.w.NotWritten? then s'.store == s.store else Stops(s.store, sid, l.now, s'.store))
                && a == if l.w.Durable? then Ok(s'.store[sid].result) else Broken
  {
    var sid := l.req.sessionId;
    if l.read.ReadOk? && Owns(s.store, l.req) && Unfinished(s.store[sid]) {
      StopsRecord(s.store, sid, l.now);
      ContextOnly(s, sid);
      hide CancelContext, Restated, Interrupts, Stops;
    }
  }

  lemma StopsRecord(store: Store, sid: SessionId, now: int)
    requires Filed(store) && sid in store
    ensures var r := Restated(store[sid], Canceled, now);
            r.sessionId == sid && Stops(store, sid, now, store[sid := r])
  {
    var r := Restated(store[sid], Canceled, now);
    assert store[sid := r] - {sid} == store - {sid};
  }

  lemma ContextOnly(s: State, sid: SessionId)
    ensures Interrupts(s, sid, CancelContext(s, sid)) && CancelContext(s, sid).store == s.store
    ensures forall store :: Interrupts(s, sid, CancelContext(s, sid).(store := store))
  {
  }

  // ----- results -----

  /** The outcome a response and its error stand for, and the output kept of them. */
  predicate Reports(response: ExecResponse, err: Option<RunError>, r: Result) {
    && (r.state == Canceled <==> response.cancelled || (err.Some? && err.value.contextCanceled))
    && (r.state == TimedOut <==>
          response.timedOut && !response.cancelled && (err.None? || !err.value.contextCanceled))
    && (r.state == Succeeded <==>
          response.exitCode == 0 && err.None? && !response.cancelled && !response.timedOut)
    && r.state in {Canceled, TimedOut, Succeeded, Failed}
    && r.exitCode.Some? && -0x8000_0000 <= r.exitCode.value < 0x8000_0000
    && (r.exitCode.value - response.exitCode) % 0x1_0000_0000 == 0
    && r.stdout == response.stdout && r.truncated == response.truncated
    && (response.stderr != "" || err.None? ==> r.stderr == response.stderr)
    && (response.stderr == "" && err.Some? ==> r.stderr == err.value.message)
  }

  /** Canceled before timed out before failed; an exit code within int32 is kept; an error becomes the
      error output when there is none. */
  lemma OutcomeOfExec(response: ExecResponse, err: Option<RunError>)
    ensures Reports(response, err, ResultFromExec(response, err))
    ensures -0x8000_0000 <= response.exitCode < 0x8000_0000 ==>
              ResultFromExec(response, err).exitCode == Some(response.exitCode)
  {
  }

  /** By position `n` goroutine `tid` got this outcome, from its executor or from its cancelled context. */
  ghost predicate Obtained(states: seq<State>, labels: seq<Label>, n: nat, tid: nat, r: Result)
    requires n <= |labels| < |states|
  {
    exists m: nat :: m < n && Yields(states[m], labels[m], tid, r)
  }

  predicate Yields(s: State, l: Label, tid: nat, r: Result) {
    || (l.Return? && l.tid == tid && Reports(l.response, l.err, r))
    || (&& l == CheckContext(tid) && tid in s.threads && s.threads[tid].cancelled
        && r.state == Canceled && r.exitCode == None && r.stdout == "" && r.stderr == "context canceled")
  }

  /** The results differ in nothing but the identity they are filed under. */
  predicate SameOutput(a: Result, b: Result) {
    a.state == b.state && a.exitCode == b.exitCode && a.stdout == b.stdout && a.stderr == b.stderr &&
    a.truncated == b.truncated
  }

  /** The step finishes the record under `k` as `r`: a cancel, a recovery, or a goroutine of the session. */
  predicate Finishes(s: State, l: Label, k: SessionId, r: Record) {
    && k in s.store && Unfinished(s.store[k]) && SameIdentity(s.store[k], r)
    && var was := s.store[k].result;
       match l
       case Cancel(req, _, _, _) => req.sessionId == k && SameOutput(r.result, was.(state := Canceled))
       case RecoverOne(sid, _, _) =>
         && sid == k && r.result.state == Failed && r.result.exitCode == was.exitCode && r.result.stdout == was.stdout
         && r.result.stderr == "execution interrupted by coordinator restart; command was not redispatched"
       case Finish(tid, _, _, _) =>
         && tid in s.threads && s.threads[tid].request.sessionId == k && s.threads[tid].phase.Ending?
         && SameOutput(r.result, s.threads[tid].phase.result)
       case _ => false
  }

  lemma StartFinishes(s: State, l: Label, s': State, a: Answer, k: SessionId)
    requires l.Start? && StartStep(s, l, s', a) && k in s'.store && !Unfinished(s'.store[k])
    ensures k in s.store && s'.store[k] == s.store[k]
  {
    hide StartReply;
  }

  lemma CancelFinishes(s: State, l: Label, s': State, a: Answer, k: SessionId)
    requires Filed(s.store) && l.Cancel? && CancelStep(s, l, s', a) && k in s'.store && !Unfinished(s'.store[k])
    ensures (k in s.store && s'.store[k] == s.store[k]) || Finishes(s, l, k, s'.store[k])
  {
  }

  lemma FinishFinishes(s: State, l: Label, s': State, k: SessionId)
    requires Filed(s.store) && l.Finish? && FinishStep(s, l, s') && k in s'.store && !Unfinished(s'.store[k])
    ensures (k in s.store && s'.store[k] == s.store[k]) || Finishes(s, l, k, s'.store[k])
  {
  }

  lemma RecoverFinishes(s: State, l: Label, s': State, k: SessionId)
    requires l.RecoverOne? && RecoverOneStep(s, l, s')
    requires Filed(s.store) && k in s'.store && !Unfinished(s'.store[k])
    ensures (k in s.store && s'.store[k] == s.store[k]) || Finishes(s, l, k, s'.store[k])
  {
    assert s'.store == Written(s.store, Interrupted(s.store[l.sid], l.now), l.w);
    hide RecoverOneStep;
  }

  lemma RecoveredFinishes(s: State, l: Label, s': State, k: SessionId)
    requires l.RecoverDone? && RecoverDoneStep(s, l, s') && k in s'.store
    ensures k in s.store && s'.store[k] == s.store[k]
  {
    CollectedOldest(s.store, l.kept, l.now, |s.store| + l.stray, l.collected);
    hide Collected;
  }

  lemma SetRunningFinishes(s: State, l: Label, s': State, k: SessionId)
    requires Filed(s.store) && l.SetRunning? && SetRunningStep(s, l, s') && k in s'.store && !Unfinished(s'.store[k])
    ensures k in s.store && s'.store[k] == s.store[k]
  {
  }

  lemma QuietFinishes(s: State, l: Label, s': State)
    requires Step(s, l, s') && !l.Start? && !l.Cancel? && !l.SetRunning? && !l.Finish?
    requires !l.RecoverOne? && !l.RecoverDone?
    ensures s'.store == s.store
  {
    hide ResultFromExec;
  }

  lemma StepFinishes(s: State, l: Label, s': State, k: SessionId)
    requires Filed(s.store) && Step(s, l, s') && k in s'.store && !Unfinished(s'.store[k])
    ensures (k in s.store && s'.store[k] == s.store[k]) || Finishes(s, l, k, s'.store[k])
  {
    hide Finishes, Filed, Unfinished, StartStep, CancelStep, AcquireStep, CheckContextStep, SetRunningStep,
      ClearActiveStep, DispatchStep, ReturnStep, FinishStep, ReleaseStep, RecoverOneStep, RecoverDoneStep;
    if l.Start? {
      var a :| StartStep(s, l, s', a);
      StartFinishes(s, l, s', a, k);
    } else if l.Cancel? {
      var a :| CancelStep(s, l, s', a);
      CancelFinishes(s, l, s', a, k);
    } else if l.Finish? {
      FinishFinishes(s, l, s', k);
    } else if l.RecoverOne? {
      RecoverFinishes(s, l, s', k);
    } else if l.RecoverDone? {
      RecoveredFinishes(s, l, s', k);
    } else if l.SetRunning? {
      SetRunningFinishes(s, l, s', k);
    } else {
      QuietFinishes(s, l, s');
    }
  }

  lemma StartEnds(s: State, l: Label, s': State, a: Answer, tid: nat)
    requires l.Start? && StartStep(s, l, s', a) && tid in s'.threads && s'.threads[tid].phase.Ending?
    ensures tid in s.threads && s'.threads[tid].phase == s.threads[tid].phase
  {
    hide Collected, StartReply, NewRecord;
  }

  lemma CancelEnds(s: State, l: Label, s': State, a: Answer, tid: nat)
    requires l.Cancel? && CancelStep(s, l, s', a) && tid in s'.threads && s'.threads[tid].phase.Ending?
    ensures tid in s.threads && s'.threads[tid].phase == s.threads[tid].phase
  {
    hide Restated, Written;
  }

  lemma SetRunningEnds(s: State, l: Label, s': State, tid: nat)
    requires l.SetRunning? && SetRunningStep(s, l, s') && tid in s'.threads && s'.threads[tid].phase.Ending?
    ensures tid in s.threads && s'.threads[tid].phase == s.threads[tid].phase
  {
    hide Restated, Written;
  }

  lemma FinishEnds(s: State, l: Label, s': State, tid: nat)
    requires l.Finish? && FinishStep(s, l, s') && tid in s'.threads && s'.threads[tid].phase.Ending?
    ensures tid in s.threads && s'.threads[tid].phase == s.threads[tid].phase
  {
    hide Closed, Written;
  }

  lemma RecoverEnds(s: State, l: Label, s': State, tid: nat)
    requires (l.RecoverOne? && RecoverOneStep(s, l, s')) || (l.RecoverDone? && RecoverDoneStep(s, l, s'))
    requires tid in s'.threads && s'.threads[tid].phase.Ending?
    ensures tid in s.threads && s'.threads[tid].phase == s.threads[tid].phase
  {
    hide Collected, Interrupted, Written;
  }

  lemma QuietEnds(s: State, l: Label, s': State, tid: nat)
    requires !l.Start? && !l.Cancel? && !l.SetRunning? && !l.Finish? && !l.RecoverOne? && !l.RecoverDone? && !l.Return?
    requires Step(s, l, s') && tid in s'.threads && s'.threads[tid].phase.Ending?
    ensures || (tid in s.threads && s'.threads[tid].phase == s.threads[tid].phase)
            || Yields(s, l, tid, s'.threads[tid].phase.result)
  {
    hide Reports;
  }

  lemma ReturnEnds(s: State, l: Label, s': State, tid: nat)
    requires l.Return? && ReturnStep(s, l, s') && tid in s'.threads && s'.threads[tid].phase.Ending?
    ensures || (tid in s.threads && s'.threads[tid].phase == s.threads[tid].phase)
            || Yields(s, l, tid, s'.threads[tid].phase.result)
  {
    OutcomeOfExec(l.response, l.err);
    hide ResultFromExec, Reports;
  }

  /** A goroutine with an outcome in hand had it before the step or got it from the step. */
  lemma StepEnds(s: State, l: Label, s': State, tid: nat)
    requires Step(s, l, s') && tid in s'.threads && s'.threads[tid].phase.Ending?
    ensures || (tid in s.threads && s'.threads[tid].phase == s.threads[tid].phase)
            || Yields(s, l, tid, s'.threads[tid].phase.result)
  {
    hide Yields, StartStep, CancelStep, AcquireStep, CheckContextStep, SetRunningStep, ClearActiveStep, DispatchStep,
      ReturnStep, FinishStep, ReleaseStep, RecoverOneStep, RecoverDoneStep;
    if l.Start? {
      var a :| StartStep(s, l, s', a);
      StartEnds(s, l, s', a, tid);
    } else if l.Cancel? {
      var a :| CancelStep(s, l, s', a);
      CancelEnds(s, l, s', a, tid);
    } else if l.SetRunning? {
      SetRunningEnds(s, l, s', tid);
    } else if l.Finish? {
      FinishEnds(s, l, s', tid);
    } else if l.RecoverOne? || l.RecoverDone? {
      RecoverEnds(s, l, s', tid);
    } else if l.Return? {
      ReturnEnds(s, l, s', tid);
    } else {
      QuietEnds(s, l, s', tid);
    }
  }

  lemma {:induction false} EndingObtained(states: seq<State>, labels: seq<Label>, n: nat, tid: nat)
    requires Run(states, labels) && n <= |labels|
    requires tid in states[n].threads && states[n].threads[tid].phase.Ending?
    ensures Obtained(states, labels, n, tid, states[n].threads[tid].phase.result)
  {
    hide Step, Yields;
    if n > 0 {
      assert Step(states[n - 1], labels[n - 1], states[n]);
      StepEnds(states[n - 1], labels[n - 1], states[n], tid);
      if !Yields(states[n - 1], labels[n - 1], tid, states[n].threads[tid].phase.result) {
        EndingObtained(states, labels, n - 1, tid);
        var m: nat :| m < n - 1 && Yields(states[m], labels[m], tid, states[n - 1].threads[tid].phase.result);
      }
    }
  }

  /** The step at `f` finished the record under `k` as `r`; a goroutine did it with an outcome it obtained. */
  ghost predicate FinishedAt(states: seq<State>, labels: seq<Label>, f: nat, k: SessionId, r: Record)
    requires |labels| < |states|
  {
    && f < |labels| && Finishes(states[f], labels[f], k, r)
    && (labels[f].Finish? ==> Obtained(states, labels, f, labels[f].tid, states[f].threads[labels[f].tid].phase.result))
  }

  /** Every finished record of every run was finished once, by a cancel of its session, by a recovery, or
      by a goroutine of its session with the outcome its executor returned or its cancelled context gave. */
  lemma {:induction false} ResultOrigin(states: seq<State>, labels: seq<Label>, n: nat, k: SessionId)
    requires Run(states, labels) && n <= |labels|
    requires k in states[n].store && !Unfinished(states[n].store[k])
    ensures exists f: nat :: f < n && FinishedAt(states, labels, f, k, states[n].store[k])
  {
    hide Step, Finishes, Obtained, Unfinished;
    if n > 0 {
      assert Step(states[n - 1], labels[n - 1], states[n]);
      RunInv(states, labels, n - 1);
      StepFinishes(states[n - 1], labels[n - 1], states[n], k);
      if Finishes(states[n - 1], labels[n - 1], k, states[n].store[k]) {
        if labels[n - 1].Finish? { FinishHolds(states, labels, n - 1, k, states[n].store[k]); }
        assert FinishedAt(states, labels, n - 1, k, states[n].store[k]);
      } else {
        ResultOrigin(states, labels, n - 1, k);
        var f: nat :| f < n - 1 && FinishedAt(states, labels, f, k, states[n - 1].store[k]);
      }
    }
  }

  lemma FinishHolds(states: seq<State>, labels: seq<Label>, f: nat, k: SessionId, r: Record)
    requires Run(states, labels) && f < |labels| && labels[f].Finish? && Finishes(states[f], labels[f], k, r)
    ensures labels[f].tid in states[f].threads && states[f].threads[labels[f].tid].phase.Ending?
    ensures Obtained(states, labels, f, labels[f].tid, states[f].threads[labels[f].tid].phase.result)
  {
    hide Run;
    EndingObtained(states, labels, f, labels[f].tid);
  }

  /** A stored success was written when a goroutine of the session finished whose executor had returned
      exit code 0 without an error, neither timed out nor cancelled; the output is the executor's. */
  lemma SuccessOrigin(states: seq<State>, labels: seq<Label>, n: nat, k: SessionId)
    requires Run(states, labels) && n <= |labels|
    requires k in states[n].store && states[n].store[k].result.state == Succeeded
    ensures exists m: nat, f: nat ::
              && m < f < n && labels[f].Finish? && labels[m].Return? && labels[m].tid == labels[f].tid
              && labels[f].tid in states[f].threads && states[f].threads[labels[f].tid].request.sessionId == k
              && k in states[f].store && SameIdentity(states[f].store[k], states[n].store[k])
              && labels[m].err == None && labels[m].response.exitCode == 0
              && !labels[m].response.timedOut && !labels[m].response.cancelled
              && states[n].store[k].result.stdout == labels[m].response.stdout
              && states[n].store[k].result.stderr == labels[m].response.stderr
              && states[n].store[k].result.exitCode == Some(0)
  {
    ResultOrigin(states, labels, n, k);
    hide Run, Yields, SameIdentity;
    var f: nat :| f < n && FinishedAt(states, labels, f, k, states[n].store[k]);
    FinishedWell(states[f], labels[f], k, states[n].store[k]);
    var r := states[f].threads[labels[f].tid].phase.result;
    var m: nat :| m < f && Yields(states[m], labels[m], labels[f].tid, r);
    YieldsSuccess(states[m], labels[m], labels[f].tid, r);
  }

  lemma FinishedWell(s: State, l: Label, k: SessionId, r: Record)
    requires Finishes(s, l, k, r) && r.result.state == Succeeded
    ensures l.Finish? && l.tid in s.threads && s.threads[l.tid].request.sessionId == k
    ensures s.threads[l.tid].phase.Ending? && SameOutput(r.result, s.threads[l.tid].phase.result)
  {
  }

  lemma YieldsSuccess(s: State, l: Label, tid: nat, r: Result)
    requires Yields(s, l, tid, r) && r.state == Succeeded
    ensures l.Return? && l.tid == tid && l.err == None && l.response.exitCode == 0
    ensures !l.response.timedOut && !l.response.cancelled
    ensures r.stdout == l.response.stdout && r.stderr == l.response.stderr && r.exitCode == Some(0)
  {
  }
}
