/** Whose result a finished record carries. A session ID may be started again once its record was
    collected; a goroutine of the earlier record may still be at work and then finishes into the
    new one. This module says exactly when that happens. */
module ExecProvenance {
  import opened Collections
  import opened ExecRecords
  import opened ExecProtocol
  import opened ExecTheorems

  /** Some goroutine sent the command of incarnation `i`. */
  ghost predicate WasSent(log: seq<Event>, i: nat) {
    exists e :: e in log && Sent(e, i)
  }

  /** Session `sid` has not been started again since incarnation `i` was created. */
  ghost predicate NotRestarted(log: seq<Event>, sid: SessionId, i: nat) {
    forall e | e in log && e.Created? && e.sid == sid :: e.inc <= i
  }

  function RanOf(p: Phase): Option<nat> {
    match p
    case Committed(i) => Some(i)
    case Executing(i) => Some(i)
    case Ending(_, ran) => ran
    case _ => None
  }

  /** The stored incarnation is the latest created under its session ID. */
  ghost predicate LatestStored(inc: map<SessionId, nat>, log: seq<Event>) {
    && (forall k | k in inc :: Created(inc[k], k) in log)
    && (forall e | e in log && e.Created? && e.sid in inc :: e.inc <= inc[e.sid])
  }

  ghost predicate Traced(log: seq<Event>, tid: nat, th: Thread) {
    && (RanOf(th.phase).Some? ==> Created(RanOf(th.phase).value, th.request.sessionId) in log)
    && (th.phase.Executing? ==> Dispatched(th.phase.inc, th.request.sessionId, tid) in log)
    && (th.phase.Ending? && th.phase.result.state.Succeeded? ==>
          th.phase.ran.Some? && Dispatched(th.phase.ran.value, th.request.sessionId, tid) in log)
  }

  ghost predicate AllTraced(threads: map<nat, Thread>, log: seq<Event>) {
    forall t | t in threads :: Traced(log, t, threads[t])
  }

  /** A running record is the incarnation its goroutine committed to. */
  ghost predicate RunningIsRan(store: Store, inc: map<SessionId, nat>, threads: map<nat, Thread>, lock: Lock,
                               up: bool) {
    up && lock.HeldBy? && lock.tid in threads && RanOf(threads[lock.tid].phase).Some? ==>
      forall k | k in store && k in inc && store[k].result.state.Running? ::
        inc[k] == RanOf(threads[lock.tid].phase).value
  }

  ghost predicate Provenance(s: State) {
    && LatestStored(s.inc, s.log)
    && AllTraced(s.threads, s.log)
    && RunningIsRan(s.store, s.inc, s.threads, s.lock, s.up)
  }

  // ----- kept by every step -----

  lemma TracedGrows(threads: map<nat, Thread>, log: seq<Event>, f: Event)
    requires AllTraced(threads, log)
    ensures AllTraced(threads, log + [f])
  {
  }

  lemma LatestGrows(inc: map<SessionId, nat>, log: seq<Event>, f: Event)
    requires LatestStored(inc, log) && !f.Created?
    ensures LatestStored(inc, log + [f])
  {
  }

  lemma LatestShrinks(inc: map<SessionId, nat>, log: seq<Event>, keys: set<SessionId>)
    requires LatestStored(inc, log)
    ensures LatestStored(Keep(inc, keys), log)
  {
  }

  lemma CollectTraced(s: State, kept: Store)
    requires Provenance(s) && OldestFirst(s.store, kept)
    ensures Provenance(WithStore(s, kept))
  {
    LatestShrinks(s.inc, s.log, kept.Keys);
  }

  lemma AdmitLatest(inc: map<SessionId, nat>, births: nat, log: seq<Event>, sid: SessionId)
    requires LatestStored(inc, log) && Logged(log, births)
    ensures LatestStored(inc[sid := births], log + [Created(births, sid)])
  {
    var inc', log' := inc[sid := births], log + [Created(births, sid)];
    forall e | e in log' && e.Created? && e.sid in inc'
      ensures e.inc <= inc'[e.sid]
    {
      if e in log { assert e.inc < births; }
    }
  }

  lemma AdmitTraced(s: State, req: Request, now: int, w: WriteOutcome)
    requires Inv(s) && s.up && Provenance(s) && StartReply(s.store, req).None?
    ensures Provenance(Admitted(s, req, now, w))
  {
    if !w.NotWritten? {
      AdmitLatest(s.inc, s.births, s.log, req.sessionId);
      TracedGrows(s.threads, s.log, Created(s.births, req.sessionId));
      AdmitRan(s, req, now, w);
    }
  }

  lemma AdmitRan(s: State, req: Request, now: int, w: WriteOutcome)
    requires Placed(s.threads, s.spawned, s.births, s.up) && !w.NotWritten?
    requires RunningIsRan(s.store, s.inc, s.threads, s.lock, s.up) && Exclusive(s.threads, s.lock)
    requires AllTraced(s.threads, s.log + [Created(s.births, req.sessionId)])
    ensures var s' := Admitted(s, req, now, w);
            RunningIsRan(s'.store, s'.inc, s'.threads, s'.lock, s'.up) && AllTraced(s'.threads, s'.log)
  {
  }

  lemma StartTraced(s: State, l: Label, s': State, a: Answer)
    requires Inv(s) && Provenance(s) && l.Start? && StartStep(s, l, s', a)
    ensures Provenance(s')
  {
    if l.req.commandValid {
      CollectKeeps(s, l.kept);
      CollectTraced(s, l.kept);
      if l.collected && l.read.ReadOk? && StartReply(l.kept, l.req).None? {
        AdmitTraced(WithStore(s, l.kept), l.req, l.now, l.w);
      }
    }
  }

  /** Finishing or cancelling a record, and cancelling a context, keep provenance. */
  lemma CloseTraced(s: State, k: SessionId, r: Record)
    requires Provenance(s) && Terminal(r.result.state)
    ensures Provenance(s.(store := s.store[k := r]))
  {
  }

  lemma CancelContextTraced(s: State, sid: SessionId)
    requires Provenance(s)
    ensures Provenance(CancelContext(s, sid))
  {
  }

  lemma CancelTraced(s: State, l: Label, s': State, a: Answer)
    requires Provenance(s) && l.Cancel? && CancelStep(s, l, s', a)
    ensures Provenance(s')
  {
    var sid := l.req.sessionId;
    if l.read.ReadOk? && Bound(s.store, l.req).None? && !Terminal(s.store[sid].result.state) {
      CancelContextTraced(s, sid);
      CloseTraced(CancelContext(s, sid), s.store[sid].sessionId, Restated(s.store[sid], Canceled, l.now));
    }
  }

  /** A phase change that forgets or keeps the incarnation being run. */
  lemma PhaseTraced(s: State, tid: nat, p: Phase)
    requires Provenance(s) && tid in s.threads
    requires RanOf(p) == None || RanOf(p) == RanOf(s.threads[tid].phase)
    requires Traced(s.log, tid, s.threads[tid].(phase := p))
    ensures Provenance(SetPhase(s, tid, p))
  {
  }

  lemma SetRunningTraced(s: State, l: Label, s': State)
    requires Filed(s.store) && s.inc.Keys == s.store.Keys
    requires Exclusive(s.threads, s.lock) && RunningIsHeld(s.store, s.threads, s.lock, s.up)
    requires Provenance(s) && l.SetRunning? && SetRunningStep(s, l, s')
    ensures Provenance(s')
  {
    var sid := s.threads[l.tid].request.sessionId;
    if l.read.ReadFails? || !Live(s.store, sid) || l.w.NotWritten? {
      PhaseTraced(s, l.tid, s'.threads[l.tid].phase);
    } else {
      NoneRunning(s, l.tid);
      var e := Flipped(s.inc[sid], sid);
      LatestGrows(s.inc, s.log, e);
      TracedGrows(s.threads, s.log, e);
      FlipTraced(s, l, s');
    }
  }

  lemma FlipTraced(s: State, l: Label, s': State)
    requires l.SetRunning? && SetRunningStep(s, l, s') && !l.w.NotWritten? && l.read.ReadOk?
    requires Live(s.store, s.threads[l.tid].request.sessionId)
    requires s.store[s.threads[l.tid].request.sessionId].sessionId == s.threads[l.tid].request.sessionId
    requires s.inc.Keys == s.store.Keys && LatestStored(s.inc, s.log)
    requires Exclusive(s.threads, s.lock)
    requires forall k | k in s.store :: !s.store[k].result.state.Running?
    requires AllTraced(s.threads, s'.log)
    ensures AllTraced(s'.threads, s'.log)
    ensures RunningIsRan(s'.store, s'.inc, s'.threads, s'.lock, s'.up)
  {
    assert s.lock == HeldBy(l.tid);
  }

  lemma DispatchTraced(s: State, tid: nat, s': State)
    requires Provenance(s) && DispatchStep(s, tid, s')
    ensures Provenance(s')
  {
    var th := s.threads[tid];
    var e := Dispatched(th.phase.inc, th.request.sessionId, tid);
    LatestGrows(s.inc, s.log, e);
    TracedGrows(s.threads, s.log, e);
    var s1 := s.(log := s.log + [e]);
    assert Provenance(s1);
    assert e in s1.log;
    PhaseTraced(s1, tid, Executing(th.phase.inc));
  }

  lemma ReturnTraced(s: State, l: Label, s': State)
    requires Provenance(s) && l.Return? && ReturnStep(s, l, s')
    ensures Provenance(s')
  {
    assert Traced(s.log, l.tid, s.threads[l.tid]);
    PhaseTraced(s, l.tid, s'.threads[l.tid].phase);
  }

  lemma ForgetTraced(s: State, sid: SessionId)
    requires Provenance(s)
    ensures Provenance(Forget(s, sid))
  {
  }

  lemma PutTraced(s: State, r: Record, w: WriteOutcome)
    requires Provenance(s) && Terminal(r.result.state)
    ensures Provenance(Put(s, r, w)) && Put(s, r, w).threads == s.threads && Put(s, r, w).log == s.log
  {
    if !w.NotWritten? { CloseTraced(s, r.sessionId, r); }
  }

  lemma FinishTraced(s: State, l: Label, s': State)
    requires Placed(s.threads, s.spawned, s.births, s.up)
    requires Provenance(s) && l.Finish? && FinishStep(s, l, s')
    ensures Provenance(s')
  {
    var th := s.threads[l.tid];
    var sid := th.request.sessionId;
    var s1 := Forget(s, sid);
    assert Terminal(th.phase.result.state);
    hide Placed, Provenance, Put;
    ForgetTraced(s, sid);
    if l.read.ReadOk? && Live(s.store, sid) {
      var r := Closed(s.store[sid], th.phase.result, l.now);
      PutTraced(s1, r, l.w);
      PhaseTraced(Put(s1, r, l.w), l.tid, s'.threads[l.tid].phase);
    } else {
      PhaseTraced(s1, l.tid, s'.threads[l.tid].phase);
    }
  }

  lemma ReleaseTraced(s: State, tid: nat, s': State)
    requires Provenance(s) && ReleaseStep(s, tid, s')
    ensures Provenance(s')
  {
  }

  lemma AcquireTraced(s: State, tid: nat, s': State)
    requires Provenance(s) && AcquireStep(s, tid, s')
    ensures Provenance(s')
  {
  }

  lemma CheckContextTraced(s: State, tid: nat, s': State)
    requires Provenance(s) && CheckContextStep(s, tid, s')
    ensures Provenance(s')
  {
    PhaseTraced(s, tid, s'.threads[tid].phase);
  }

  lemma ClearActiveTraced(s: State, tid: nat, s': State)
    requires Provenance(s) && ClearActiveStep(s, tid, s')
    ensures Provenance(s')
  {
    PhaseTraced(s, tid, s'.threads[tid].phase);
  }

  lemma CrashTraced(s: State)
    requires Provenance(s)
    ensures Provenance(AfterCrash(s))
  {
    LatestGrows(s.inc, s.log, Crashed);
  }

  lemma RecoverTraced(s: State, l: Label, s': State)
    requires Inv(s) && Provenance(s)
    requires (l.RecoverOne? && RecoverOneStep(s, l, s')) || (l.RecoverDone? && RecoverDoneStep(s, l, s'))
    ensures Provenance(s')
  {
    if l.RecoverOne? {
      var r := Interrupted(s.store[l.sid], l.now);
      CloseTraced(s, s.store[l.sid].sessionId, r);
      if !l.w.Durable? { CrashTraced(Put(s, r, l.w)); }
    } else {
      CollectTraced(s, l.kept);
      if l.collected {
        ServeTraced(WithStore(s, l.kept));
      } else {
        CrashTraced(WithStore(s, l.kept));
      }
    }
  }

  lemma ServeTraced(s: State)
    requires Provenance(s) && s.threads == map[]
    ensures Provenance(s.(up := true))
  {
  }

  lemma HandlerTraced(s: State, l: Label, s': State)
    requires Inv(s) && Provenance(s) && Step(s, l, s')
    requires l.Start? || l.Cancel? || l.Crash? || l.RecoverOne? || l.RecoverDone? ||
             l.Poll? || l.SyncAcquire? || l.SyncRelease?
    ensures Provenance(s')
  {
    hide WellKept, Numbered, Placed, Exclusive, RunningIsHeld, Logged, QueuedUntouched, LiveIsRecent, CommitsBacked,
      StartStep, CancelStep, AcquireStep, CheckContextStep, SetRunningStep, ClearActiveStep, DispatchStep,
      ReturnStep, FinishStep, ReleaseStep, RecoverOneStep, RecoverDoneStep;
    match l
    case Start(_, _, _, _, _, _, _) =>
      var a :| StartStep(s, l, s', a);
      StartTraced(s, l, s', a);
    case Cancel(_, _, _, _) =>
      var a :| CancelStep(s, l, s', a);
      CancelTraced(s, l, s', a);
    case Crash => CrashTraced(s);
    case RecoverOne(_, _, _) => RecoverTraced(s, l, s');
    case RecoverDone(_, _, _, _) => RecoverTraced(s, l, s');
    case _ =>
  }

  lemma GoroutineTraced(s: State, l: Label, s': State)
    requires Inv(s) && Provenance(s) && Step(s, l, s')
    requires l.Acquire? || l.CheckContext? || l.SetRunning? || l.ClearActive? || l.Dispatch? ||
             l.Return? || l.Finish? || l.Release?
    ensures Provenance(s')
  {
    hide StartStep, CancelStep, AcquireStep, CheckContextStep, SetRunningStep, ClearActiveStep, DispatchStep,
      ReturnStep, FinishStep, ReleaseStep, RecoverOneStep, RecoverDoneStep;
    match l
    case Acquire(tid) => AcquireTraced(s, tid, s');
    case CheckContext(tid) => CheckContextTraced(s, tid, s');
    case SetRunning(_, _, _, _) => SetRunningTraced(s, l, s');
    case ClearActive(tid) => ClearActiveTraced(s, tid, s');
    case Dispatch(tid) => DispatchTraced(s, tid, s');
    case Return(_, _, _) => ReturnTraced(s, l, s');
    case Finish(_, _, _, _) => FinishTraced(s, l, s');
    case Release(tid) => ReleaseTraced(s, tid, s');
    case _ =>
  }

  lemma StepTraced(s: State, l: Label, s': State)
    requires Inv(s) && Provenance(s) && Step(s, l, s')
    ensures Provenance(s')
  {
    if l.Acquire? || l.CheckContext? || l.SetRunning? || l.ClearActive? || l.Dispatch? ||
       l.Return? || l.Finish? || l.Release? {
      GoroutineTraced(s, l, s');
    } else {
      HandlerTraced(s, l, s');
    }
  }

  lemma {:induction false} RunTraced(states: seq<State>, labels: seq<Label>, n: nat)
    requires Run(states, labels) && n < |states|
    ensures Provenance(states[n])
  {
    if n > 0 {
      RunTraced(states, labels, n - 1);
      RunInv(states, labels, n - 1);
      StepTraced(states[n - 1], labels[n - 1], states[n]);
    }
  }

  /** While goroutine `tid` ends, its session's record is queued or the incarnation it ran. */
  lemma RanOrQueued(s: State, tid: nat)
    requires Exclusive(s.threads, s.lock) && RunningIsRan(s.store, s.inc, s.threads, s.lock, s.up)
    requires At(s, tid) && s.threads[tid].phase.Ending? && s.threads[tid].phase.ran.Some?
    requires Live(s.store, s.threads[tid].request.sessionId) && s.threads[tid].request.sessionId in s.inc
    ensures var sid := s.threads[tid].request.sessionId;
            s.store[sid].result.state.Queued? || s.inc[sid] == s.threads[tid].phase.ran.value
  {
    assert s.lock == HeldBy(tid);
  }

  /** A goroutine that records success writes it into a record whose command was sent exactly when the
      session was not started again since the record it ran was created. */
  lemma OwnResult(s: State, tid: nat)
    requires Exclusive(s.threads, s.lock) && QueuedUntouched(s.store, s.inc, s.log) && Provenance(s)
    requires At(s, tid) && s.threads[tid].phase.Ending? && s.threads[tid].phase.result.state.Succeeded?
    requires Live(s.store, s.threads[tid].request.sessionId) && s.threads[tid].request.sessionId in s.inc
    ensures s.threads[tid].phase.ran.Some?
    ensures var sid := s.threads[tid].request.sessionId;
            WasSent(s.log, s.inc[sid]) <==> NotRestarted(s.log, sid, s.threads[tid].phase.ran.value)
  {
    var sid := s.threads[tid].request.sessionId;
    assert Traced(s.log, tid, s.threads[tid]);
    var ran, i := s.threads[tid].phase.ran.value, s.inc[sid];
    assert Created(i, sid) in s.log && Created(ran, sid) in s.log;
    if NotRestarted(s.log, sid, ran) {
      assert i == ran;
      assert Sent(Dispatched(ran, sid, tid), i);
    }
    if WasSent(s.log, i) {
      var e :| e in s.log && Sent(e, i);
      assert Concerns(e, i) && !OnlyCreated(s.log, i);
      RanOrQueued(s, tid);
    }
  }

  lemma OwnResultInRuns(states: seq<State>, labels: seq<Label>, n: nat, tid: nat)
    requires Run(states, labels) && n < |states| && At(states[n], tid)
    requires states[n].threads[tid].phase.Ending? && states[n].threads[tid].phase.result.state.Succeeded?
    requires Live(states[n].store, states[n].threads[tid].request.sessionId)
    requires states[n].threads[tid].request.sessionId in states[n].inc
    ensures states[n].threads[tid].phase.ran.Some?
    ensures var s, sid := states[n], states[n].threads[tid].request.sessionId;
            WasSent(s.log, s.inc[sid]) <==> NotRestarted(s.log, sid, s.threads[tid].phase.ran.value)
  {
    RunInv(states, labels, n);
    RunTraced(states, labels, n);
    OwnResult(states[n], tid);
  }
}
