/** What every run of the execution coordinator keeps. */
module ExecTheorems {
  import opened Collections
  import opened ExecRecords
  import opened ExecProtocol

  lemma {:induction false} RunInv(states: seq<State>, labels: seq<Label>, n: nat)
    requires Run(states, labels) && n < |states|
    ensures Inv(states[n])
  {
    if n == 0 {
      InitInv(states[0]);
    } else {
      RunInv(states, labels, n - 1);
      StepInv(states[n - 1], labels[n - 1], states[n]);
    }
  }

  /** At most one dispatch per record lifetime, each after a durable creation and a durable flip
      to running, and none of a record that was in flight at an earlier crash. */
  lemma DispatchSafety(states: seq<State>, labels: seq<Label>, n: nat)
    requires Run(states, labels) && n < |states|
    ensures AtMostOnce(states[n].log)
    ensures Grounded(states[n].log)
    ensures NeverRedispatched(states[n].log)
  {
    RunInv(states, labels, n);
    GroundedMeansFresh(states[n].log);
  }

  /** A dispatch after a crash is of a record created after that crash. */
  ghost predicate NeverRedispatched(log: seq<Event>) {
    forall c, j | 0 <= c < j < |log| && log[c].Crashed? && log[j].Dispatched? ::
      exists b :: c < b < j && log[b] == Created(log[j].inc, log[j].sid)
  }

  lemma GroundedMeansFresh(log: seq<Event>)
    requires Grounded(log)
    ensures NeverRedispatched(log)
  {
    forall c, j | 0 <= c < j < |log| && log[c].Crashed? && log[j].Dispatched?
      ensures exists b :: c < b < j && log[b] == Created(log[j].inc, log[j].sid)
    {
      var e := Created(log[j].inc, log[j].sid);
      var before := log[..j];
      assert Since(before, e);
      var b :| 0 <= b < |before| && before[b] == e && Crashed !in before[b..];
      forall x | b <= x < j
        ensures log[x] != Crashed
      {
        assert before[b..][x - b] == log[x];
      }
      assert log[b] == e;
    }
  }

  /** While the coordinator serves, a running record's goroutine holds the mutation lock, so at
      most one record is running. */
  lemma RunningHoldsLock(states: seq<State>, labels: seq<Label>, n: nat)
    requires Run(states, labels) && n < |states| && states[n].up
    ensures forall k | k in states[n].store && states[n].store[k].result.state.Running? ::
              && states[n].lock.HeldBy? && states[n].lock.tid in states[n].threads
              && states[n].threads[states[n].lock.tid].request.sessionId == k
    ensures forall j, k | j in states[n].store && k in states[n].store &&
                          states[n].store[j].result.state.Running? && states[n].store[k].result.state.Running? :: j == k
  {
    RunInv(states, labels, n);
  }

  /** The store starting empty stays within capacity and holds one record per caller and request. */
  lemma StoreBounded(states: seq<State>, labels: seq<Label>, n: nat)
    requires Run(states, labels) && n < |states|
    ensures |states[n].store| <= 128
    ensures UniqueRequests(states[n].store) && Filed(states[n].store)
  {
    RunInv(states, labels, n);
  }

  // ----- lifetimes -----

  predicate SameIdentity(a: Record, b: Record) {
    && a.sessionId == b.sessionId && a.requestId == b.requestId && a.callerKey == b.callerKey
    && a.fingerprint == b.fingerprint && a.createdAt == b.createdAt
  }

  /** How the record of one incarnation may change. */
  predicate Aged(a: Record, b: Record) {
    && SameIdentity(a, b)
    && Rank(a.result.state) <= Rank(b.result.state)
    && (Terminal(a.result.state) ==> a == b)
  }

  /** Old incarnations age or vanish; they never come back. */
  ghost predicate Evolves(s: State, s': State) {
    && s.births <= s'.births
    && (forall k | k in s'.inc && s'.inc[k] < s.births :: k in s.inc && s.inc[k] == s'.inc[k])
    && (forall k | k in s.store && k in s'.store && k in s.inc && k in s'.inc && s.inc[k] == s'.inc[k] ::
          Aged(s.store[k], s'.store[k]))
  }

  lemma EvolvesTransitive(a: State, b: State, c: State)
    requires Numbered(a.store, a.inc, a.births) && Numbered(b.store, b.inc, b.births) &&
             Numbered(c.store, c.inc, c.births)
    requires Evolves(a, b) && Evolves(b, c)
    ensures Evolves(a, c)
  {
    forall k | k in a.store && k in c.store && k in a.inc && k in c.inc && a.inc[k] == c.inc[k]
      ensures Aged(a.store[k], c.store[k])
    {
      assert c.inc[k] < b.births;
      assert k in b.inc && b.inc[k] == c.inc[k];
      assert Aged(a.store[k], b.store[k]) && Aged(b.store[k], c.store[k]);
    }
  }

  lemma ShrinkEvolves(s: State, kept: Store)
    requires Numbered(s.store, s.inc, s.births) && OldestFirst(s.store, kept)
    ensures Evolves(s, WithStore(s, kept))
  {
  }

  lemma AdmitEvolves(s: State, req: Request, now: int, w: WriteOutcome)
    requires Numbered(s.store, s.inc, s.births) && req.sessionId !in s.store
    ensures Evolves(s, Admitted(s, req, now, w))
  {
  }

  lemma AdmitNumbered(store: Store, inc: map<SessionId, nat>, births: nat, sid: SessionId, r: Record)
    requires Numbered(store, inc, births) && sid !in store
    ensures Numbered(store[sid := r], inc[sid := births], births + 1)
  {
  }

  lemma StartEvolves(s: State, l: Label, s': State, a: Answer)
    requires Numbered(s.store, s.inc, s.births) && l.Start? && StartStep(s, l, s', a)
    ensures Evolves(s, s')
  {
    hide Evolves, StartReply, NewRecord, Numbered, Admitted;
    StayEvolves(s);
    if l.req.commandValid {
      var mid := WithStore(s, l.kept);
      ShrinkEvolves(s, l.kept);
      if s' != mid {
        AdmittedEvolves(s, l.kept, l.req, l.now, l.w);
      }
    }
  }

  lemma StayEvolves(s: State)
    ensures Evolves(s, s)
  {
  }

  lemma AdmittedEvolves(s: State, kept: Store, req: Request, now: int, w: WriteOutcome)
    requires Numbered(s.store, s.inc, s.births) && OldestFirst(s.store, kept) && StartReply(kept, req).None?
    ensures Evolves(s, Admitted(WithStore(s, kept), req, now, w))
  {
    hide Evolves;
    var mid := WithStore(s, kept);
    NumberedShrinks(s.store, s.inc, s.births, kept);
    ShrinkEvolves(s, kept);
    AdmitEvolves(mid, req, now, w);
    AdmitNumbered(mid.store, mid.inc, mid.births, req.sessionId, NewRecord(req, now));
    EvolvesTransitive(s, mid, Admitted(mid, req, now, w));
  }

  /** One record is rewritten or nothing is. */
  lemma RewriteEvolves(s: State, s': State, k: SessionId)
    requires Numbered(s.store, s.inc, s.births)
    requires s'.inc == s.inc && s'.births == s.births && s'.store.Keys == s.store.Keys
    requires forall j | j in s.store && j != k :: s'.store[j] == s.store[j]
    requires k in s.store ==> Aged(s.store[k], s'.store[k])
    ensures Evolves(s, s')
  {
  }

  lemma CancelEvolves(s: State, l: Label, s': State, a: Answer)
    requires Filed(s.store) && Numbered(s.store, s.inc, s.births)
    requires l.Cancel? && CancelStep(s, l, s', a)
    ensures Evolves(s, s')
  {
    RewriteEvolves(s, s', l.req.sessionId);
  }

  lemma SetRunningEvolves(s: State, l: Label, s': State)
    requires Filed(s.store) && Numbered(s.store, s.inc, s.births)
    requires l.SetRunning? && SetRunningStep(s, l, s')
    requires var sid := s.threads[l.tid].request.sessionId;
             Live(s.store, sid) ==> s.store[sid].result.state.Queued?
    ensures Evolves(s, s')
  {
    RewriteEvolves(s, s', s.threads[l.tid].request.sessionId);
  }

  lemma FinishEvolves(s: State, l: Label, s': State)
    requires Filed(s.store) && Numbered(s.store, s.inc, s.births) && Placed(s.threads, s.spawned, s.births, s.up)
    requires l.Finish? && FinishStep(s, l, s')
    ensures Evolves(s, s')
  {
    RewriteEvolves(s, s', s.threads[l.tid].request.sessionId);
  }

  lemma RecoverEvolves(s: State, l: Label, s': State)
    requires Filed(s.store) && Numbered(s.store, s.inc, s.births)
    requires l.RecoverOne? && RecoverOneStep(s, l, s')
    ensures Evolves(s, s')
  {
    hide Evolves;
    RewriteEvolves(s, s', l.sid);
  }

  lemma RecoverDoneEvolves(s: State, l: Label, s': State)
    requires Numbered(s.store, s.inc, s.births) && l.RecoverDone? && RecoverDoneStep(s, l, s')
    ensures Evolves(s, s')
  {
    var mid := WithStore(s, l.kept);
    ShrinkEvolves(s, l.kept);
    assert s'.store == mid.store && s'.inc == mid.inc && s'.births == mid.births;
  }

  lemma QuietEvolves(s: State, l: Label, s': State)
    requires Numbered(s.store, s.inc, s.births) && Step(s, l, s')
    requires !l.Start? && !l.Cancel? && !l.SetRunning? && !l.Finish? && !l.RecoverOne? && !l.RecoverDone?
    ensures Evolves(s, s')
  {
    assert s'.store == s.store && s'.inc == s.inc && s'.births == s.births;
  }

  lemma HandlerEvolves(s: State, l: Label, s': State)
    requires Filed(s.store) && Numbered(s.store, s.inc, s.births) && Step(s, l, s')
    requires l.Start? || l.Cancel?
    ensures Evolves(s, s')
  {
    if l.Start? {
      var a :| StartStep(s, l, s', a);
      StartEvolves(s, l, s', a);
    } else {
      var a :| CancelStep(s, l, s', a);
      CancelEvolves(s, l, s', a);
    }
  }

  lemma StepEvolves(s: State, l: Label, s': State)
    requires Inv(s) && Step(s, l, s')
    ensures Evolves(s, s')
  {
    hide Evolves, Placed, Exclusive, RunningIsHeld, Logged, QueuedUntouched, LiveIsRecent, CommitsBacked,
      StartStep, CancelStep, AcquireStep, CheckContextStep, ClearActiveStep, DispatchStep,
      ReturnStep, FinishStep, ReleaseStep, RecoverOneStep, RecoverDoneStep;
    if l.Start? || l.Cancel? {
      HandlerEvolves(s, l, s');
    } else if l.SetRunning? {
      ReadyFindsQueued(s, l.tid);
      SetRunningEvolves(s, l, s');
    } else if l.Finish? {
      FinishEvolves(s, l, s');
    } else if l.RecoverOne? {
      RecoverEvolves(s, l, s');
    } else if l.RecoverDone? {
      RecoverDoneEvolves(s, l, s');
    } else {
      QuietEvolves(s, l, s');
    }
  }

  lemma RunStep(states: seq<State>, labels: seq<Label>, n: nat)
    requires Run(states, labels) && n < |labels|
    ensures Evolves(states[n], states[n + 1])
  {
    RunInv(states, labels, n);
    StepEvolves(states[n], labels[n], states[n + 1]);
  }

  lemma RunNumbered(states: seq<State>, labels: seq<Label>, n: nat)
    requires Run(states, labels) && n < |states|
    ensures Numbered(states[n].store, states[n].inc, states[n].births)
  {
    RunInv(states, labels, n);
  }

  lemma {:induction false} ChainEvolves(states: seq<State>, i: nat, j: nat)
    requires i <= j < |states|
    requires forall n | 0 <= n < |states| :: Numbered(states[n].store, states[n].inc, states[n].births)
    requires forall n | 0 <= n < |states| - 1 :: Evolves(states[n], states[n + 1])
    ensures Evolves(states[i], states[j])
    decreases j - i
  {
    if i == j {
      assert Numbered(states[i].store, states[i].inc, states[i].births);
    } else {
      ChainEvolves(states, i, j - 1);
      assert Evolves(states[j - 1], states[j - 1 + 1]);
      EvolvesTransitive(states[i], states[j - 1], states[j]);
    }
  }

  /** Between any two points of a run, a record of one incarnation only moves queued to running
      to finished, keeps its identity, and is frozen once finished. */
  lemma RecordLifetime(states: seq<State>, labels: seq<Label>, i: nat, j: nat)
    requires Run(states, labels) && i <= j < |states|
    ensures Evolves(states[i], states[j])
  {
    forall n | 0 <= n < |states|
      ensures Numbered(states[n].store, states[n].inc, states[n].births)
    {
      RunNumbered(states, labels, n);
    }
    forall n | 0 <= n < |states| - 1
      ensures Evolves(states[n], states[n + 1])
    {
      RunStep(states, labels, n);
    }
    ChainEvolves(states, i, j);
  }

  /** A record that survives a start with its incarnation survived the collection. */
  lemma SameIncarnationKept(s: State, l: Label, s': State, a: Answer, k: SessionId)
    requires Numbered(s.store, s.inc, s.births) && l.Start? && StartStep(s, l, s', a) && l.req.commandValid
    requires k in s'.store && k in s.store && k in s.inc && k in s'.inc && s'.inc[k] == s.inc[k]
    ensures k in l.kept
  {
    hide StartReply, NewRecord, Collected;
    assert s.inc[k] < s.births;
  }

  /** A start repeated while its record is kept answers from that record and changes nothing else. */
  lemma RepeatedStart(s: State, l: Label, s': State, a: Answer, k: SessionId)
    requires WellKept(s.store) && Numbered(s.store, s.inc, s.births)
    requires l.Start? && StartStep(s, l, s', a) && l.req.commandValid
    requires k in s'.store && k in s.store && k in s.inc && k in s'.inc && s'.inc[k] == s.inc[k]
    requires SameRequest(s.store[k], l.req.callerKey, l.req.requestId)
    ensures s'.store[k] == s.store[k]
    ensures s'.threads == s.threads && s'.log == s.log && s'.active == s.active && s'.births == s.births
    ensures l.collected && l.read.ReadOk? ==>
              a == if s.store[k].fingerprint == l.req.fingerprint then Ok(s.store[k].result) else Refused(409)
    ensures !(l.collected && l.read.ReadOk?) ==> a == Broken
  {
    hide Numbered, Admitted, NewRecord;
    SameIncarnationKept(s, l, s', a, k);
    KeptAnswers(s.store, l.kept, l.req, k);
  }

  lemma KeptAnswers(store: Store, kept: Store, req: Request, k: SessionId)
    requires WellKept(store) && OldestFirst(store, kept)
    requires k in kept && SameRequest(store[k], req.callerKey, req.requestId)
    ensures k in store && kept[k] == store[k]
    ensures StartReply(kept, req) ==
            Some(if store[k].fingerprint == req.fingerprint then Ok(store[k].result) else Refused(409))
  {
    OldestFirstKeeps(store, kept);
    assert Known(kept, req);
    assert KnownAs(kept, req) == k;
  }

  /** A start that no record answers finds at most a foreign or different request under its session ID:
      the answer from a record found there is never given. */
  lemma SessionNeverAnswers(store: Store, req: Request)
    requires !Known(store, req) && req.sessionId in store
    ensures store[req.sessionId].callerKey != req.callerKey || store[req.sessionId].requestId != req.requestId
  {
    assert !SameRequest(store[req.sessionId], req.callerKey, req.requestId);
  }

  /** A start whose write landed although it failed leaves a queued record, and no goroutine for it. */
  lemma LandedStart(s: State, l: Label, s': State, a: Answer)
    requires l.Start? && l.req.commandValid && l.collected && l.read.ReadOk? && l.w.LandedThenFailed?
    requires StartStep(s, l, s', a) && StartReply(l.kept, l.req).None?
    ensures a == Broken && s'.threads == s.threads && s'.active == s.active
    ensures l.req.sessionId in s'.store && s'.store[l.req.sessionId].result.state.Queued?
  {
    hide Collected, StartReply;
  }

  lemma RunKept(states: seq<State>, labels: seq<Label>, n: nat)
    requires Run(states, labels) && n < |states|
    ensures WellKept(states[n].store)
  {
    hide Run;
    RunInv(states, labels, n);
  }

  /** The record of a new incarnation is the one the start wrote. */
  lemma CreatedFor(s: State, l: Label, s': State)
    requires Numbered(s.store, s.inc, s.births) && l.Start? && l.req.commandValid && Step(s, l, s')
    requires l.req.sessionId in s'.inc && s'.inc[l.req.sessionId] == s.births
    ensures l.req.sessionId in s'.store && s'.store[l.req.sessionId] == NewRecord(l.req, l.now)
  {
    hide Collected, StartReply, NewRecord;
    var a :| StartStep(s, l, s', a);
  }

  /** An incarnation seen before and after was there in between, with its identity. */
  lemma SameThrough(s0: State, s1: State, s2: State, s3: State, k: SessionId, r: Record)
    requires Numbered(s1.store, s1.inc, s1.births) && Numbered(s2.store, s2.inc, s2.births) &&
             Numbered(s3.store, s3.inc, s3.births)
    requires Evolves(s1, s2) && Evolves(s2, s3)
    requires k in s1.inc && s1.inc[k] == s0.births && k in s3.inc && s3.inc[k] == s0.births
    requires k in s1.store && s1.store[k] == r
    ensures k in s2.inc && s2.inc[k] == s0.births && k in s2.store && k in s3.store && SameIdentity(r, s2.store[k])
  {
  }

  /** What holds around one step of a run. */
  lemma RunFacts(states: seq<State>, labels: seq<Label>, n: nat)
    requires Run(states, labels) && n < |labels|
    ensures n + 1 < |states| && Step(states[n], labels[n], states[n + 1]) && Evolves(states[n], states[n + 1])
    ensures Numbered(states[n].store, states[n].inc, states[n].births)
    ensures Numbered(states[n + 1].store, states[n + 1].inc, states[n + 1].births)
  {
    hide Step, Evolves, Numbered;
    RunStep(states, labels, n);
    RunNumbered(states, labels, n);
    RunNumbered(states, labels, n + 1);
  }

  lemma RecordOf(req: Request, now: int)
    ensures var r := NewRecord(req, now);
            r.callerKey == req.callerKey && r.requestId == req.requestId && r.fingerprint == req.fingerprint
  {
  }

  /** A client that repeats its start, lost answers, crashes and other traffic in between, reaches the
      record of its first attempt for as long as that is kept: nothing is created or spawned again. */
  lemma RetryReuses(states: seq<State>, labels: seq<Label>, i: nat, j: nat, a: Answer)
    requires Run(states, labels) && i < j < |labels| && labels[i].Start? && labels[j].Start?
    requires labels[j].req == labels[i].req && labels[i].req.commandValid
    requires var k := labels[i].req.sessionId;
             && k in states[i + 1].inc && states[i + 1].inc[k] == states[i].births
             && k in states[j + 1].inc && states[j + 1].inc[k] == states[i].births
    requires StartStep(states[j], labels[j], states[j + 1], a)
    ensures var k := labels[i].req.sessionId;
            && k in states[j].store && k in states[j + 1].store && states[j + 1].store[k] == states[j].store[k]
            && states[j + 1].births == states[j].births && states[j + 1].threads == states[j].threads
            && states[j + 1].log == states[j].log
            && (a == Broken || a == Ok(states[j].store[k].result))
  {
    hide StartStep, Step, Run, Numbered, Evolves, WellKept, NewRecord;
    var k := labels[i].req.sessionId;
    RunFacts(states, labels, i);
    RunFacts(states, labels, j);
    CreatedFor(states[i], labels[i], states[i + 1]);
    RunKept(states, labels, j);
    RecordLifetime(states, labels, i + 1, j);
    SameThrough(states[i], states[i + 1], states[j], states[j + 1], k, NewRecord(labels[i].req, labels[i].now));
    RecordOf(labels[i].req, labels[i].now);
    RepeatedStart(states[j], labels[j], states[j + 1], a, k);
  }
}
