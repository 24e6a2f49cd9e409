/** What lies behind every dispatch: the way of its goroutine from the start to the flip, and no cancel of
    a queued record. */
module ExecJourney {
  import opened Collections
  import opened ExecRecords
  import opened ExecProtocol
  import opened ExecTheorems

  /** How far on its way to the dispatch a goroutine is. */
  function Depth(p: Phase): nat {
    match p
    case Holding => 1
    case Ready => 2
    case Committed(_) => 3
    case Executing(_) => 3
    case _ => 0
  }

  /** One step of a goroutine on its way, or its birth. */
  ghost predicate Moved(s: State, l: Label, s': State, t: nat)
    requires t in s'.threads
  {
    var th' := s'.threads[t];
    if t !in s.threads then
      l.Start? && l.req.commandValid && l.w.Durable? && l.req == th'.request && th'.phase == Waiting
    else
      && l != Crash && th'.request == s.threads[t].request
      && (|| Depth(th'.phase) <= Depth(s.threads[t].phase)
          || (th'.phase == Holding && l == Acquire(t) && s.lock == Free)
          || (th'.phase == Ready && s.threads[t].phase == Holding && l == CheckContext(t) && !s.threads[t].cancelled)
          || (&& Depth(th'.phase) == 3 && s.threads[t].phase == Ready && l.SetRunning? && l.tid == t
              && l.read.ReadOk? && l.w.Durable? && Live(s.store, th'.request.sessionId)))
  }

  lemma HandlerMoved(s: State, l: Label, s': State, t: nat)
    requires l.Start? || l.Cancel? || l.RecoverOne? || l.RecoverDone?
    requires Placed(s.threads, s.spawned, s.births, s.up) && Step(s, l, s') && t in s'.threads
    ensures Moved(s, l, s', t)
  {
    hide Collected, StartReply, NewRecord, Restated, Interrupted, Written;
  }

  lemma FinishMoved(s: State, l: Label, s': State, t: nat)
    requires l.Finish? && FinishStep(s, l, s') && t in s'.threads
    ensures Moved(s, l, s', t)
  {
    hide Closed, Written;
  }

  lemma SetRunningMoved(s: State, l: Label, s': State, t: nat)
    requires l.SetRunning? && SetRunningStep(s, l, s') && t in s'.threads
    ensures Moved(s, l, s', t)
  {
    SetRunningPhase(s, l, s');
    hide SetRunningStep, Live;
  }

  lemma SetRunningPhase(s: State, l: Label, s': State)
    requires l.SetRunning? && SetRunningStep(s, l, s')
    ensures At(s, l.tid) && s.threads[l.tid].phase == Ready && l.tid in s'.threads
    ensures var p := s'.threads[l.tid].phase;
            && s'.threads == s.threads[l.tid := s.threads[l.tid].(phase := p)]
            && (p.Abandoning? ||
                (p.Committed? && l.read.ReadOk? && l.w.Durable? && Live(s.store, s.threads[l.tid].request.sessionId)))
  {
    hide Restated, Written, Inc;
  }

  lemma StepMoved(s: State, l: Label, s': State, t: nat)
    requires Placed(s.threads, s.spawned, s.births, s.up) && Step(s, l, s') && t in s'.threads
    ensures Moved(s, l, s', t)
  {
    if l.Start? || l.Cancel? || l.RecoverOne? || l.RecoverDone? {
      HandlerMoved(s, l, s', t);
    } else if l.Finish? {
      FinishMoved(s, l, s', t);
    } else if l.SetRunning? {
      SetRunningMoved(s, l, s', t);
    } else {
      hide ResultFromExec;
    }
  }

  /** The start at `k`, the lock at `a`, the look at the context at `c` and the flip at `m`, as far as the
      goroutine has got by position `n`, without a crash. */
  predicate Travelled(states: seq<State>, labels: seq<Label>, n: nat, t: nat, request: Request, depth: nat,
                      k: nat, a: nat, c: nat, m: nat)
    requires n <= |labels| < |states|
  {
    && k < n && labels[k].Start? && labels[k].w.Durable? && labels[k].req == request && request.commandValid
    && t !in states[k].threads && Crash !in labels[k..n]
    && (depth >= 1 ==> k < a < n && labels[a] == Acquire(t) && states[a].lock == Free)
    && (depth >= 2 ==> a < c < n && labels[c] == CheckContext(t) && t in states[c].threads
                       && !states[c].threads[t].cancelled)
    && (depth >= 3 ==> c < m < n && labels[m].SetRunning? && labels[m].tid == t && labels[m].read.ReadOk?
                       && labels[m].w.Durable? && Live(states[m].store, request.sessionId))
  }

  lemma {:induction false} Way(states: seq<State>, labels: seq<Label>, n: nat, t: nat)
    returns (k: nat, a: nat, c: nat, m: nat)
    requires Run(states, labels) && n <= |labels| && t in states[n].threads
    ensures Travelled(states, labels, n, t, states[n].threads[t].request, Depth(states[n].threads[t].phase), k, a, c, m)
  {
    hide Step, Inv, Moved, Travelled;
    if n > 0 {
      var s, l := states[n - 1], labels[n - 1];
      assert Step(s, l, states[n]);
      RunInv(states, labels, n - 1);
      assert Placed(s.threads, s.spawned, s.births, s.up) by { InvParts(s); }
      StepMoved(s, l, states[n], t);
      if t !in s.threads {
        k, a, c, m := n - 1, 0, 0, 0;
        Departs(states, labels, n - 1, t);
      } else {
        k, a, c, m := Way(states, labels, n - 1, t);
        a, c, m := GoesOn(states, labels, n - 1, t, k, a, c, m);
      }
    }
  }

  lemma Departs(states: seq<State>, labels: seq<Label>, n: nat, t: nat)
    requires n < |labels| < |states| && t in states[n + 1].threads && t !in states[n].threads
    requires Moved(states[n], labels[n], states[n + 1], t)
    ensures Travelled(states, labels, n + 1, t, states[n + 1].threads[t].request,
                      Depth(states[n + 1].threads[t].phase), n, 0, 0, 0)
  {
    assert labels[n..n + 1] == [labels[n]];
  }

  lemma GoesOn(states: seq<State>, labels: seq<Label>, n: nat, t: nat, k: nat, a: nat, c: nat, m: nat)
    returns (a': nat, c': nat, m': nat)
    requires n < |labels| < |states| && t in states[n + 1].threads && t in states[n].threads
    requires Moved(states[n], labels[n], states[n + 1], t)
    requires Travelled(states, labels, n, t, states[n].threads[t].request, Depth(states[n].threads[t].phase),
                       k, a, c, m)
    ensures Travelled(states, labels, n + 1, t, states[n + 1].threads[t].request,
                      Depth(states[n + 1].threads[t].phase), k, a', c', m')
  {
    a', c', m' := a, c, m;
    assert labels[k..n + 1] == labels[k..n] + [labels[n]];
    hide Live;
    if Depth(states[n + 1].threads[t].phase) > Depth(states[n].threads[t].phase) {
      if labels[n].Acquire? { a' := n; }
      if labels[n].CheckContext? { c' := n; }
      if labels[n].SetRunning? { m' := n; }
    }
  }

  lemma InvParts(s: State)
    requires Inv(s)
    ensures Placed(s.threads, s.spawned, s.births, s.up) && CommitsBacked(s.threads, s.births, s.log)
    ensures s.inc.Keys == s.store.Keys
  {
  }

  lemma Committing(states: seq<State>, labels: seq<Label>, n: nat, tid: nat)
    requires Run(states, labels) && n < |labels| && labels[n] == Dispatch(tid)
    ensures tid in states[n].threads && Depth(states[n].threads[tid].phase) == 3
  {
    hide Init;
    assert Step(states[n], labels[n], states[n + 1]);
  }

  /** Before every dispatch lie, in this order and with no crash since: the valid start whose durable
      record spawned the goroutine, its taking the free lock, its look at a context not cancelled, and
      its durable flip of a record neither finished nor collected. */
  lemma DispatchJourney(states: seq<State>, labels: seq<Label>, n: nat, tid: nat)
    requires Run(states, labels) && n < |labels| && labels[n] == Dispatch(tid)
    ensures tid in states[n].threads
    ensures exists k: nat, a: nat, c: nat, m: nat ::
              && k < a < c < m < n && Crash !in labels[k..n]
              && labels[k].Start? && labels[k].w.Durable? && labels[k].req == states[n].threads[tid].request
              && labels[k].req.commandValid && tid !in states[k].threads
              && labels[a] == Acquire(tid) && states[a].lock == Free
              && labels[c] == CheckContext(tid) && tid in states[c].threads && !states[c].threads[tid].cancelled
              && labels[m].SetRunning? && labels[m].tid == tid && labels[m].read.ReadOk? && labels[m].w.Durable?
              && Live(states[m].store, labels[k].req.sessionId)
  {
    Committing(states, labels, n, tid);
    hide Run, Live, Depth;
    var k, a, c, m := Way(states, labels, n, tid);
  }

  // ----- a cancel before the flip -----

  /** Which flips and dispatches a step adds to the log. */
  ghost predicate Adds(s: State, s': State) {
    && s.log <= s'.log
    && forall e | e in s'.log && e !in s.log ::
         match e
         case Created(i, _) => i >= s.births
         case Flipped(i, sid) => Live(s.store, sid) && i == Inc(s, sid)
         case Dispatched(i, sid, t) => t in s.threads && s.threads[t].phase == Committed(i) &&
                                       s.threads[t].request.sessionId == sid
         case Crashed => true
  }

  lemma HandlerAdds(s: State, l: Label, s': State)
    requires l.Start? || l.Cancel? || l.RecoverOne? || l.RecoverDone?
    requires Step(s, l, s')
    ensures Adds(s, s')
  {
    hide Collected, StartReply, NewRecord, Restated, Interrupted, Written;
  }

  lemma StepAdds(s: State, l: Label, s': State)
    requires Step(s, l, s')
    ensures Adds(s, s')
  {
    if l.Start? || l.Cancel? || l.RecoverOne? || l.RecoverDone? {
      HandlerAdds(s, l, s');
    } else {
      hide ResultFromExec, Restated, Closed, Written;
    }
  }

  /** Nothing but its creation has happened to incarnation `i`, and it is finished or gone. */
  ghost predicate Buried(s: State, i: nat) {
    && i < s.births && OnlyCreated(s.log, i)
    && forall k | k in s.inc && s.inc[k] == i :: !Live(s.store, k)
  }

  lemma NeverBacked(log: seq<Event>, births: nat, i: nat)
    requires OnlyCreated(log, i)
    ensures forall k :: !CommitBacked(log, births, i, k)
  {
    forall e | e in log && e.Flipped?
      ensures e.inc != i
    {
      assert Concerns(e, e.inc);
    }
  }

  /** Only a live record is flipped, and only a flipped one dispatched. */
  lemma BuriedLog(s: State, s': State, i: nat)
    requires Adds(s, s') && Buried(s, i)
    requires CommitsBacked(s.threads, s.births, s.log)
    requires forall k | Live(s.store, k) :: k in s.inc
    ensures OnlyCreated(s'.log, i)
  {
    NeverBacked(s.log, s.births, i);
    hide CommitBacked, Live;
    assert forall t | t in s.threads && s.threads[t].phase.Committed? :: s.threads[t].phase.inc != i;
  }

  lemma BuriedStays(s: State, s': State, i: nat)
    requires CommitsBacked(s.threads, s.births, s.log) && s.inc.Keys == s.store.Keys
    requires Adds(s, s') && Evolves(s, s') && Buried(s, i)
    ensures Buried(s', i)
  {
    hide CommitsBacked;
    BuriedLog(s, s', i);
    hide OnlyCreated, Adds;
    forall k | k in s'.inc && s'.inc[k] == i
      ensures !Live(s'.store, k)
    {
      assert k in s.inc && s.inc[k] == i && !Live(s.store, k);
    }
  }

  /** A command whose record was canceled while it was queued is never sent under that record. */
  lemma CanceledNeverSent(states: seq<State>, labels: seq<Label>, c: nat, k: SessionId, n: nat)
    requires Run(states, labels) && c < n < |states|
    requires labels[c].Cancel? && k in states[c].store && k in states[c].inc
    requires states[c].store[k].result.state == Queued
    requires k in states[c + 1].store && states[c + 1].store[k].result.state == Canceled
    ensures forall e | e in states[n].log && e.Dispatched? :: e.inc != states[c].inc[k]
  {
    CanceledBuried(states, labels, c, k, n);
  }

  lemma {:induction false} CanceledBuried(states: seq<State>, labels: seq<Label>, c: nat, k: SessionId, n: nat)
    requires Run(states, labels) && c < n < |states|
    requires labels[c].Cancel? && k in states[c].store && k in states[c].inc
    requires states[c].store[k].result.state == Queued
    requires k in states[c + 1].store && states[c + 1].store[k].result.state == Canceled
    ensures Buried(states[n], states[c].inc[k])
  {
    hide Step, Evolves, Inv, Buried, Adds, CommitsBacked;
    RunFacts(states, labels, n - 1);
    RunInv(states, labels, n - 1);
    if n == c + 1 {
      CancelBuries(states[c], labels[c], states[n], k);
    } else {
      CanceledBuried(states, labels, c, k, n - 1);
      StepAdds(states[n - 1], labels[n - 1], states[n]);
      InvParts(states[n - 1]);
      BuriedStays(states[n - 1], states[n], states[c].inc[k]);
    }
  }

  lemma CancelBuries(s: State, l: Label, s': State, k: SessionId)
    requires Inv(s) && l.Cancel? && Step(s, l, s') && k in s.store && k in s.inc
    requires s.store[k].result.state == Queued && k in s'.store && s'.store[k].result.state == Canceled
    ensures Buried(s', s.inc[k])
  {
    hide WellKept, Placed, Exclusive, RunningIsHeld, LiveIsRecent, CommitsBacked, Logged;
    assert OnlyCreated(s.log, s.inc[k]);
    assert s'.log == s.log && s'.inc == s.inc && s'.births == s.births;
  }
}
