/** The execution coordinator as a step relation: request handlers, the goroutine behind each
    started session, the shared mutation lock, crashes and recovery, in every interleaving.
    Each handler holds the coordinator mutex, so one handler call is one step. */
module ExecProtocol {
  import opened Collections
  import opened ExecRecords

  /** Where a goroutine stands inside `run`. All phases but Waiting hold the mutation lock. */
  datatype Phase =
    | Waiting                      // before the mutation lock
    | Holding                      // lock taken, context not looked at yet
    | Ready                        // context was live when looked at
    | Committed(inc: nat)          // record durably running, command not yet sent
    | Executing(inc: nat)          // command sent
    | Ending(result: Result, ran: Option<nat>)  // about to record the result of that incarnation
    | Abandoning(fatal: bool)      // about to drop its cancel function
    | Leaving                      // about to release the lock
    | Dying                        // reported a persistence failure, about to exit the process

  /** `born` is the incarnation of the record the goroutine was started for. */
  datatype Thread = Thread(request: Request, born: nat, cancelled: bool, phase: Phase)

  datatype Lock = Free | HeldBy(tid: nat) | HeldBySync

  datatype Event =
    | Created(inc: nat, sid: SessionId)
    | Flipped(inc: nat, sid: SessionId)
    | Dispatched(inc: nat, sid: SessionId, tid: nat)
    | Crashed

  /** `inc` numbers the lifetimes of records: each creation gets a new number, so a session ID
      started again after its record was collected is a different incarnation. */
  datatype State = State(
    store: Store, inc: map<SessionId, nat>, births: nat,
    threads: map<nat, Thread>, spawned: nat, active: map<SessionId, nat>,
    lock: Lock, up: bool, log: seq<Event>)

  datatype ReadOutcome = ReadOk | ReadFails

  datatype Label =
    | Start(req: Request, now: int, stray: nat, kept: Store, collected: bool, read: ReadOutcome, w: WriteOutcome)
    | Poll(req: Request, read: ReadOutcome)
    | Cancel(req: Request, now: int, read: ReadOutcome, w: WriteOutcome)
    | Acquire(tid: nat)
    | CheckContext(tid: nat)
    | SetRunning(tid: nat, now: int, read: ReadOutcome, w: WriteOutcome)
    | ClearActive(tid: nat)
    | Dispatch(tid: nat)
    | Return(tid: nat, response: ExecResponse, err: Option<RunError>)
    | Finish(tid: nat, now: int, read: ReadOutcome, w: WriteOutcome)
    | Release(tid: nat)
    | SyncAcquire
    | SyncRelease
    | Crash
    | RecoverOne(sid: SessionId, now: int, w: WriteOutcome)
    | RecoverDone(now: int, stray: nat, kept: Store, collected: bool)

  // ----- helpers -----

  function Keep<V>(m: map<SessionId, V>, keys: set<SessionId>): map<SessionId, V> {
    map k | k in m && k in keys :: m[k]
  }

  /** The state after the retention pass left `kept`. */
  function WithStore(s: State, kept: Store): State {
    s.(store := kept, inc := Keep(s.inc, kept.Keys))
  }

  function SetPhase(s: State, tid: nat, p: Phase): State
    requires tid in s.threads
  {
    s.(threads := s.threads[tid := s.threads[tid].(phase := p)])
  }

  function Forget(s: State, sid: SessionId): State {
    s.(active := s.active - {sid})
  }

  function Put(s: State, record: Record, w: WriteOutcome): State {
    s.(store := Written(s.store, record, w))
  }

  function CancelContext(s: State, sid: SessionId): State {
    if sid in s.active && s.active[sid] in s.threads then
      var t := s.active[sid];
      s.(threads := s.threads[t := s.threads[t].(cancelled := true)])
    else s
  }

  /** The incarnation under a session ID. */
  function Inc(s: State, sid: SessionId): nat {
    if sid in s.inc then s.inc[sid] else 0
  }

  /** The record a poll or cancel is about, or the refusal. */
  function Bound(store: Store, req: Request): (a: Option<nat>)
    ensures a.None? ==> req.sessionId in store && store[req.sessionId].callerKey == req.callerKey
  {
    if req.sessionId !in store then Some(404)
    else if store[req.sessionId].callerKey != req.callerKey then Some(403)
    else if req.requestId != "" && store[req.sessionId].requestId != req.requestId then Some(403)
    else None
  }

  // ----- steps -----

  function Admitted(s: State, req: Request, now: int, w: WriteOutcome): State {
    if w.NotWritten? then s
    else
      var s1 := s.(store := s.store[req.sessionId := NewRecord(req, now)],
                   inc := s.inc[req.sessionId := s.births],
                   births := s.births + 1,
                   log := s.log + [Created(s.births, req.sessionId)]);
      if w.LandedThenFailed? then s1
      else s1.(threads := s.threads[s.spawned := Thread(req, s.births, false, Waiting)],
               spawned := s.spawned + 1,
               active := s.active[req.sessionId := s.spawned])
  }

  ghost predicate StartStep(s: State, l: Label, s': State, answer: Answer)
    requires l.Start?
  {
    && s.up
    && if !l.req.commandValid then s' == s && answer == Refused(400)
       else
         && Collected(s.store, l.kept, l.now, |s.store| + l.stray, l.collected)
         && var mid := WithStore(s, l.kept);
            if !l.collected || l.read.ReadFails? then s' == mid && answer == Broken
            else match StartReply(l.kept, l.req)
              case Some(a) => s' == mid && answer == a
              case None =>
                && s' == Admitted(mid, l.req, l.now, l.w)
                && answer == (if l.w.Durable? then Ok(NewRecord(l.req, l.now).result) else Broken)
  }

  predicate PollStep(s: State, l: Label, s': State, answer: Answer)
    requires l.Poll?
  {
    && s.up && s' == s
    && answer == if l.read.ReadFails? then Broken
                 else match Bound(s.store, l.req)
                   case Some(code) => Refused(code)
                   case None => Ok(s.store[l.req.sessionId].result)
  }

  predicate CancelStep(s: State, l: Label, s': State, answer: Answer)
    requires l.Cancel?
  {
    && s.up
    && if l.read.ReadFails? then s' == s && answer == Broken
       else match Bound(s.store, l.req)
         case Some(code) => s' == s && answer == Refused(code)
         case None =>
           var r := s.store[l.req.sessionId];
           if Terminal(r.result.state) then s' == s && answer == Ok(r.result)
           else
             var r' := Restated(r, Canceled, l.now);
             && s' == Put(CancelContext(s, l.req.sessionId), r', l.w)
             && answer == if l.w.Durable? then Ok(r'.result) else Broken
  }

  predicate At(s: State, tid: nat) {
    s.up && tid in s.threads
  }

  predicate AcquireStep(s: State, tid: nat, s': State) {
    && At(s, tid) && s.threads[tid].phase == Waiting && s.lock == Free
    && s' == SetPhase(s, tid, Holding).(lock := HeldBy(tid))
  }

  predicate CheckContextStep(s: State, tid: nat, s': State) {
    && At(s, tid) && s.threads[tid].phase == Holding
    && s' == SetPhase(s, tid,
               if s.threads[tid].cancelled
               then Ending(Result("", "", Canceled, None, "", "context canceled", false), None)
               else Ready)
  }

  predicate SetRunningStep(s: State, l: Label, s': State)
    requires l.SetRunning?
  {
    && At(s, l.tid) && s.threads[l.tid].phase == Ready
    && var sid := s.threads[l.tid].request.sessionId;
       if l.read.ReadFails? || sid !in s.store then s' == SetPhase(s, l.tid, Abandoning(true))
       else if Terminal(s.store[sid].result.state) then s' == SetPhase(s, l.tid, Abandoning(false))
       else
         var s1 := Put(s, Restated(s.store[sid], Running, l.now), l.w);
         if l.w.NotWritten? then s' == SetPhase(s1, l.tid, Abandoning(true))
         else
           s' == SetPhase(s1, l.tid, if l.w.Durable? then Committed(Inc(s, sid)) else Abandoning(true)).(
                   log := s.log + [Flipped(Inc(s, sid), sid)])
  }

  predicate ClearActiveStep(s: State, tid: nat, s': State) {
    && At(s, tid) && s.threads[tid].phase.Abandoning?
    && s' == Forget(SetPhase(s, tid, if s.threads[tid].phase.fatal then Dying else Leaving),
                    s.threads[tid].request.sessionId)
  }

  predicate DispatchStep(s: State, tid: nat, s': State) {
    && At(s, tid) && s.threads[tid].phase.Committed?
    && var i := s.threads[tid].phase.inc;
       s' == SetPhase(s, tid, Executing(i)).(
               log := s.log + [Dispatched(i, s.threads[tid].request.sessionId, tid)])
  }

  /** The dispatcher answers. It may give up before sending the command, but then with an error. */
  predicate ReturnStep(s: State, l: Label, s': State)
    requires l.Return?
  {
    && At(s, l.tid)
    && (s.threads[l.tid].phase.Executing? || (s.threads[l.tid].phase.Committed? && l.err.Some?))
    && s' == SetPhase(s, l.tid, Ending(ResultFromExec(l.response, l.err), Some(s.threads[l.tid].phase.inc)))
  }

  predicate FinishStep(s: State, l: Label, s': State)
    requires l.Finish?
  {
    && At(s, l.tid) && s.threads[l.tid].phase.Ending?
    && var sid := s.threads[l.tid].request.sessionId;
       var s1 := Forget(s, sid);
       if l.read.ReadFails? || sid !in s.store then s' == SetPhase(s1, l.tid, Dying)
       else if Terminal(s.store[sid].result.state) then s' == SetPhase(s1, l.tid, Leaving)
       else s' == SetPhase(Put(s1, Closed(s.store[sid], s.threads[l.tid].phase.result, l.now), l.w),
                           l.tid, if l.w.Durable? then Leaving else Dying)
  }

  predicate ReleaseStep(s: State, tid: nat, s': State) {
    && At(s, tid) && s.threads[tid].phase.Leaving?
    && s' == s.(threads := s.threads - {tid}, lock := Free)
  }

  function AfterCrash(s: State): State {
    s.(threads := map[], active := map[], lock := Free, up := false, log := s.log + [Crashed])
  }

  predicate RecoverOneStep(s: State, l: Label, s': State)
    requires l.RecoverOne?
  {
    && !s.up && Live(s.store, l.sid)
    && var s1 := Put(s, Interrupted(s.store[l.sid], l.now), l.w);
       s' == if l.w.Durable? then s1 else AfterCrash(s1)
  }

  ghost predicate RecoverDoneStep(s: State, l: Label, s': State)
    requires l.RecoverDone?
  {
    && !s.up && (forall k :: !Live(s.store, k))
    && Collected(s.store, l.kept, l.now, |s.store| + l.stray, l.collected)
    && s' == if l.collected then WithStore(s, l.kept).(up := true) else AfterCrash(WithStore(s, l.kept))
  }

  ghost predicate Step(s: State, l: Label, s': State) {
    match l
    case Start(_, _, _, _, _, _, _) => exists a :: StartStep(s, l, s', a)
    case Poll(_, _) => exists a :: PollStep(s, l, s', a)
    case Cancel(_, _, _, _) => exists a :: CancelStep(s, l, s', a)
    case Acquire(tid) => AcquireStep(s, tid, s')
    case CheckContext(tid) => CheckContextStep(s, tid, s')
    case SetRunning(_, _, _, _) => SetRunningStep(s, l, s')
    case ClearActive(tid) => ClearActiveStep(s, tid, s')
    case Dispatch(tid) => DispatchStep(s, tid, s')
    case Return(_, _, _) => ReturnStep(s, l, s')
    case Finish(_, _, _, _) => FinishStep(s, l, s')
    case Release(tid) => ReleaseStep(s, tid, s')
    case SyncAcquire => s.up && s.lock == Free && s' == s.(lock := HeldBySync)
    case SyncRelease => s.lock == HeldBySync && s' == s.(lock := Free)
    case Crash => s' == AfterCrash(s)
    case RecoverOne(_, _, _) => RecoverOneStep(s, l, s')
    case RecoverDone(_, _, _, _) => RecoverDoneStep(s, l, s')
  }

  /** A coordinator on an empty state directory, before its first recovery pass. */
  ghost predicate Init(s: State) {
    && s.store == map[] && s.inc == map[] && s.threads == map[] && s.active == map[]
    && s.lock == Free && !s.up && s.log == []
  }

  ghost predicate Run(states: seq<State>, labels: seq<Label>) {
    && |states| == |labels| + 1
    && Init(states[0])
    && forall i | 0 <= i < |labels| :: Step(states[i], labels[i], states[i + 1])
  }

  /** Some steps lead from one state to the other. */
  ghost predicate Leads(s: State, t: State) {
    exists states: seq<State>, labels: seq<Label> :: Path(states, labels) && states[0] == s && states[|labels|] == t
  }

  ghost predicate Path(states: seq<State>, labels: seq<Label>) {
    && |states| == |labels| + 1
    && forall i | 0 <= i < |labels| :: Step(states[i], labels[i], states[i + 1])
  }

  lemma LeadsHere(s: State)
    ensures Leads(s, s)
  {
    var states, labels: seq<Label> := [s], [];
    assert Path(states, labels) && states[|labels|] == s;
  }

  lemma LeadsOn(s: State, t: State, l: Label, u: State)
    requires Leads(s, t) && Step(t, l, u)
    ensures Leads(s, u)
  {
    hide Step;
    var states: seq<State>, labels: seq<Label> :| Path(states, labels) && states[0] == s && states[|labels|] == t;
    var states', labels' := states + [u], labels + [l];
    forall i | 0 <= i < |labels'|
      ensures Step(states'[i], labels'[i], states'[i + 1])
    {
      if i < |labels| {
        assert states'[i] == states[i] && states'[i + 1] == states[i + 1] && labels'[i] == labels[i];
      }
    }
    assert Path(states', labels') && states'[0] == s && states'[|labels'|] == u;
  }

  // ----- what the log says -----

  /** `e` happened, and the process has not crashed since. */
  ghost predicate Since(log: seq<Event>, e: Event) {
    exists i :: 0 <= i < |log| && log[i] == e && Crashed !in log[i..]
  }

  /** No incarnation of a record is dispatched twice. */
  ghost predicate AtMostOnce(log: seq<Event>) {
    forall i, j | 0 <= i < j < |log| && log[i].Dispatched? && log[j].Dispatched? ::
      log[i].inc != log[j].inc
  }

  /** Each dispatch follows the durable creation and the durable flip to running of its record,
      with no crash in between. */
  ghost predicate Grounded(log: seq<Event>) {
    forall j | 0 <= j < |log| && log[j].Dispatched? ::
      && Since(log[..j], Created(log[j].inc, log[j].sid))
      && Since(log[..j], Flipped(log[j].inc, log[j].sid))
  }

  predicate Concerns(e: Event, i: nat) {
    !e.Crashed? && e.inc == i
  }

  predicate Sent(e: Event, i: nat) {
    e.Dispatched? && e.inc == i
  }

  lemma SinceAppend(log: seq<Event>, e: Event, f: Event)
    requires f != Crashed
    ensures Since(log, e) ==> Since(log + [f], e)
    ensures Since(log + [f], f)
  {
    var after := log + [f];
    if Since(log, e) {
      var i :| 0 <= i < |log| && log[i] == e && Crashed !in log[i..];
      assert after[i..] == log[i..] + [f];
      assert after[i] == e;
    }
    assert after[|log|..] == [f];
    assert after[|log|] == f;
  }

  // ----- the invariant, part by part over the fields each part reads -----

  ghost predicate Numbered(store: Store, inc: map<SessionId, nat>, births: nat) {
    && inc.Keys == store.Keys
    && (forall k | k in inc :: inc[k] < births)
    && (forall j, k | j in inc && k in inc && inc[j] == inc[k] :: j == k)
  }

  ghost predicate Placed(threads: map<nat, Thread>, spawned: nat, births: nat, up: bool) {
    && (forall t | t in threads :: t < spawned && threads[t].born < births)
    && (forall t | t in threads && threads[t].phase.Ending? :: Terminal(threads[t].phase.result.state))
    && (!up ==> threads == map[])
  }

  /** Whoever is past Waiting holds the mutation lock. */
  ghost predicate Exclusive(threads: map<nat, Thread>, lock: Lock) {
    && (forall t | t in threads && !threads[t].phase.Waiting? :: lock == HeldBy(t))
    && (lock.HeldBy? ==> lock.tid in threads && !threads[lock.tid].phase.Waiting?)
  }

  predicate MayRun(p: Phase) {
    p.Committed? || p.Executing? || p.Ending? || p.Dying? || p == Abandoning(true)
  }

  /** A running record is the lock holder's, which has not yet recorded its end. */
  ghost predicate RunningIsHeld(store: Store, threads: map<nat, Thread>, lock: Lock, up: bool) {
    up ==>
      forall k | k in store && store[k].result.state.Running? ::
        && lock.HeldBy? && lock.tid in threads
        && threads[lock.tid].request.sessionId == k
        && MayRun(threads[lock.tid].phase)
  }

  ghost predicate Logged(log: seq<Event>, births: nat) {
    && AtMostOnce(log) && Grounded(log)
    && (forall e | e in log && !e.Crashed? :: e.inc < births)
  }

  predicate OnlyCreated(log: seq<Event>, i: nat) {
    forall e | e in log && Concerns(e, i) :: e.Created?
  }

  /** Nothing but its creation has happened to a queued record. */
  ghost predicate QueuedUntouched(store: Store, inc: map<SessionId, nat>, log: seq<Event>) {
    forall k | k in store && k in inc && store[k].result.state.Queued? :: OnlyCreated(log, inc[k])
  }

  /** A serving coordinator's unfinished records were created since the last crash. */
  ghost predicate LiveIsRecent(store: Store, inc: map<SessionId, nat>, log: seq<Event>, up: bool) {
    up ==> forall k | Live(store, k) && k in inc :: Since(log, Created(inc[k], k))
  }

  ghost predicate CommitBacked(log: seq<Event>, births: nat, i: nat, k: SessionId) {
    && i < births
    && Since(log, Created(i, k)) && Since(log, Flipped(i, k))
    && forall e | e in log :: !Sent(e, i)
  }

  ghost predicate CommitsBacked(threads: map<nat, Thread>, births: nat, log: seq<Event>) {
    forall t | t in threads && threads[t].phase.Committed? ::
      CommitBacked(log, births, threads[t].phase.inc, threads[t].request.sessionId)
  }

  ghost predicate Inv(s: State) {
    && WellKept(s.store)
    && Numbered(s.store, s.inc, s.births)
    && Placed(s.threads, s.spawned, s.births, s.up)
    && Exclusive(s.threads, s.lock)
    && RunningIsHeld(s.store, s.threads, s.lock, s.up)
    && Logged(s.log, s.births)
    && QueuedUntouched(s.store, s.inc, s.log)
    && LiveIsRecent(s.store, s.inc, s.log, s.up)
    && CommitsBacked(s.threads, s.births, s.log)
  }

  lemma InitInv(s: State)
    requires Init(s)
    ensures Inv(s)
  {
    assert |s.store| == 0;
  }

  // ----- the log grows -----

  lemma LogGrows(log: seq<Event>, births: nat, f: Event, births': nat)
    requires Logged(log, births) && births <= births'
    requires !f.Crashed? ==> f.inc < births'
    requires f.Dispatched? ==> CommitBacked(log, births, f.inc, f.sid)
    ensures Logged(log + [f], births')
  {
    var after := log + [f];
    forall j | 0 <= j < |after| && after[j].Dispatched?
      ensures Since(after[..j], Created(after[j].inc, after[j].sid))
      ensures Since(after[..j], Flipped(after[j].inc, after[j].sid))
    {
      if j < |log| {
        assert after[..j] == log[..j];
      } else {
        assert after[..j] == log;
      }
    }
    forall i, j | 0 <= i < j < |after| && after[i].Dispatched? && after[j].Dispatched?
      ensures after[i].inc != after[j].inc
    {
      if j == |log| {
        assert log[i] in log && !Sent(log[i], f.inc);
      }
    }
  }

  lemma QueuedGrows(store: Store, inc: map<SessionId, nat>, log: seq<Event>, f: Event)
    requires QueuedUntouched(store, inc, log)
    requires !f.Crashed? && !f.Created? ==>
               forall k | k in store && k in inc && store[k].result.state.Queued? :: inc[k] != f.inc
    ensures QueuedUntouched(store, inc, log + [f])
  {
    forall k | k in store && k in inc && store[k].result.state.Queued?
      ensures OnlyCreated(log + [f], inc[k])
    {
      assert OnlyCreated(log, inc[k]);
    }
  }

  lemma RecentGrows(store: Store, inc: map<SessionId, nat>, log: seq<Event>, f: Event)
    requires LiveIsRecent(store, inc, log, true) && f != Crashed
    ensures LiveIsRecent(store, inc, log + [f], true)
  {
    forall k | Live(store, k) && k in inc
      ensures Since(log + [f], Created(inc[k], k))
    {
      SinceAppend(log, Created(inc[k], k), f);
    }
  }

  lemma BackedGrows(log: seq<Event>, births: nat, i: nat, k: SessionId, f: Event, births': nat)
    requires CommitBacked(log, births, i, k) && births <= births'
    requires f != Crashed && !Sent(f, i)
    ensures CommitBacked(log + [f], births', i, k)
  {
    SinceAppend(log, Created(i, k), f);
    SinceAppend(log, Flipped(i, k), f);
  }

  lemma CommitsGrow(threads: map<nat, Thread>, births: nat, log: seq<Event>, f: Event, births': nat)
    requires CommitsBacked(threads, births, log) && births <= births'
    requires f != Crashed && !f.Dispatched?
    ensures CommitsBacked(threads, births', log + [f])
  {
    forall t | t in threads && threads[t].phase.Committed?
      ensures CommitBacked(log + [f], births', threads[t].phase.inc, threads[t].request.sessionId)
    {
      BackedGrows(log, births, threads[t].phase.inc, threads[t].request.sessionId, f, births');
    }
  }

  // ----- the store shrinks or one record is rewritten -----

  lemma NumberedShrinks(store: Store, inc: map<SessionId, nat>, births: nat, kept: Store)
    requires Numbered(store, inc, births) && kept.Keys <= store.Keys
    ensures Numbered(kept, Keep(inc, kept.Keys), births)
  {
  }

  lemma CollectKeeps(s: State, kept: Store)
    requires Inv(s) && OldestFirst(s.store, kept)
    ensures Inv(WithStore(s, kept))
  {
    OldestFirstKeeps(s.store, kept);
    NumberedShrinks(s.store, s.inc, s.births, kept);
    ShrinkKeeps(s.store, s.inc, kept, s.threads, s.lock, s.up, s.log);
  }

  lemma ShrinkKeeps(store: Store, inc: map<SessionId, nat>, kept: Store,
                    threads: map<nat, Thread>, lock: Lock, up: bool, log: seq<Event>)
    requires OldestFirst(store, kept)
    requires RunningIsHeld(store, threads, lock, up)
    requires QueuedUntouched(store, inc, log) && LiveIsRecent(store, inc, log, up)
    ensures RunningIsHeld(kept, threads, lock, up)
    ensures QueuedUntouched(kept, Keep(inc, kept.Keys), log)
    ensures LiveIsRecent(kept, Keep(inc, kept.Keys), log, up)
  {
    var inc' := Keep(inc, kept.Keys);
    assert forall k | k in inc' :: inc'[k] == inc[k];
    assert forall k | k in kept :: kept[k] == store[k];
    assert forall k | Live(kept, k) :: Live(store, k);
  }

  /** `r` may replace the record `old`: same identity. */
  predicate Replaces(r: Record, was: Record) {
    && r.sessionId == was.sessionId && r.requestId == was.requestId && r.callerKey == was.callerKey
    && r.result.sessionId == r.sessionId && r.result.requestId == r.requestId
  }

  lemma RewriteKept(store: Store, k: SessionId, r: Record)
    requires WellKept(store) && k in store && Replaces(r, store[k])
    ensures WellKept(store[k := r])
  {
    var after := store[k := r];
    assert after.Keys == store.Keys;
    assert |after| == |after.Keys| && |store| == |store.Keys|;
    assert Filed(after);
  }

  lemma CloseParts(store: Store, inc: map<SessionId, nat>, k: SessionId, r: Record,
                   threads: map<nat, Thread>, lock: Lock, up: bool, log: seq<Event>)
    requires Terminal(r.result.state)
    requires RunningIsHeld(store, threads, lock, up)
    requires QueuedUntouched(store, inc, log) && LiveIsRecent(store, inc, log, up)
    ensures RunningIsHeld(store[k := r], threads, lock, up)
    ensures QueuedUntouched(store[k := r], inc, log)
    ensures LiveIsRecent(store[k := r], inc, log, up)
  {
    var after := store[k := r];
    assert forall j | Live(after, j) :: Live(store, j);
  }

  /** Rewriting a record to a finished state keeps the invariant. */
  lemma CloseKeeps(s: State, k: SessionId, r: Record)
    requires Inv(s) && k in s.store && Terminal(r.result.state) && Replaces(r, s.store[k])
    ensures Inv(s.(store := s.store[k := r]))
  {
    RewriteKept(s.store, k, r);
    CloseParts(s.store, s.inc, k, r, s.threads, s.lock, s.up, s.log);
    assert s.store[k := r].Keys == s.store.Keys;
  }

  // ----- one goroutine moves -----

  /** The lock holder moves to another phase that still holds the lock. */
  lemma PhaseKeeps(s: State, tid: nat, p: Phase)
    requires Inv(s) && tid in s.threads && !s.threads[tid].phase.Waiting?
    requires !p.Waiting? && !p.Committed?
    requires p.Ending? ==> Terminal(p.result.state)
    requires MayRun(s.threads[tid].phase) ==> MayRun(p) || forall k | k in s.store :: !s.store[k].result.state.Running?
    ensures Inv(SetPhase(s, tid, p))
  {
    PhaseParts(s.store, s.threads, tid, p, s.spawned, s.births, s.lock, s.up, s.log);
  }

  lemma PhaseParts(store: Store, threads: map<nat, Thread>, tid: nat, p: Phase,
                   spawned: nat, births: nat, lock: Lock, up: bool, log: seq<Event>)
    requires tid in threads && !threads[tid].phase.Waiting? && !p.Waiting? && !p.Committed?
    requires p.Ending? ==> Terminal(p.result.state)
    requires MayRun(threads[tid].phase) ==> MayRun(p) || forall k | k in store :: !store[k].result.state.Running?
    requires Placed(threads, spawned, births, up) && Exclusive(threads, lock)
    requires RunningIsHeld(store, threads, lock, up) && CommitsBacked(threads, births, log)
    ensures var threads' := threads[tid := threads[tid].(phase := p)];
            && Placed(threads', spawned, births, up) && Exclusive(threads', lock)
            && RunningIsHeld(store, threads', lock, up) && CommitsBacked(threads', births, log)
  {
  }

  /** Only the lock holder's session can be running; with none allowed to run, none is. */
  lemma NoneRunning(s: State, tid: nat)
    requires Exclusive(s.threads, s.lock) && RunningIsHeld(s.store, s.threads, s.lock, s.up)
    requires s.up && tid in s.threads && !s.threads[tid].phase.Waiting? && !MayRun(s.threads[tid].phase)
    ensures forall k | k in s.store :: !s.store[k].result.state.Running?
  {
    assert s.lock == HeldBy(tid);
  }

  // ----- every step keeps the invariant -----

  lemma AdmitKeepsInv(s: State, req: Request, now: int, w: WriteOutcome)
    requires Inv(s) && s.up && StartReply(s.store, req).None?
    ensures Inv(Admitted(s, req, now, w))
  {
    if !w.NotWritten? {
      AdmitKeeps(s.store, req, now, w);
      var e := Created(s.births, req.sessionId);
      LogGrows(s.log, s.births, e, s.births + 1);
      CommitsGrow(s.threads, s.births, s.log, e, s.births + 1);
      AdmitRecords(s.store, s.inc, s.births, s.log, req, now);
      AdmitThread(s, req, now, w);
    }
  }

  lemma AdmitRecords(store: Store, inc: map<SessionId, nat>, births: nat, log: seq<Event>, req: Request, now: int)
    requires Numbered(store, inc, births) && QueuedUntouched(store, inc, log) && LiveIsRecent(store, inc, log, true)
    requires Logged(log, births) && req.sessionId !in store
    ensures var store', inc' := store[req.sessionId := NewRecord(req, now)], inc[req.sessionId := births];
            var log' := log + [Created(births, req.sessionId)];
            && Numbered(store', inc', births + 1)
            && QueuedUntouched(store', inc', log') && LiveIsRecent(store', inc', log', true)
  {
    var e := Created(births, req.sessionId);
    QueuedGrows(store, inc, log, e);
    RecentGrows(store, inc, log, e);
    SinceAppend(log, e, e);
    var store', inc' := store[req.sessionId := NewRecord(req, now)], inc[req.sessionId := births];
    assert OnlyCreated(log + [e], births);
    forall k | Live(store', k) && k in inc' && k != req.sessionId
      ensures Since(log + [e], Created(inc'[k], k))
    {
      assert Live(store, k) && k in inc;
    }
  }

  lemma AdmitThread(s: State, req: Request, now: int, w: WriteOutcome)
    requires s.up && !w.NotWritten?
    requires Placed(s.threads, s.spawned, s.births, s.up) && Exclusive(s.threads, s.lock)
    requires RunningIsHeld(s.store, s.threads, s.lock, s.up)
    requires CommitsBacked(s.threads, s.births + 1, s.log + [Created(s.births, req.sessionId)])
    ensures var s' := Admitted(s, req, now, w);
            && Placed(s'.threads, s'.spawned, s'.births, s'.up) && Exclusive(s'.threads, s'.lock)
            && RunningIsHeld(s'.store, s'.threads, s'.lock, s'.up) && CommitsBacked(s'.threads, s'.births, s'.log)
  {
  }

  lemma StartInv(s: State, l: Label, s': State, a: Answer)
    requires Inv(s) && l.Start? && StartStep(s, l, s', a)
    ensures Inv(s')
  {
    if l.req.commandValid {
      CollectKeeps(s, l.kept);
      if l.collected && l.read.ReadOk? && StartReply(l.kept, l.req).None? {
        AdmitKeepsInv(WithStore(s, l.kept), l.req, l.now, l.w);
      }
    }
  }

  lemma CancelContextKeeps(s: State, sid: SessionId)
    requires Inv(s)
    ensures Inv(CancelContext(s, sid))
  {
    if sid in s.active && s.active[sid] in s.threads {
      CancelParts(s.store, s.threads, s.active[sid], s.spawned, s.births, s.lock, s.up, s.log);
    }
  }

  lemma CancelParts(store: Store, threads: map<nat, Thread>, tid: nat,
                    spawned: nat, births: nat, lock: Lock, up: bool, log: seq<Event>)
    requires tid in threads
    requires Placed(threads, spawned, births, up) && Exclusive(threads, lock)
    requires RunningIsHeld(store, threads, lock, up) && CommitsBacked(threads, births, log)
    ensures var threads' := threads[tid := threads[tid].(cancelled := true)];
            && Placed(threads', spawned, births, up) && Exclusive(threads', lock)
            && RunningIsHeld(store, threads', lock, up) && CommitsBacked(threads', births, log)
  {
  }

  lemma CancelInv(s: State, l: Label, s': State, a: Answer)
    requires Inv(s) && l.Cancel? && CancelStep(s, l, s', a)
    ensures Inv(s')
  {
    var sid := l.req.sessionId;
    if l.read.ReadOk? && Bound(s.store, l.req).None? && !Terminal(s.store[sid].result.state) {
      CancelContextKeeps(s, sid);
      if !l.w.NotWritten? {
        FiledAt(s.store, sid);
        CloseKeeps(CancelContext(s, sid), sid, Restated(s.store[sid], Canceled, l.now));
      }
    }
  }

  lemma FiledAt(store: Store, k: SessionId)
    requires WellKept(store) && k in store
    ensures store[k].sessionId == k && store[k].result.sessionId == k
    ensures store[k].result.requestId == store[k].requestId
  {
  }

  /** A record of the session whose goroutine is about to run is queued or finished. */
  lemma ReadyFindsQueued(s: State, tid: nat)
    requires Inv(s) && At(s, tid) && s.threads[tid].phase.Ready?
    ensures Live(s.store, s.threads[tid].request.sessionId) ==>
              s.store[s.threads[tid].request.sessionId].result.state.Queued?
  {
    NoneRunning(s, tid);
  }

  lemma SetRunningInv(s: State, l: Label, s': State)
    requires Inv(s) && l.SetRunning? && SetRunningStep(s, l, s')
    ensures Inv(s')
  {
    var sid := s.threads[l.tid].request.sessionId;
    if l.read.ReadFails? || !Live(s.store, sid) || l.w.NotWritten? {
      NoneRunning(s, l.tid);
      PhaseKeeps(s, l.tid, s'.threads[l.tid].phase);
    } else {
      ReadyFindsQueued(s, l.tid);
      FiledAt(s.store, sid);
      RewriteKept(s.store, sid, Restated(s.store[sid], Running, l.now));
      assert s.inc.Keys == s.store.Keys;
      var e := Flipped(s.inc[sid], sid);
      LogGrows(s.log, s.births, e, s.births);
      FlipRecords(s.store, s.inc, s.births, s.log, sid, l.now);
      FlipThread(s, l, s');
    }
  }

  lemma FlipRecords(store: Store, inc: map<SessionId, nat>, births: nat, log: seq<Event>, sid: SessionId, now: int)
    requires sid in store && store[sid].result.state.Queued?
    requires Numbered(store, inc, births) && QueuedUntouched(store, inc, log) && LiveIsRecent(store, inc, log, true)
    ensures var store', log' := store[sid := Restated(store[sid], Running, now)], log + [Flipped(inc[sid], sid)];
            && Numbered(store', inc, births)
            && QueuedUntouched(store', inc, log') && LiveIsRecent(store', inc, log', true)
  {
    var e := Flipped(inc[sid], sid);
    var store' := store[sid := Restated(store[sid], Running, now)];
    assert store'.Keys == store.Keys;
    assert QueuedUntouched(store', inc, log);
    QueuedGrows(store', inc, log, e);
    assert forall k | Live(store', k) :: Live(store, k);
    RecentGrows(store', inc, log, e);
  }

  lemma FlipThread(s: State, l: Label, s': State)
    requires l.SetRunning? && SetRunningStep(s, l, s') && !l.w.NotWritten? && l.read.ReadOk?
    requires Live(s.store, s.threads[l.tid].request.sessionId)
    requires s.store[s.threads[l.tid].request.sessionId].sessionId == s.threads[l.tid].request.sessionId
    requires s.inc.Keys == s.store.Keys && s.inc[s.threads[l.tid].request.sessionId] < s.births
    requires Placed(s.threads, s.spawned, s.births, s.up) && Exclusive(s.threads, s.lock)
    requires s.store[s.threads[l.tid].request.sessionId].result.state.Queued?
    requires RunningIsHeld(s.store, s.threads, s.lock, s.up) && CommitsBacked(s.threads, s.births, s.log)
    requires QueuedUntouched(s.store, s.inc, s.log) && LiveIsRecent(s.store, s.inc, s.log, s.up)
    ensures Placed(s'.threads, s'.spawned, s'.births, s'.up) && Exclusive(s'.threads, s'.lock)
    ensures RunningIsHeld(s'.store, s'.threads, s'.lock, s'.up) && CommitsBacked(s'.threads, s'.births, s'.log)
  {
    var sid := s.threads[l.tid].request.sessionId;
    var i := s.inc[sid];
    var e := Flipped(i, sid);
    CommitsGrow(s.threads, s.births, s.log, e, s.births);
    SinceAppend(s.log, Created(i, sid), e);
    assert OnlyCreated(s.log, i);
    assert forall x | x in s.log :: !Sent(x, i) by {
      forall x | x in s.log ensures !Sent(x, i) { assert Concerns(x, i) ==> x.Created?; }
    }
    assert CommitBacked(s.log + [e], s.births, i, sid);
    assert s.lock == HeldBy(l.tid);
    assert forall k | k in s.store :: !s.store[k].result.state.Running?;
  }

  /** The committed incarnation is no longer queued. */
  lemma CommittedNotQueued(store: Store, inc: map<SessionId, nat>, log: seq<Event>, i: nat, sid: SessionId)
    requires QueuedUntouched(store, inc, log) && Since(log, Flipped(i, sid))
    ensures forall k | k in store && k in inc && store[k].result.state.Queued? :: inc[k] != i
  {
    var j :| 0 <= j < |log| && log[j] == Flipped(i, sid) && Crashed !in log[j..];
    assert log[j] in log && Concerns(log[j], i);
    forall k | k in store && k in inc && store[k].result.state.Queued?
      ensures inc[k] != i
    {
      assert OnlyCreated(log, inc[k]);
    }
  }

  lemma DispatchInv(s: State, tid: nat, s': State)
    requires Inv(s) && DispatchStep(s, tid, s')
    ensures Inv(s')
  {
    var th := s.threads[tid];
    var i := th.phase.inc;
    var e := Dispatched(i, th.request.sessionId, tid);
    PhaseKeeps(s, tid, Executing(i));
    LogGrows(s.log, s.births, e, s.births);
    CommittedNotQueued(s.store, s.inc, s.log, i, th.request.sessionId);
    QueuedGrows(s.store, s.inc, s.log, e);
    RecentGrows(s.store, s.inc, s.log, e);
    LoneCommit(s.threads, s.lock, tid, i);
  }

  lemma LoneCommit(threads: map<nat, Thread>, lock: Lock, tid: nat, i: nat)
    requires Exclusive(threads, lock) && tid in threads && !threads[tid].phase.Waiting?
    ensures var threads' := threads[tid := threads[tid].(phase := Executing(i))];
            forall t | t in threads' :: !threads'[t].phase.Committed?
  {
  }

  lemma FinishInv(s: State, l: Label, s': State)
    requires Inv(s) && l.Finish? && FinishStep(s, l, s')
    ensures Inv(s')
  {
    hide Numbered, Logged, QueuedUntouched, LiveIsRecent, CommitsBacked;
    var th := s.threads[l.tid];
    var sid := th.request.sessionId;
    var s1 := Forget(s, sid);
    assert s.lock == HeldBy(l.tid);
    if l.read.ReadOk? && Live(s.store, sid) && !l.w.NotWritten? {
      var r := Closed(s.store[sid], th.phase.result, l.now);
      FiledAt(s.store, sid);
      CloseKeeps(s1, sid, r);
      var s2 := s1.(store := s.store[sid := r]);
      FinishNoneRunning(s2, l.tid);
      PhaseKeeps(s2, l.tid, s'.threads[l.tid].phase);
    } else {
      if l.read.ReadOk? && sid in s.store && Terminal(s.store[sid].result.state) {
        FinishNoneRunning(s1, l.tid);
      }
      PhaseKeeps(s1, l.tid, s'.threads[l.tid].phase);
    }
  }

  /** Once the lock holder's own record is finished, no record is running. */
  lemma FinishNoneRunning(s: State, tid: nat)
    requires RunningIsHeld(s.store, s.threads, s.lock, s.up) && Exclusive(s.threads, s.lock) && s.up
    requires tid in s.threads && !s.threads[tid].phase.Waiting?
    requires !Live(s.store, s.threads[tid].request.sessionId)
    ensures forall k | k in s.store :: !s.store[k].result.state.Running?
  {
    assert s.lock == HeldBy(tid);
  }

  lemma ReleaseInv(s: State, tid: nat, s': State)
    requires Inv(s) && ReleaseStep(s, tid, s')
    ensures Inv(s')
  {
    NoneRunning(s, tid);
    DropParts(s.threads, tid, s.spawned, s.births, s.lock, s.up, s.log);
  }

  lemma DropParts(threads: map<nat, Thread>, tid: nat, spawned: nat, births: nat, lock: Lock, up: bool, log: seq<Event>)
    requires tid in threads && !threads[tid].phase.Waiting?
    requires Placed(threads, spawned, births, up) && Exclusive(threads, lock) && CommitsBacked(threads, births, log)
    ensures Placed(threads - {tid}, spawned, births, up) && Exclusive(threads - {tid}, Free)
    ensures CommitsBacked(threads - {tid}, births, log)
  {
    assert lock == HeldBy(tid);
  }

  lemma AcquireInv(s: State, tid: nat, s': State)
    requires Inv(s) && AcquireStep(s, tid, s')
    ensures Inv(s')
  {
    AcquireParts(s.store, s.threads, tid, s.spawned, s.births, s.up, s.log);
  }

  lemma AcquireParts(store: Store, threads: map<nat, Thread>, tid: nat, spawned: nat, births: nat, up: bool,
                     log: seq<Event>)
    requires tid in threads
    requires Placed(threads, spawned, births, up) && Exclusive(threads, Free)
    requires RunningIsHeld(store, threads, Free, up) && CommitsBacked(threads, births, log)
    ensures var threads' := threads[tid := threads[tid].(phase := Holding)];
            && Placed(threads', spawned, births, up) && Exclusive(threads', HeldBy(tid))
            && RunningIsHeld(store, threads', HeldBy(tid), up) && CommitsBacked(threads', births, log)
  {
  }

  lemma CrashInv(s: State)
    requires Inv(s)
    ensures Inv(AfterCrash(s))
  {
    LogGrows(s.log, s.births, Crashed, s.births);
    QueuedGrows(s.store, s.inc, s.log, Crashed);
  }

  lemma RecoverInv(s: State, l: Label, s': State)
    requires Inv(s) && Step(s, l, s') && (l.RecoverOne? || l.RecoverDone?)
    ensures Inv(s')
  {
    if l.RecoverOne? {
      var s1 := Put(s, Interrupted(s.store[l.sid], l.now), l.w);
      if !l.w.NotWritten? {
        FiledAt(s.store, l.sid);
        CloseKeeps(s, l.sid, Interrupted(s.store[l.sid], l.now));
      }
      if !l.w.Durable? { CrashInv(s1); }
    } else {
      CollectKeeps(s, l.kept);
      if l.collected {
        ServeParts(s, l.kept);
      } else {
        CrashInv(WithStore(s, l.kept));
      }
    }
  }

  lemma ServeParts(s: State, kept: Store)
    requires Inv(WithStore(s, kept)) && !s.up && (forall k :: !Live(s.store, k)) && OldestFirst(s.store, kept)
    ensures Inv(WithStore(s, kept).(up := true))
  {
    hide Numbered, Logged, QueuedUntouched, CommitsBacked, WellKept;
    assert forall k | k in kept :: kept[k] == s.store[k] && !Live(s.store, k);
  }

  lemma CheckContextInv(s: State, tid: nat, s': State)
    requires Inv(s) && CheckContextStep(s, tid, s')
    ensures Inv(s')
  {
    NoneRunning(s, tid);
    PhaseKeeps(s, tid, s'.threads[tid].phase);
  }

  lemma ClearActiveInv(s: State, tid: nat, s': State)
    requires Inv(s) && ClearActiveStep(s, tid, s')
    ensures Inv(s')
  {
    if !s.threads[tid].phase.fatal { NoneRunning(s, tid); }
    PhaseKeeps(s, tid, s'.threads[tid].phase);
  }

  lemma ReturnInv(s: State, l: Label, s': State)
    requires Inv(s) && l.Return? && ReturnStep(s, l, s')
    ensures Inv(s')
  {
    PhaseKeeps(s, l.tid, s'.threads[l.tid].phase);
  }

  lemma SyncInv(s: State, l: Label, s': State)
    requires Inv(s) && Step(s, l, s') && (l.Poll? || l.SyncAcquire? || l.SyncRelease?)
    ensures Inv(s')
  {
    hide WellKept, Numbered, Logged, QueuedUntouched, LiveIsRecent, CommitsBacked, Placed;
  }

  lemma StepInv(s: State, l: Label, s': State)
    requires Inv(s) && Step(s, l, s')
    ensures Inv(s')
  {
    hide Inv, StartStep, CancelStep, AcquireStep, CheckContextStep, SetRunningStep, ClearActiveStep, DispatchStep,
      ReturnStep, FinishStep, ReleaseStep, RecoverOneStep, RecoverDoneStep;
    match l
    case Start(_, _, _, _, _, _, _) =>
      var a :| StartStep(s, l, s', a);
      StartInv(s, l, s', a);
    case Cancel(_, _, _, _) =>
      var a :| CancelStep(s, l, s', a);
      CancelInv(s, l, s', a);
    case Acquire(tid) => AcquireInv(s, tid, s');
    case SetRunning(_, _, _, _) => SetRunningInv(s, l, s');
    case Dispatch(tid) => DispatchInv(s, tid, s');
    case Finish(_, _, _, _) => FinishInv(s, l, s');
    case Release(tid) => ReleaseInv(s, tid, s');
    case Crash => CrashInv(s);
    case RecoverOne(_, _, _) => RecoverInv(s, l, s');
    case RecoverDone(_, _, _, _) => RecoverInv(s, l, s');
    case CheckContext(tid) => CheckContextInv(s, tid, s');
    case ClearActive(tid) => ClearActiveInv(s, tid, s');
    case Return(_, _, _) => ReturnInv(s, l, s');
    case Poll(_, _) => SyncInv(s, l, s');
    case SyncAcquire => SyncInv(s, l, s');
    case SyncRelease => SyncInv(s, l, s');
  }
}
