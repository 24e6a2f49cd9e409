/** Durable execution records: what one session file holds, how a write can fail,
    and what the retention pass may remove (dev-agent/exec_worker.go). */
module ExecRecords {
  import opened Collections

  /** Records kept at most (execSessionCapacity). */
  const CAPACITY: nat := 128
  /** Age after which a finished record may go: ten minutes, in nanoseconds. */
  const RETENTION: int := 600_000_000_000

  type SessionId = string

  datatype Status = Queued | Running | Succeeded | Failed | TimedOut | Canceled

  predicate Terminal(s: Status) {
    s.Succeeded? || s.Failed? || s.TimedOut? || s.Canceled?
  }

  /** Position in the life of a record: queued, running, finished. */
  function Rank(s: Status): nat {
    if s.Queued? then 0 else if s.Running? then 1 else 2
  }

  datatype Result = Result(
    sessionId: SessionId, requestId: string, state: Status,
    exitCode: Option<int>, stdout: string, stderr: string, truncated: bool)

  datatype Record = Record(
    sessionId: SessionId, requestId: string, callerKey: string, fingerprint: string,
    result: Result, createdAt: int, updatedAt: int)

  /** `commandValid` is the verdict of validatePersistentExecRequest on the command. */
  datatype Request = Request(
    sessionId: SessionId, requestId: string, callerKey: string, fingerprint: string,
    commandValid: bool)

  type Store = map<SessionId, Record>

  /** Rename precedes the directory sync, so a write that reports an error may have landed. */
  datatype WriteOutcome = Durable | NotWritten | LandedThenFailed

  function Written(store: Store, record: Record, w: WriteOutcome): Store {
    if w.NotWritten? then store else store[record.sessionId := record]
  }

  datatype Answer = Ok(result: Result) | Refused(code: nat) | Broken

  predicate Live(store: Store, k: SessionId) {
    k in store && !Terminal(store[k].result.state)
  }

  predicate SameRequest(r: Record, callerKey: string, requestId: string) {
    r.callerKey == callerKey && r.requestId == requestId
  }

  /** No two retained records answer to the same caller and request ID. */
  ghost predicate UniqueRequests(store: Store) {
    forall j, k | j in store && k in store &&
                  SameRequest(store[j], store[k].callerKey, store[k].requestId) :: j == k
  }

  /** Every record sits under its own session ID. */
  ghost predicate Filed(store: Store) {
    forall k | k in store ::
      store[k].sessionId == k && store[k].result.sessionId == k &&
      store[k].result.requestId == store[k].requestId
  }

  ghost predicate WellKept(store: Store) {
    Filed(store) && UniqueRequests(store) && |store| <= CAPACITY
  }

  // ----- retention -----

  predicate Expired(r: Record, now: int) {
    r.updatedAt < now - RETENTION
  }

  /** `after` is `before` less some finished records, none of them younger than a finished record kept. */
  ghost predicate OldestFirst(before: Store, after: Store) {
    && after.Keys <= before.Keys
    && (forall k | k in after :: after[k] == before[k])
    && (forall k | k in before && k !in after :: Terminal(before[k].result.state))
    && (forall a, b | a in before && a !in after && b in after && Terminal(after[b].result.state) ::
          before[a].updatedAt <= after[b].updatedAt)
  }

  /** The outcome of one retention pass over a directory of `entries` files.
      `complete` is false when a file could not be listed, read or removed. */
  ghost predicate Collected(before: Store, after: Store, now: int, entries: nat, complete: bool) {
    var removed := |before| - |after|;
    && OldestFirst(before, after)
    && (removed > 0 ==>
          || entries - (removed - 1) > CAPACITY
          || forall k | k in before && k !in after :: Expired(before[k], now))
    && (complete ==>
          forall k | k in after && Terminal(after[k].result.state) ::
            !Expired(after[k], now) && entries - removed <= CAPACITY)
  }

  /** Dropping records keeps what the store promises. */
  lemma OldestFirstKeeps(before: Store, after: Store)
    requires WellKept(before) && OldestFirst(before, after)
    ensures WellKept(after)
    ensures forall k | Live(before, k) :: Live(after, k) && after[k] == before[k]
  {
    KeysBound(before, after);
    assert |after| == |after.Keys| && |before| == |before.Keys|;
  }

  lemma KeysBound(before: Store, after: Store)
    requires after.Keys <= before.Keys
    ensures |after| <= |before|
  {
    SubsetSize(after.Keys, before.Keys);
    assert |after| == |after.Keys| && |before| == |before.Keys|;
  }

  // ----- start -----

  ghost predicate Known(store: Store, req: Request) {
    exists k :: k in store && SameRequest(store[k], req.callerKey, req.requestId)
  }

  ghost function KnownAs(store: Store, req: Request): (k: SessionId)
    requires Known(store, req)
    ensures k in store && SameRequest(store[k], req.callerKey, req.requestId)
  {
    var k :| k in store && SameRequest(store[k], req.callerKey, req.requestId);
    k
  }

  /** How a start is answered from the records alone; None when a new record is due. */
  ghost function StartReply(store: Store, req: Request): Option<Answer> {
    if Known(store, req) then
      var r := store[KnownAs(store, req)];
      Some(if r.fingerprint != req.fingerprint then Refused(409) else Ok(r.result))
    else if req.sessionId in store then
      Some(if store[req.sessionId].callerKey != req.callerKey then Refused(403) else Refused(409))
    else if |store| >= CAPACITY then Some(Refused(503))
    else None
  }

  function NewRecord(req: Request, now: int): Record {
    Record(req.sessionId, req.requestId, req.callerKey, req.fingerprint,
           Result(req.sessionId, req.requestId, Queued, None, "", "", false), now, now)
  }

  /** Admitting a start keeps the store's promises, whatever the write did. */
  lemma AdmitKeeps(store: Store, req: Request, now: int, w: WriteOutcome)
    requires WellKept(store) && StartReply(store, req).None?
    ensures WellKept(Written(store, NewRecord(req, now), w))
  {
    var r := NewRecord(req, now);
    if !w.NotWritten? {
      var after := store[req.sessionId := r];
      assert after.Keys == store.Keys + {req.sessionId};
      assert |after| == |after.Keys| && |store| == |store.Keys|;
    }
  }

  // ----- the dispatcher's answer -----

  datatype ExecResponse = ExecResponse(
    exitCode: int, stdout: string, stderr: string, timedOut: bool, cancelled: bool, truncated: bool)
  datatype RunError = RunError(message: string, contextCanceled: bool)

  /** int32 conversion of the exit code. */
  function ToInt32(x: int): (r: int)
    ensures -0x8000_0000 <= r < 0x8000_0000
    ensures (r - x) % 0x1_0000_0000 == 0
  {
    (x + 0x8000_0000) % 0x1_0000_0000 - 0x8000_0000
  }

  /** What an executed command is recorded as. */
  function ResultFromExec(response: ExecResponse, err: Option<RunError>): (r: Result)
    ensures Terminal(r.state)
    ensures r.state.Succeeded? ==> err.None? && response.exitCode == 0 && !response.cancelled && !response.timedOut
  {
    var state :=
      if response.cancelled || (err.Some? && err.value.contextCanceled) then Canceled
      else if response.timedOut then TimedOut
      else if err.Some? || response.exitCode != 0 then Failed
      else Succeeded;
    var stderr := if err.Some? && response.stderr == "" then err.value.message else response.stderr;
    Result("", "", state, Some(ToInt32(response.exitCode)), response.stdout, stderr, response.truncated)
  }

  /** A finished record takes the run's result under its own identity. */
  function Closed(record: Record, result: Result, now: int): Record {
    record.(result := result.(sessionId := record.sessionId, requestId := record.requestId), updatedAt := now)
  }

  function Restated(record: Record, state: Status, now: int): Record {
    record.(result := record.result.(state := state), updatedAt := now)
  }

  const INTERRUPTED := "execution interrupted by coordinator restart; command was not redispatched"

  function Interrupted(record: Record, now: int): Record {
    record.(result := record.result.(state := Failed, stderr := INTERRUPTED), updatedAt := now)
  }
}
