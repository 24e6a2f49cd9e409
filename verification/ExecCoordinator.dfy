/** The coordinator object: the record directory, the cancel functions and the goroutines, with the
    handlers and the critical sections of `run` as methods. Every method that takes the coordinator
    mutex is proved to be one step of ExecProtocol. Failing I/O is a parameter. */
module ExecCoordinator {
  import opened Collections
  import opened ExecRecords
  import opened ExecProtocol

  /** Which directory accesses of one call fail. */
  datatype Faults = Faults(listing: bool, unreadable: set<SessionId>, stuck: set<SessionId>)

  /** Some access to the directory of these records fails. */
  predicate Faulty(io: Faults, store: Store) {
    io.listing || exists k :: k in store && (k in io.unreadable || k in io.stuck)
  }

  /** The store without the first `k` of `ids`. */
  function Without(store: Store, ids: seq<SessionId>, k: nat): Store
    requires k <= |ids|
  {
    store - (set x | x in ids[..k])
  }

  lemma WithoutNext(store: Store, ids: seq<SessionId>, k: nat)
    requires k < |ids|
    ensures Without(store, ids, k + 1) == Without(store, ids, k) - {ids[k]}
  {
    assert ids[..k + 1] == ids[..k] + [ids[k]];
  }

  lemma WithoutSize(store: Store, ids: seq<SessionId>, k: nat)
    requires k <= |ids| && Distinct(ids) && (forall i | 0 <= i < |ids| :: ids[i] in store)
    ensures |Without(store, ids, k)| == |store| - k
  {
    var front := ids[..k];
    assert Distinct(front);
    ElementsSize(front);
    var s := set x | x in front;
    assert s == Elements(front);
    assert s <= store.Keys;
    assert (store - s).Keys == store.Keys - s;
    assert |store - s| == |(store - s).Keys| && |store| == |store.Keys|;
  }

  /** Oldest first. */
  ghost predicate ByAge(ids: seq<SessionId>, store: Store) {
    && (forall x | x in ids :: x in store)
    && forall i, j | 0 <= i < j < |ids| :: store[ids[i]].updatedAt <= store[ids[j]].updatedAt
  }

  lemma Inserted(ids: seq<SessionId>, i: nat, x: SessionId, store: Store)
    requires i <= |ids| && ByAge(ids, store) && x in store
    requires forall j | 0 <= j < i :: store[ids[j]].updatedAt <= store[x].updatedAt
    requires i < |ids| ==> store[x].updatedAt <= store[ids[i]].updatedAt
    ensures ByAge(ids[..i] + [x] + ids[i..], store)
  {
    var out := ids[..i] + [x] + ids[i..];
    forall j, k | 0 <= j < k < |out|
      ensures out[j] in store && out[k] in store && store[out[j]].updatedAt <= store[out[k]].updatedAt
    {
      if j < i < k { assert out[k] == ids[k - 1] && out[j] == ids[j]; }
    }
  }

  lemma InsertedOnce(ids: seq<SessionId>, i: nat, x: SessionId)
    requires i <= |ids| && Distinct(ids) && x !in ids
    ensures Distinct(ids[..i] + [x] + ids[i..])
    ensures forall y :: y in ids[..i] + [x] + ids[i..] <==> y in ids || y == x
  {
    assert ids == ids[..i] + ids[i..];
  }

  /** Insertion of one ID into an age-ordered sequence. */
  method InsertByAge(ids: seq<SessionId>, x: SessionId, store: Store) returns (out: seq<SessionId>)
    requires ByAge(ids, store) && x in store && Distinct(ids) && x !in ids
    ensures ByAge(out, store) && Distinct(out)
    ensures forall y :: y in out <==> y in ids || y == x
  {
    var i := 0;
    while i < |ids| && store[ids[i]].updatedAt <= store[x].updatedAt
      invariant 0 <= i <= |ids|
      invariant forall j | 0 <= j < i :: store[ids[j]].updatedAt <= store[x].updatedAt
    {
      i := i + 1;
    }
    Inserted(ids, i, x, store);
    InsertedOnce(ids, i, x);
    out := ids[..i] + [x] + ids[i..];
  }

  /** sort.Slice by age: some oldest-first arrangement of the same IDs. */
  method SortByAge(ids: seq<SessionId>, store: Store) returns (out: seq<SessionId>)
    requires Distinct(ids) && forall x | x in ids :: x in store
    ensures ByAge(out, store) && Distinct(out)
    ensures forall x :: x in out <==> x in ids
  {
    out := [];
    for i := 0 to |ids|
      invariant ByAge(out, store) && Distinct(out)
      invariant forall x :: x in out <==> x in ids[..i]
    {
      assert ids[..i + 1] == ids[..i] + [ids[i]];
      out := InsertByAge(out, ids[i], store);
    }
    assert ids[..|ids|] == ids;
  }

  predicate Due(store: Store, ids: seq<SessionId>, i: nat, now: int, entries: nat)
    requires i < |ids| && ids[i] in store
  {
    Expired(store[ids[i]], now) || entries - i > CAPACITY
  }

  /** The records due for removal are a prefix of the age order. */
  lemma DuePrefix(store: Store, ids: seq<SessionId>, i: nat, j: nat, now: int, entries: nat)
    requires ByAge(ids, store) && i <= j < |ids| && Due(store, ids, j, now, entries)
    ensures Due(store, ids, i, now, entries)
  {
  }

  /** `ids` is every finished record, oldest first. */
  ghost predicate AllFinished(store: Store, ids: seq<SessionId>) {
    && ByAge(ids, store) && Distinct(ids)
    && forall k :: k in ids <==> k in store && Terminal(store[k].result.state)
  }

  lemma RemovedAt(store: Store, ids: seq<SessionId>, k: nat, x: SessionId) returns (i: nat)
    requires k <= |ids| && x in store && x !in Without(store, ids, k)
    ensures i < k && ids[i] == x
  {
    i :| 0 <= i < k && ids[..k][i] == x;
  }

  lemma KeptAt(store: Store, ids: seq<SessionId>, k: nat, x: SessionId) returns (j: nat)
    requires k <= |ids| && x in Without(store, ids, k) && x in ids
    ensures k <= j < |ids| && ids[j] == x
  {
    j :| 0 <= j < |ids| && ids[j] == x;
    forall i | 0 <= i < k ensures ids[i] != x { assert ids[..k][i] == ids[i]; }
  }

  lemma PrefixOldestFirst(store: Store, ids: seq<SessionId>, k: nat)
    requires AllFinished(store, ids) && k <= |ids|
    ensures OldestFirst(store, Without(store, ids, k))
  {
    var after := Without(store, ids, k);
    forall x | x in store && x !in after
      ensures Terminal(store[x].result.state)
    {
      var i := RemovedAt(store, ids, k, x);
      assert ids[i] in ids;
    }
    forall a, b | a in store && a !in after && b in after && Terminal(after[b].result.state)
      ensures store[a].updatedAt <= after[b].updatedAt
    {
      var i := RemovedAt(store, ids, k, a);
      var j := KeptAt(store, ids, k, b);
    }
  }

  lemma PrefixDue(store: Store, ids: seq<SessionId>, k: nat, now: int, entries: nat)
    requires ByAge(ids, store) && 0 < k <= |ids| && Due(store, ids, k - 1, now, entries)
    ensures || entries - (k - 1) > CAPACITY
            || forall x | x in store && x !in Without(store, ids, k) :: Expired(store[x], now)
  {
    if entries - (k - 1) <= CAPACITY {
      forall x | x in store && x !in Without(store, ids, k)
        ensures Expired(store[x], now)
      {
        var i := RemovedAt(store, ids, k, x);
        assert store[ids[i]].updatedAt <= store[ids[k - 1]].updatedAt;
      }
    }
  }

  lemma PrefixComplete(store: Store, ids: seq<SessionId>, k: nat, now: int, entries: nat)
    requires AllFinished(store, ids) && k <= |ids|
    requires k < |ids| ==> !Due(store, ids, k, now, entries)
    ensures var after := Without(store, ids, k);
            forall x | x in after && Terminal(after[x].result.state) ::
              !Expired(after[x], now) && entries - k <= CAPACITY
  {
    var after := Without(store, ids, k);
    forall x | x in after && Terminal(after[x].result.state)
      ensures !Expired(after[x], now) && entries - k <= CAPACITY
    {
      var j := KeptAt(store, ids, k, x);
      assert store[ids[k]].updatedAt <= store[ids[j]].updatedAt;
    }
  }

  /** Removing the first `k` finished records is a legal retention outcome. */
  lemma PrefixCollected(store: Store, ids: seq<SessionId>, k: nat, now: int, entries: nat, complete: bool)
    requires AllFinished(store, ids) && k <= |ids|
    requires k > 0 ==> Due(store, ids, k - 1, now, entries)
    requires complete && k < |ids| ==> !Due(store, ids, k, now, entries)
    ensures Collected(store, Without(store, ids, k), now, entries, complete)
  {
    WithoutSize(store, ids, k);
    PrefixOldestFirst(store, ids, k);
    if k > 0 { PrefixDue(store, ids, k, now, entries); }
    if complete { PrefixComplete(store, ids, k, now, entries); }
  }

  class Coordinator {
    var records: Store
    var active: map<SessionId, nat>
    var threads: map<nat, Thread>
    var spawned: nat
    var lock: Lock
    var up: bool
    // bookkeeping of the model: incarnation numbers and the event log
    var inc: map<SessionId, nat>
    var births: nat
    var log: seq<Event>

    ghost function View(): State
      reads this
    {
      State(records, inc, births, threads, spawned, active, lock, up, log)
    }

    /** Opened on an existing state directory; serves only after RecoverSessions. */
    constructor (store: Store, incarnations: map<SessionId, nat>, born: nat)
      ensures records == store && inc == incarnations && births == born
      ensures threads == map[] && active == map[] && lock == Free && !up && log == [] && spawned == 0
    {
      records, active, threads, spawned, lock, up := store, map[], map[], 0, Free, false;
      inc, births, log := incarnations, born, [];
    }

    /** The session files, in whatever order the directory gives them. */
    method ListRecords() returns (names: seq<SessionId>)
      ensures Distinct(names) && forall k :: k in names <==> k in records
    {
      names := [];
      var todo := records.Keys;
      while todo != {}
        invariant todo <= records.Keys && Distinct(names)
        invariant forall k :: k in names <==> k in records && k !in todo
        decreases todo
      {
        var k :| k in todo;
        names := names + [k];
        todo := todo - {k};
      }
    }

    /** Collects the finished records, or fails on the first unreadable file. */
    method ReadFinished(io: Faults) returns (finished: seq<SessionId>, ok: bool)
      ensures ok ==> AllFinished(records, finished)
      ensures !ok ==> io.listing || io.unreadable * records.Keys != {}
    {
      finished, ok := [], false;
      if io.listing { return; }
      var names := ListRecords();
      var found := [];
      for i := 0 to |names|
        invariant Distinct(found)
        invariant forall k :: k in found <==> k in names[..i] && Terminal(records[k].result.state)
      {
        assert names[..i + 1] == names[..i] + [names[i]];
        if names[i] in io.unreadable {
          assert names[i] in io.unreadable * records.Keys;
          return;
        }
        if Terminal(records[names[i]].result.state) {
          found := found + [names[i]];
        }
      }
      assert names[..|names|] == names;
      finished := SortByAge(found, records);
      ok := true;
    }

    /** Removes the due prefix of the finished records, stopping at the first failure. */
    method RemoveDue(finished: seq<SessionId>, now: int, entries: nat, io: Faults) returns (ok: bool, ghost k: nat)
      requires ByAge(finished, records)
      modifies this`records
      ensures k <= |finished| && records == Without(old(records), finished, k)
      ensures k > 0 ==> Due(old(records), finished, k - 1, now, entries)
      ensures ok && k < |finished| ==> !Due(old(records), finished, k, now, entries)
      ensures !ok ==> exists x :: x in finished && x in io.stuck
    {
      var before := records;
      k := 0;
      assert Without(before, finished, 0) == before;
      for i := 0 to |finished|
        invariant 0 <= k <= i && records == Without(before, finished, k)
        invariant k > 0 ==> Due(before, finished, k - 1, now, entries)
        invariant k < i ==> !Due(before, finished, k, now, entries)
      {
        if Expired(before[finished[i]], now) || entries - i > CAPACITY {
          if k < i { DuePrefix(before, finished, k, i, now, entries); }
          if finished[i] in io.stuck { return false, k; }
          WithoutNext(before, finished, i);
          records := records - {finished[i]};
          k := i + 1;
        }
      }
      return true, k;
    }

    method Sweep(now: int, entries: nat, io: Faults) returns (ok: bool)
      modifies this`records
      ensures Collected(old(records), records, now, entries, ok)
      ensures !ok ==> Faulty(io, old(records))
    {
      var finished, read := ReadFinished(io);
      if !read {
        KeptAll(records, now, entries);
        return false;
      }
      ghost var k;
      ok, k := RemoveDue(finished, now, entries, io);
      PrefixCollected(old(records), finished, k, now, entries, ok);
    }

    /** gcLocked. `stray` counts directory entries that are not session files. */
    method GcLocked(now: int, stray: nat, io: Faults) returns (ok: bool)
      modifies this`records, this`inc
      ensures Collected(old(records), records, now, |old(records)| + stray, ok)
      ensures View() == WithStore(old(View()), records)
      ensures !ok ==> Faulty(io, old(records))
      ensures forall k | k in old(records) && k !in records ::
                && Terminal(old(records)[k].result.state)
                && (old(records)[k].updatedAt < now - 600_000_000_000 || |old(records)| + stray > 128)
      ensures ok ==> forall k | k in records && Terminal(records[k].result.state) ::
                now - 600_000_000_000 <= records[k].updatedAt && |records| + stray <= 128
    {
      hide Collected;
      ok := Sweep(now, |records| + stray, io);
      CollectedIs(old(records), records, now, stray, ok);
      inc := Keep(inc, records.Keys);
    }

    /** findByRequest: the record that answers to this caller and request, if one does. */
    method FindByRequest(callerKey: string, requestId: string, io: Faults)
      returns (found: Option<Record>, ok: bool)
      ensures ok && found.Some? ==>
                exists k :: k in records && records[k] == found.value && SameRequest(records[k], callerKey, requestId)
      ensures ok && found.None? ==>
                forall k | k in records :: !SameRequest(records[k], callerKey, requestId)
      ensures !ok ==> Faulty(io, records)
    {
      if io.listing { return None, false; }
      var names := ListRecords();
      for i := 0 to |names|
        invariant forall j | 0 <= j < i :: !SameRequest(records[names[j]], callerKey, requestId)
      {
        if names[i] in io.unreadable { return None, false; }
        if SameRequest(records[names[i]], callerKey, requestId) {
          return Some(records[names[i]]), true;
        }
      }
      return None, true;
    }

    /** The part of start that only reads: how the kept records answer the request. */
    method Decide(req: Request, findIo: Faults, readFails: bool, countFails: bool)
      returns (reply: Option<Answer>, ok: bool)
      requires UniqueRequests(records)
      ensures ok ==> reply == StartReply(records, req)
      ensures !ok ==> Faulty(findIo, records) || readFails || countFails
    {
      var byRequest, found := FindByRequest(req.callerKey, req.requestId, findIo);
      if !found { return None, false; }
      if byRequest.Some? {
        KnownAnswer(records, req, byRequest.value);
        var known := byRequest.value;
        return Some(if known.fingerprint != req.fingerprint then Refused(409) else Ok(known.result)), true;
      }
      if readFails { return None, false; }
      if req.sessionId in records {
        var existing := records[req.sessionId];
        if existing.callerKey != req.callerKey { return Some(Refused(403)), true; }
        if existing.requestId != req.requestId || existing.fingerprint != req.fingerprint {
          return Some(Refused(409)), true;
        }
        return Some(Ok(existing.result)), true;
      }
      if countFails { return None, false; }
      return if |records| >= CAPACITY then Some(Refused(503)) else None, true;
    }

    /** Writes the queued record and, once it is durable, starts the goroutine. */
    method Admit(req: Request, now: int, w: WriteOutcome) returns (answer: Answer)
      modifies this
      ensures View() == Admitted(old(View()), req, now, w)
      ensures answer == if w.Durable? then Ok(NewRecord(req, now).result) else Broken
    {
      var record := NewRecord(req, now);
      records := Written(records, record, w);
      if w.NotWritten? { return Broken; }
      var born := births;
      inc, births, log := inc[req.sessionId := born], born + 1, log + [Created(born, req.sessionId)];
      if w.LandedThenFailed? { return Broken; }
      threads := threads[spawned := Thread(req, born, false, Waiting)];
      active := active[req.sessionId := spawned];
      spawned := spawned + 1;
      return Ok(record.result);
    }

    /** start: one step of the protocol, whatever fails on the way. */
    method Start(req: Request, now: int, stray: nat, gcIo: Faults, findIo: Faults, readFails: bool,
                 countFails: bool, w: WriteOutcome) returns (answer: Answer, ghost did: Label)
      requires up && UniqueRequests(records)
      modifies this
      ensures did.Start? && did.req == req && did.now == now && did.stray == stray && did.w == w
      ensures StartStep(old(View()), did, View(), answer)
      ensures did.collected || Faulty(gcIo, old(records))
      ensures did.collected && did.read.ReadFails? ==> Faulty(findIo, records) || readFails || countFails
    {
      hide NewRecord, Collected, StartReply, UniqueRequests;
      did := Label.Start(req, now, stray, records, true, ReadOk, w);
      if !req.commandValid { return Refused(400), did; }
      var collected := GcLocked(now, stray, gcIo);
      did := Label.Start(req, now, stray, records, collected, ReadFails, w);
      if !collected { return Broken, did; }
      UniqueAfter(old(records), records, now, |old(records)| + stray);
      var reply, ok := Decide(req, findIo, readFails, countFails);
      if !ok { return Broken, did; }
      did := Label.Start(req, now, stray, records, collected, ReadOk, w);
      if reply.Some? { return reply.value, did; }
      answer := Admit(req, now, w);
    }

    /** boundRecord's verdict without the record. */
    method Poll(req: Request, readFails: bool) returns (answer: Answer)
      requires up
      ensures PollStep(View(), Label.Poll(req, if readFails then ReadFails else ReadOk), View(), answer)
    {
      if readFails { return Broken; }
      if req.sessionId !in records { return Refused(404); }
      var record := records[req.sessionId];
      if record.callerKey != req.callerKey { return Refused(403); }
      if req.requestId != "" && record.requestId != req.requestId { return Refused(403); }
      return Ok(record.result);
    }

    method Cancel(req: Request, now: int, readFails: bool, w: WriteOutcome) returns (answer: Answer)
      requires up
      modifies this
      ensures var did := Label.Cancel(req, now, if readFails then ReadFails else ReadOk, w);
              CancelStep(old(View()), did, View(), answer)
    {
      if readFails { return Broken; }
      if req.sessionId !in records { return Refused(404); }
      var record := records[req.sessionId];
      if record.callerKey != req.callerKey { return Refused(403); }
      if req.requestId != "" && record.requestId != req.requestId { return Refused(403); }
      if Terminal(record.result.state) { return Ok(record.result); }
      if req.sessionId in active && active[req.sessionId] in threads {
        var t := active[req.sessionId];
        threads := threads[t := threads[t].(cancelled := true)];
      }
      record := record.(result := record.result.(state := Canceled), updatedAt := now);
      records := Written(records, record, w);
      answer := if w.Durable? then Ok(record.result) else Broken;
    }

    /** setRunning, for the goroutine `tid` holding the mutation lock. */
    method SetRunning(tid: nat, now: int, readFails: bool, w: WriteOutcome)
      requires At(View(), tid) && threads[tid].phase == Ready
      modifies this`records, this`threads, this`log
      ensures var did := Label.SetRunning(tid, now, if readFails then ReadFails else ReadOk, w);
              SetRunningStep(old(View()), did, View())
    {
      var th := threads[tid];
      var sid := th.request.sessionId;
      if readFails || sid !in records {
        threads := threads[tid := th.(phase := Abandoning(true))];
        return;
      }
      var record := records[sid];
      if Terminal(record.result.state) {
        threads := threads[tid := th.(phase := Abandoning(false))];
        return;
      }
      var i := if sid in inc then inc[sid] else 0;
      record := record.(result := record.result.(state := Running), updatedAt := now);
      records := Written(records, record, w);
      if !w.NotWritten? { log := log + [Flipped(i, sid)]; }
      threads := threads[tid := th.(phase := if w.Durable? then Committed(i) else Abandoning(true))];
    }

    /** finish, for the goroutine `tid` with a result in hand. */
    method Finish(tid: nat, now: int, readFails: bool, w: WriteOutcome)
      requires At(View(), tid) && threads[tid].phase.Ending?
      modifies this`records, this`threads, this`active
      ensures FinishStep(old(View()), Label.Finish(tid, now, if readFails then ReadFails else ReadOk, w), View())
    {
      var th := threads[tid];
      var sid := th.request.sessionId;
      active := active - {sid};
      if readFails || sid !in records {
        threads := threads[tid := th.(phase := Dying)];
        return;
      }
      var record := records[sid];
      if Terminal(record.result.state) {
        threads := threads[tid := th.(phase := Leaving)];
        return;
      }
      var result := th.phase.result.(sessionId := record.sessionId, requestId := record.requestId);
      records := Written(records, record.(result := result, updatedAt := now), w);
      threads := threads[tid := th.(phase := if w.Durable? then Leaving else Dying)];
    }

    /** The write loop of recoverSessions: every unfinished record is failed, none is started again. */
    method FailUnfinished(now: int, io: Faults, writes: map<SessionId, WriteOutcome>) returns (ok: bool)
      requires !up && Filed(records)
      modifies this`records
      ensures PartlyInterrupted(old(records), records, now)
      ensures ok ==> FullyInterrupted(old(records), records, now)
      ensures !ok ==> Faulty(io, old(records)) || exists k :: k in writes && !writes[k].Durable?
      ensures Leads(old(View()), if ok then View() else AfterCrash(View()))
    {
      hide Leads, AfterCrash, Interrupted, Settling, PartlyInterrupted, FullyInterrupted, Settled;
      ghost var before, s0 := records, View();
      LeadsHere(s0);
      CrashOn(s0, s0);
      SettleNone(records, now);
      if io.listing { return false; }
      var names := ListRecords();
      for i := 0 to |names|
        invariant Settling(before, records, names[..i], now)
        invariant Leads(s0, View())
      {
        var sid := names[i];
        SettleNext(before, records, names, i, now);
        if sid in io.unreadable {
          CrashOn(s0, View());
          return false;
        }
        if !Terminal(records[sid].result.state) {
          var w := if sid in writes then writes[sid] else Durable;
          ghost var s := View();
          RecoverOneOn(s0, s, sid, now, w);
          records := Written(records, Interrupted(records[sid], now), w);
          assert View() == Put(s, Interrupted(s.store[sid], now), w);
          if !w.Durable? { return false; }
        }
      }
      TakeAll(names);
      SettleAll(before, records, names, now);
      return true;
    }

    /** The two halves of recoverSessions: the write loop, then the retention pass. */
    method SettleAndCollect(now: int, stray: nat, io: Faults, writes: map<SessionId, WriteOutcome>, gcIo: Faults)
      returns (ok: bool, ghost settled: Store)
      requires !up && Filed(records)
      modifies this`records, this`inc, this`up
      ensures up == ok
      ensures PartlyInterrupted(old(records), settled, now) && OldestFirst(settled, records)
      ensures ok ==> FullyInterrupted(old(records), settled, now)
      ensures !ok ==> || Faulty(io, old(records)) || Faulty(gcIo, settled)
                      || exists k :: k in writes && !writes[k].Durable?
      ensures ok ==> Collected(settled, records, now, |settled| + stray, true)
      ensures ok ==> forall k :: !Live(records, k)
      ensures Leads(old(View()), if ok then View() else AfterCrash(View()))
    {
      hide Leads, AfterCrash, Collected, FullyInterrupted, PartlyInterrupted, OldestFirst, Faulty, Live, Filed,
        Terminal, WithStore;
      ghost var s0 := View();
      ok := FailUnfinished(now, io, writes);
      settled := records;
      AllKept(settled);
      if ok {
        NoneLive(s0.store, settled, now);
        ghost var s := View();
        ok := GcLocked(now, stray, gcIo);
        RecoverDoneOn(s0, s, now, stray, records, ok);
        CollectedNotLive(settled, records, now, |settled| + stray, ok);
        up := ok;
      }
    }

    /** recoverSessions: a sequence of recovery steps, one per unfinished record and one for the
        retention pass. On any error the process gives up and what was already written stays. */
    method RecoverSessions(now: int, stray: nat, io: Faults, writes: map<SessionId, WriteOutcome>, gcIo: Faults)
      returns (ok: bool, ghost settled: Store)
      requires !up && Filed(records)
      modifies this`records, this`inc, this`up
      ensures up == ok
      ensures PartlyInterrupted(old(records), settled, now) && OldestFirst(settled, records)
      ensures ok ==> FullyInterrupted(old(records), settled, now)
      ensures settled.Keys == old(records.Keys)
      ensures forall k | k in settled :: settled[k] == old(records)[k] || settled[k].result.state == Failed
      ensures ok ==> forall k | k in settled ::
                var was, r := old(records)[k], settled[k];
                if was.result.state.Queued? || was.result.state.Running? then
                  && r.result.state == Failed
                  && r.result.stderr ==
                     "execution interrupted by coordinator restart; command was not redispatched"
                  && r.result.exitCode == was.result.exitCode && r.result.stdout == was.result.stdout
                  && r.result.sessionId == was.result.sessionId && r.result.requestId == was.result.requestId
                  && r.result.truncated == was.result.truncated
                  && r.sessionId == was.sessionId && r.requestId == was.requestId && r.callerKey == was.callerKey
                  && r.fingerprint == was.fingerprint && r.createdAt == was.createdAt && r.updatedAt == now
                else r == was
      ensures !ok ==> || Faulty(io, old(records)) || Faulty(gcIo, settled)
                      || exists k :: k in writes && !writes[k].Durable?
      ensures ok ==> Collected(settled, records, now, |settled| + stray, true)
      ensures ok ==> forall k :: !Live(records, k)
      ensures Leads(old(View()), if ok then View() else AfterCrash(View()))
    {
      hide Leads, AfterCrash, Collected, FullyInterrupted, PartlyInterrupted, OldestFirst, Faulty, Live, Filed;
      ghost var before := records;
      ok, settled := SettleAndCollect(now, stray, io, writes, gcIo);
      PartlyFailed(before, settled, now);
      if ok { InterruptedFields(before, settled, now); }
    }
  }

  lemma CrashOn(s0: State, s: State)
    requires Leads(s0, s)
    ensures Leads(s0, AfterCrash(s))
  {
    hide Leads;
    LeadsOn(s0, s, Crash, AfterCrash(s));
  }

  lemma RecoverOneOn(s0: State, s: State, sid: SessionId, now: int, w: WriteOutcome)
    requires Leads(s0, s) && !s.up && Live(s.store, sid)
    ensures var s1 := Put(s, Interrupted(s.store[sid], now), w);
            Leads(s0, if w.Durable? then s1 else AfterCrash(s1))
  {
    hide Leads, AfterCrash, Interrupted;
    var s1 := Put(s, Interrupted(s.store[sid], now), w);
    var s2, l := if w.Durable? then s1 else AfterCrash(s1), RecoverOne(sid, now, w);
    assert RecoverOneStep(s, l, s2);
    LeadsOn(s0, s, l, s2);
  }

  lemma RecoverDoneOn(s0: State, s: State, now: int, stray: nat, kept: Store, collected: bool)
    requires Leads(s0, s) && !s.up && forall k :: !Live(s.store, k)
    requires Collected(s.store, kept, now, |s.store| + stray, collected)
    ensures var s1 := WithStore(s, kept);
            Leads(s0, if collected then s1.(up := true) else AfterCrash(s1))
  {
    hide Leads, AfterCrash, Collected;
    var s1 := WithStore(s, kept);
    var s2, l := if collected then s1.(up := true) else AfterCrash(s1), RecoverDone(now, stray, kept, collected);
    assert RecoverDoneStep(s, l, s2);
    LeadsOn(s0, s, l, s2);
  }

  function Settled(r: Record, now: int): Record {
    if Terminal(r.result.state) then r else Interrupted(r, now)
  }

  ghost predicate PartlyInterrupted(before: Store, after: Store, now: int) {
    && after.Keys == before.Keys
    && forall k | k in before :: after[k] == before[k] || after[k] == Settled(before[k], now)
  }

  /** The records named in `done` are settled, the others as before. */
  ghost predicate Settling(before: Store, after: Store, done: seq<SessionId>, now: int) {
    && after.Keys == before.Keys
    && forall k | k in before :: after[k] == if k in done then Settled(before[k], now) else before[k]
  }

  lemma AllKept(store: Store)
    ensures OldestFirst(store, store)
  {
  }

  lemma NoneLive(before: Store, after: Store, now: int)
    requires FullyInterrupted(before, after, now)
    ensures forall k :: !Live(after, k)
  {
  }

  lemma PartlyFailed(before: Store, after: Store, now: int)
    requires PartlyInterrupted(before, after, now)
    ensures after.Keys == before.Keys
    ensures forall k | k in after :: after[k] == before[k] || after[k].result.state == Failed
  {
  }

  /** Recovery fails what was queued or running, with the reason as its error output, and leaves the rest
      of the record and every finished record alone. */
  lemma InterruptedFields(before: Store, after: Store, now: int)
    requires FullyInterrupted(before, after, now)
    ensures after.Keys == before.Keys
    ensures forall k | k in after ::
              var was, r := before[k], after[k];
              if was.result.state.Queued? || was.result.state.Running? then
                && r.result.state == Failed
                && r.result.stderr == "execution interrupted by coordinator restart; command was not redispatched"
                && r.result.exitCode == was.result.exitCode && r.result.stdout == was.result.stdout
                && r.result.sessionId == was.result.sessionId && r.result.requestId == was.result.requestId
                && r.result.truncated == was.result.truncated
                && r.sessionId == was.sessionId && r.requestId == was.requestId && r.callerKey == was.callerKey
                && r.fingerprint == was.fingerprint && r.createdAt == was.createdAt && r.updatedAt == now
              else r == was
  {
  }

  lemma CollectedNotLive(before: Store, after: Store, now: int, entries: nat, complete: bool)
    requires Collected(before, after, now, entries, complete) && forall k :: !Live(before, k)
    ensures OldestFirst(before, after) && forall k :: !Live(after, k)
  {
    forall k
      ensures !Live(after, k)
    {
      assert !Live(before, k);
    }
  }

  lemma SettleNone(before: Store, now: int)
    ensures Settling(before, before, [], now) && PartlyInterrupted(before, before, now)
  {
  }

  lemma SettleAll(before: Store, after: Store, names: seq<SessionId>, now: int)
    requires Settling(before, after, names, now) && forall k | k in before :: k in names
    ensures PartlyInterrupted(before, after, now) && FullyInterrupted(before, after, now)
  {
  }

  lemma SettleNext(before: Store, after: Store, names: seq<SessionId>, i: nat, now: int)
    requires Filed(before)
    requires i < |names| && names[i] in before && Settling(before, after, names[..i], now)
    ensures names[i] in after && Interrupted(after[names[i]], now).sessionId == names[i]
    ensures PartlyInterrupted(before, after, now)
    ensures after[names[i]] == before[names[i]] || after[names[i]] == Settled(before[names[i]], now)
    ensures Settling(before, after[names[i] := Settled(before[names[i]], now)], names[..i + 1], now)
    ensures PartlyInterrupted(before, after[names[i] := Settled(before[names[i]], now)], now)
    ensures Terminal(after[names[i]].result.state) ==> Settling(before, after, names[..i + 1], now)
    ensures !Terminal(after[names[i]].result.state) ==>
              Interrupted(after[names[i]], now) == Settled(before[names[i]], now)
  {
    TakeNext(names, i);
  }

  ghost predicate FullyInterrupted(before: Store, after: Store, now: int) {
    && after.Keys == before.Keys
    && forall k | k in before :: after[k] == Settled(before[k], now)
  }

  /** What a retention pass removes and, when it completed, what it leaves. */
  lemma CollectedIs(before: Store, after: Store, now: int, stray: nat, complete: bool)
    requires Collected(before, after, now, |before| + stray, complete)
    ensures forall k | k in before && k !in after ::
              && Terminal(before[k].result.state)
              && (before[k].updatedAt < now - 600_000_000_000 || |before| + stray > 128)
    ensures complete ==> forall k | k in after && Terminal(after[k].result.state) ::
              now - 600_000_000_000 <= after[k].updatedAt && |after| + stray <= 128
  {
    KeysBound(before, after);
    forall k | k in before && k !in after
      ensures before[k].updatedAt < now - 600_000_000_000 || |before| + stray > 128
    {
      if |after| == |before| { SameKeys(before, after); }
    }
  }

  lemma SameKeys(before: Store, after: Store)
    requires after.Keys <= before.Keys && |after| == |before|
    ensures after.Keys == before.Keys
  {
    assert before.Keys == after.Keys + (before.Keys - after.Keys);
    assert |after| == |after.Keys| && |before| == |before.Keys|;
  }

  lemma UniqueAfter(before: Store, after: Store, now: int, entries: nat)
    requires UniqueRequests(before) && Collected(before, after, now, entries, true)
    ensures UniqueRequests(after)
  {
  }

  lemma KeptAll(store: Store, now: int, entries: nat)
    ensures Collected(store, store, now, entries, false)
  {
  }

  /** With unique requests the record found is the one the protocol answers from. */
  lemma KnownAnswer(store: Store, req: Request, r: Record)
    requires UniqueRequests(store)
    requires exists k :: k in store && store[k] == r && SameRequest(store[k], req.callerKey, req.requestId)
    ensures StartReply(store, req) == Some(if r.fingerprint != req.fingerprint then Refused(409) else Ok(r.result))
  {
    var k :| k in store && store[k] == r && SameRequest(store[k], req.callerKey, req.requestId);
    assert Known(store, req);
    assert KnownAs(store, req) == k;
  }
}
