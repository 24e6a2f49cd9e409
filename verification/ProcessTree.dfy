/** Which processes an execution leaves behind: ancestry in a snapshot of the process table, whose
    parent links may form cycles, and the selection for cleanup (dev-agent/process_cleanup_linux.go). */
module ProcessTree {
  import opened Collections

  datatype Identity = Identity(pid: int, startTime: nat)
  datatype Stat = Stat(id: Identity, parent: int, state: char)
  type Table = map<int, Stat>

  /** Each element is a live pid and the next one its parent. */
  ghost predicate Chain(stats: Table, chain: seq<int>) {
    && chain != []
    && (forall i | 0 <= i < |chain| :: chain[i] > 0)
    && (forall i | 0 <= i < |chain| - 1 :: chain[i] in stats && stats[chain[i]].parent == chain[i + 1])
  }

  /** The ancestor is reached from the pid along parent links. */
  ghost predicate Descends(stats: Table, pid: int, ancestor: int) {
    exists chain :: Chain(stats, chain) && chain[0] == pid && chain[|chain| - 1] == ancestor
  }

  /** Parent links are deterministic, so descent passes through the parent. */
  lemma DescendsByParent(stats: Table, pid: int, ancestor: int)
    requires pid > 0 && pid != ancestor
    ensures Descends(stats, pid, ancestor) <==> pid in stats && Descends(stats, stats[pid].parent, ancestor)
  {
    if Descends(stats, pid, ancestor) {
      var chain :| Chain(stats, chain) && chain[0] == pid && chain[|chain| - 1] == ancestor;
      assert |chain| > 1;
      assert Chain(stats, chain[1..]);
    }
    if pid in stats && Descends(stats, stats[pid].parent, ancestor) {
      var chain :| Chain(stats, chain) && chain[0] == stats[pid].parent && chain[|chain| - 1] == ancestor;
      var longer := [pid] + chain;
      assert Chain(stats, longer) && longer[0] == pid && longer[|longer| - 1] == ancestor;
    }
  }

  lemma DescendsHere(stats: Table, pid: int)
    requires pid > 0
    ensures Descends(stats, pid, pid)
  {
    assert Chain(stats, [pid]);
  }

  lemma DescendsPositive(stats: Table, pid: int, ancestor: int)
    requires Descends(stats, pid, ancestor)
    ensures pid > 0
  {
    var chain :| Chain(stats, chain) && chain[0] == pid;
  }

  /** No chain leaves a set of pids that is closed under parents. */
  lemma ClosedSet(stats: Table, closed: set<int>, pid: int, ancestor: int)
    requires pid in closed && ancestor !in closed
    requires forall p | p in closed :: p in stats && stats[p].parent in closed
    ensures !Descends(stats, pid, ancestor)
  {
    if Descends(stats, pid, ancestor) {
      var chain :| Chain(stats, chain) && chain[0] == pid && chain[|chain| - 1] == ancestor;
      StaysInside(stats, closed, chain, |chain| - 1);
      assert false;
    }
  }

  lemma {:induction false} StaysInside(stats: Table, closed: set<int>, chain: seq<int>, i: nat)
    requires Chain(stats, chain) && chain[0] in closed && i < |chain|
    requires forall p | p in closed :: p in stats && stats[p].parent in closed
    ensures chain[i] in closed
  {
    if i > 0 { StaysInside(stats, closed, chain, i - 1); }
  }

  /** execProcessDescendsFrom: ends on every table, cyclic ones included, and decides descent. */
  method DescendsFrom(start: int, ancestor: int, stats: Table) returns (b: bool)
    ensures b <==> Descends(stats, start, ancestor)
  {
    var pid, seen: set<int> := start, {};
    while pid > 0
      invariant Descends(stats, start, ancestor) <==> Descends(stats, pid, ancestor)
      invariant seen <= stats.Keys && ancestor !in seen
      invariant forall p | p in seen :: stats[p].parent in seen || stats[p].parent == pid
      decreases |stats.Keys - seen|, if pid in stats then 1 else 0
    {
      if pid == ancestor {
        DescendsHere(stats, pid);
        return true;
      }
      if pid in seen {
        ClosedSet(stats, seen, pid, ancestor);
        return false;
      }
      DescendsByParent(stats, pid, ancestor);
      if pid !in stats { return false; }
      if stats[pid].parent == pid {
        ClosedSet(stats, {pid}, pid, ancestor);
        return false;
      }
      ghost var left := stats.Keys - seen;
      seen := seen + {pid};
      assert stats.Keys - seen == left - {pid};
      pid := stats[pid].parent;
    }
    if Descends(stats, pid, ancestor) { DescendsPositive(stats, pid, ancestor); }
    return false;
  }

  // ----- selection -----

  /** Reading a process's environment for the execution's marker. */
  datatype Mark = Marked | Unmarked | Gone | Forbidden | Unreadable

  type Marks = int -> Mark

  /** A live process that is new since the baseline, other than init and the executor itself. */
  predicate Candidate(self: int, baseline: set<Identity>, stats: Table, pid: int) {
    pid in stats && pid > 1 && pid != self && stats[pid].state != 'Z' && stats[pid].id !in baseline
  }

  ghost predicate Owned(self: int, baseline: set<Identity>, stats: Table, marks: Marks, pid: int) {
    Candidate(self, baseline, stats, pid) && (Descends(stats, pid, self) || marks(pid) == Marked)
  }

  /** The one case in which cleanup cannot be proven: a candidate outside the executor's descendants
      whose marker cannot be read. */
  ghost predicate Undecidable(self: int, baseline: set<Identity>, stats: Table, marks: Marks, pid: int) {
    Candidate(self, baseline, stats, pid) && !Descends(stats, pid, self) && marks(pid) == Unreadable
  }

  /** selectExecProcessIDs: exactly the owned processes, each once, or an error exactly when one
      cannot be decided. */
  method SelectProcesses(self: int, baseline: set<Identity>, stats: Table, marks: Marks)
    returns (ok: bool, pids: seq<int>, ids: seq<Identity>)
    ensures ok <==> forall pid :: !Undecidable(self, baseline, stats, marks, pid)
    ensures ok ==> forall pid :: pid in pids <==> Owned(self, baseline, stats, marks, pid)
    ensures ok ==> forall pid :: pid in pids <==>
              && pid in stats && pid > 1 && pid != self && stats[pid].state != 'Z' && stats[pid].id !in baseline
              && (Descends(stats, pid, self) || marks(pid) == Marked)
    ensures !ok <==> exists pid ::
              && pid in stats && pid > 1 && pid != self && stats[pid].state != 'Z' && stats[pid].id !in baseline
              && !Descends(stats, pid, self) && marks(pid) == Unreadable
    ensures |ids| == |pids| && forall i | 0 <= i < |pids| :: pids[i] in stats && ids[i] == stats[pids[i]].id
    ensures forall i, j | 0 <= i < j < |pids| :: pids[i] != pids[j]
  {
    hide Descends;
    UndecidableIs(self, baseline, stats, marks);
    pids, ids := [], [];
    var todo := stats.Keys;
    while todo != {}
      invariant todo <= stats.Keys
      invariant forall pid :: pid in pids <==> pid !in todo && Owned(self, baseline, stats, marks, pid)
      invariant forall pid | pid !in todo :: !Undecidable(self, baseline, stats, marks, pid)
      invariant |ids| == |pids| && forall i | 0 <= i < |pids| :: pids[i] in stats && ids[i] == stats[pids[i]].id
      invariant forall i, j | 0 <= i < j < |pids| :: pids[i] != pids[j]
      decreases |todo|
    {
      SomePid(todo);
      var pid :| pid in todo;
      var process := stats[pid];
      var take := false;
      if pid > 1 && pid != self && process.state != 'Z' && process.id !in baseline {
        take := DescendsFrom(pid, self, stats);
        if !take {
          match marks(pid) {
            case Marked => take := true;
            case Unreadable =>
              assert Undecidable(self, baseline, stats, marks, pid);
              return false, pids, ids;
            case Unmarked =>
            case Gone =>
            case Forbidden =>
          }
        }
      }
      todo := todo - {pid};
      if take { pids, ids := pids + [pid], ids + [process.id]; }
    }
    return true, pids, ids;
  }

  lemma UndecidableIs(self: int, baseline: set<Identity>, stats: Table, marks: Marks)
    ensures (exists pid :: Undecidable(self, baseline, stats, marks, pid)) <==>
            exists pid ::
              && pid in stats && pid > 1 && pid != self && stats[pid].state != 'Z' && stats[pid].id !in baseline
              && !Descends(stats, pid, self) && marks(pid) == Unreadable
  {
    hide Descends;
    if pid :| pid in stats && pid > 1 && pid != self && stats[pid].state != 'Z' && stats[pid].id !in baseline &&
              !Descends(stats, pid, self) && marks(pid) == Unreadable
    {
      assert Undecidable(self, baseline, stats, marks, pid);
    }
  }

  lemma SomePid(pids: set<int>)
    requires pids != {}
    ensures exists p :: p in pids
  {
    assert (forall p :: p !in pids) ==> pids == {};
  }

  // ----- the stable-scan loop -----

  const STABLE_SCANS: nat := 3

  /** One round: what the scan found (None: the process table could not be read), whether every
      residual process could be killed, and whether the deadline had passed. */
  datatype Round = Round(readable: bool, residual: nat, killed: bool, late: bool)

  predicate Empty(r: Round) { r.readable && r.residual == 0 }

  predicate Continues(r: Round) { r.readable && (r.residual == 0 || r.killed) }

  /** Rounds i-2, i-1 and i found nothing. */
  ghost predicate StableAt(rounds: seq<Round>, i: nat)
    requires i < |rounds|
  {
    i >= 2 && Empty(rounds[i - 2]) && Empty(rounds[i - 1]) && Empty(rounds[i])
  }

  /** cleanupExecProcesses over the rounds that happen: success is reported in the first round that
      completes three empty scans in a row, and only if every round before went through in time. */
  method Cleanup(rounds: seq<Round>) returns (proven: bool, used: nat)
    ensures used <= |rounds|
    ensures proven ==> used >= 3 && forall i | used - 3 <= i < used :: rounds[i].readable && rounds[i].residual == 0
    ensures proven ==> used >= STABLE_SCANS && StableAt(rounds, used - 1)
                       && forall i | 0 <= i < used - 1 ::
                            Continues(rounds[i]) && !rounds[i].late && !StableAt(rounds, i)
    ensures !proven ==> (forall i | 0 <= i < used :: !StableAt(rounds, i))
                        && (used == |rounds| || !Continues(rounds[used]) ||
                            (rounds[used].late && !StableAt(rounds, used)))
  {
    var empty := 0;
    for i := 0 to |rounds|
      invariant empty < STABLE_SCANS && empty <= i
      invariant forall j | 0 <= j < i :: Continues(rounds[j]) && !rounds[j].late && !StableAt(rounds, j)
      invariant forall j | i - empty <= j < i :: Empty(rounds[j])
      invariant i > empty ==> !Empty(rounds[i - empty - 1])
    {
      var r := rounds[i];
      if !r.readable { return false, i; }
      if r.residual == 0 {
        empty := empty + 1;
        if empty >= STABLE_SCANS { return true, i + 1; }
      } else {
        empty := 0;
        if !r.killed { return false, i; }
      }
      if r.late { return false, i; }
    }
    return false, |rounds|;
  }
}
