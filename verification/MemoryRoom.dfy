/** Room for a segment: what requests between a kernel's question and its retry leave of it. */
module MemoryRoom {
  import opened Pieces
  import opened Layout
  import opened LayoutInvariant
  import opened CompactionProofs
  import opened ProcessView
  import opened MemoryRuns

  ghost predicate HasRoom(hs: seq<Piece>, n: nat) {
    exists k :: 0 <= k < |hs| && hs[k].len >= n
  }

  /** What other threads may send while the kernel's main thread waits for memory on behalf of a process. */
  predicate ByOthers(req: Request, pid: int) {
    && !req.CreateSegment? && req != EndProcess(pid)
    && !(req.RemoveSegment? && req.pid == pid)
  }

  predicate AllByOthers(reqs: seq<Request>, pid: int) {
    forall i :: 0 <= i < |reqs| ==> ByOthers(reqs[i], pid)
  }

  // ----- one request

  lemma {:induction false} MergeKeepsRoom(hs: seq<Piece>, i: nat, n: nat)
    requires HasRoom(hs, n)
    ensures HasRoom(MergeFrom(hs, i), n)
    decreases |hs| - i
  {
    if i + 1 < |hs| {
      if Touching(hs, i) {
        MergeAtKeepsRoom(hs, i, n);
        MergeKeepsRoom(MergeAt(hs, i), i + 2, n);
      } else {
        MergeKeepsRoom(hs, i + 1, n);
      }
    }
  }

  lemma MergeAtKeepsRoom(hs: seq<Piece>, i: nat, n: nat)
    requires HasRoom(hs, n) && i + 1 < |hs| && Touching(hs, i)
    ensures HasRoom(MergeAt(hs, i), n)
  {
    var k :| 0 <= k < |hs| && hs[k].len >= n;
    var ms := MergeAt(hs, i);
    assert ms[if k <= i then k else k - 1].len >= hs[k].len;
  }

  lemma DeleteKeepsRoom(l: Layout, pid: int, i: nat, n: nat)
    requires pid in l.tables && i < |l.tables[pid]| && HasRoom(l.holes, n)
    ensures HasRoom(DeleteAt(l, pid, i).holes, n)
  {
    var k :| 0 <= k < |l.holes| && l.holes[k].len >= n;
    var more := l.holes + [l.tables[pid][i]];
    assert more[k].len >= n;
    MergeKeepsRoom(more, 0, n);
  }

  lemma {:induction false} ClearKeepsRoom(l: Layout, pid: int, n: nat)
    requires Inv(l) && pid in l.tables
    ensures HasRoom(l.holes, n) ==> HasRoom(ClearTable(l, pid).holes, n)
    ensures ClearTable(l, pid).remaining >= l.remaining
    decreases |l.tables[pid]|
  {
    if |l.tables[pid]| > 1 {
      var t := l.tables[pid];
      var i := FindFrom(t, t[|t| - 1].id, 1);
      ClearUnfold(l, pid);
      DeleteInv(l, pid, i);
      DeleteFrame(l, pid, i);
      if HasRoom(l.holes, n) {
        DeleteKeepsRoom(l, pid, i, n);
      }
      ClearKeepsRoom(DeleteAt(l, pid, i), pid, n);
    }
  }

  lemma CompactKeepsRoom(l: Layout, n: nat)
    requires Inv(l)
    ensures HasRoom(Compact(l).holes, l.remaining) && Compact(l).remaining == l.remaining
    ensures HasRoom(l.holes, n) ==> HasRoom(Compact(l).holes, n)
  {
    CompactHole(l);
    assert Compact(l).holes[0].len == l.remaining;
    if HasRoom(l.holes, n) {
      var k :| 0 <= k < |l.holes| && l.holes[k].len >= n;
      TotalAt(l.holes, k);
    }
  }

  /** No other thread's request takes room away, or the process's own segments. */
  ghost predicate NoLess(l: Layout, l': Layout, pid: int) {
    && l'.remaining >= l.remaining && (forall n :: HasRoom(l.holes, n) ==> HasRoom(l'.holes, n))
    && (pid in l.tables ==> pid in l'.tables && |l'.tables[pid]| == |l.tables[pid]|)
  }

  lemma StepNoLess(alg: Algorithm, l: Layout, req: Request, pid: int)
    requires Inv(l) && Legal(l, req) && ByOthers(req, pid)
    ensures NoLess(l, Serve(alg, l, req).0, pid)
  {
    match req
    case EndProcess(p) => EndNoLess(l, p, pid);
    case RemoveSegment(p, id) => RemoveNoLess(l, p, id, pid);
    case CompactAll => CompactNoLess(l, pid);
    case _ =>
  }

  lemma EndNoLess(l: Layout, p: int, pid: int)
    requires Inv(l) && p in l.tables && p != pid
    ensures NoLess(l, RemoveTable(l, p), pid)
  {
    ClearTableInv(l, p);
    forall n | HasRoom(l.holes, n) ensures HasRoom(RemoveTable(l, p).holes, n) {
      ClearKeepsRoom(l, p, n);
    }
    ClearKeepsRoom(l, p, 0);
  }

  lemma RemoveNoLess(l: Layout, p: int, id: int, pid: int)
    requires Inv(l) && p in l.tables && p != pid && FindFrom(l.tables[p], id, 1) != -1
    ensures NoLess(l, DeleteSegment(l, p, id), pid)
  {
    forall n | HasRoom(l.holes, n) ensures HasRoom(DeleteSegment(l, p, id).holes, n) {
      DeleteKeepsRoom(l, p, FindFrom(l.tables[p], id, 1), n);
    }
  }

  lemma CompactNoLess(l: Layout, pid: int)
    requires Inv(l)
    ensures NoLess(l, Compact(l), pid)
  {
    forall n | HasRoom(l.holes, n) ensures HasRoom(Compact(l).holes, n) {
      CompactKeepsRoom(l, n);
    }
    CompactKeepsRoom(l, 0);
    if pid in l.tables && |l.tables[pid]| > 0 {
      CompactKeepsSlot(l, pid, 0);
    }
  }

  // ----- runs

  /** Whatever other threads send, and however much: no room is taken away. */
  lemma {:induction false} RunNoLess(alg: Algorithm, l: Layout, reqs: seq<Request>, pid: int)
    requires Inv(l) && Runs(alg, l, reqs) && AllByOthers(reqs, pid)
    ensures NoLess(l, After(alg, l, reqs), pid)
    decreases reqs
  {
    if reqs != [] {
      ServeRefines(alg, l, reqs[0]);
      StepNoLess(alg, l, reqs[0], pid);
      RunNoLess(alg, Serve(alg, l, reqs[0]).0, reqs[1..], pid);
    }
  }

  /** A process with a segment of its own can wait: a compaction stays possible. */
  lemma CompactionStaysPossible(alg: Algorithm, l: Layout, reqs: seq<Request>, pid: int)
    requires Inv(l) && Runs(alg, l, reqs) && AllByOthers(reqs, pid) && pid in l.tables && |l.tables[pid]| > 1
    ensures Legal(After(alg, l, reqs), CompactAll)
  {
    RunNoLess(alg, l, reqs, pid);
    var l' := After(alg, l, reqs);
    assert IsOwn(l'.tables, pid, 1);
    CompactionPossibleIff(l');
  }

  /**
   The kernel's question is answered "compact"; other threads' requests come before the compaction,
   and more of them before the retry. The retry makes the segment all the same.
   */
  lemma RetryAfterOthers(alg: Algorithm, l: Layout, pid: int, id: int, size: nat,
    before: seq<Request>, between: seq<Request>)
    requires Inv(l) && pid in l.tables && size > 0
    requires Serve(alg, l, CreateSegment(pid, id, size)).1 == CompactRequest
    requires Runs(alg, l, before) && AllByOthers(before, pid) && AllByOthers(between, pid)
    requires Legal(After(alg, l, before), CompactAll)
    requires Inv(Compact(After(alg, l, before))) && Runs(alg, Compact(After(alg, l, before)), between)
    ensures var l' := After(alg, Compact(After(alg, l, before)), between);
            Legal(l', CreateSegment(pid, id, size)) && Serve(alg, l', CreateSegment(pid, id, size)).1.Created?
  {
    CreateServed(alg, l, pid, id, size);
    AnswerMeans(alg, l, pid, size, id);
    RunNoLess(alg, l, before, pid);
    var l1 := After(alg, l, before);
    CompactKeepsRoom(l1, 0);
    CompactNoLess(l1, pid);
    RunNoLess(alg, Compact(l1), between, pid);
    RoomMakes(alg, After(alg, Compact(l1), between), pid, id, size, l1.remaining);
  }

  lemma RoomMakes(alg: Algorithm, l: Layout, pid: int, id: int, size: nat, n: nat)
    requires Inv(l) && pid in l.tables && 0 < size <= n && HasRoom(l.holes, n)
    ensures Serve(alg, l, CreateSegment(pid, id, size)).1.Created?
  {
    CreateServed(alg, l, pid, id, size);
    AnswerMeans(alg, l, pid, size, id);
    var k :| 0 <= k < |l.holes| && l.holes[k].len >= n;
    assert l.holes[k].len >= size;
  }
}
