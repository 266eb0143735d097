/** What holds over every sequence of requests the memory server carries out. */
module MemoryRuns {
  import opened Bytes
  import opened Pieces
  import opened Layout
  import opened LayoutInvariant
  import opened CompactionProofs
  import opened ProcessView

  // ----- runs

  /** Every request is legal when its turn comes. */
  ghost predicate Runs(alg: Algorithm, l: Layout, reqs: seq<Request>)
    requires Inv(l)
    decreases reqs
  {
    reqs == [] || (Legal(l, reqs[0]) && (ServeRefines(alg, l, reqs[0]); Runs(alg, Serve(alg, l, reqs[0]).0, reqs[1..])))
  }

  ghost function After(alg: Algorithm, l: Layout, reqs: seq<Request>): (r: Layout)
    requires Inv(l) && Runs(alg, l, reqs)
    ensures Inv(r) && r.size == l.size
    decreases reqs
  {
    if reqs == [] then l
    else
      ServeRefines(alg, l, reqs[0]);
      After(alg, Serve(alg, l, reqs[0]).0, reqs[1..])
  }

  ghost function RepliesOf(alg: Algorithm, l: Layout, reqs: seq<Request>): seq<Reply>
    requires Inv(l) && Runs(alg, l, reqs)
    decreases reqs
  {
    if reqs == [] then []
    else
      ServeRefines(alg, l, reqs[0]);
      [Serve(alg, l, reqs[0]).1] + RepliesOf(alg, Serve(alg, l, reqs[0]).0, reqs[1..])
  }

  /** A run can be extended by any request that is legal at its end. */
  lemma {:induction false} RunSnoc(alg: Algorithm, l: Layout, reqs: seq<Request>, req: Request)
    requires Inv(l) && Runs(alg, l, reqs) && Legal(After(alg, l, reqs), req)
    ensures Runs(alg, l, reqs + [req])
    ensures After(alg, l, reqs + [req]) == Serve(alg, After(alg, l, reqs), req).0
    ensures RepliesOf(alg, l, reqs + [req]) == RepliesOf(alg, l, reqs) + [Serve(alg, After(alg, l, reqs), req).1]
    decreases reqs
  {
    if reqs == [] {
      assert [req][1..] == [];
      ServeRefines(alg, l, req);
    } else {
      ServeRefines(alg, l, reqs[0]);
      assert (reqs + [req])[1..] == reqs[1..] + [req];
      RunSnoc(alg, Serve(alg, l, reqs[0]).0, reqs[1..], req);
    }
  }

  // ----- reserved memory

  lemma {:induction false} ClearTableInside(l: Layout, pid: int)
    requires Inv(l) && pid in l.tables && Inside(l)
    ensures Inside(ClearTable(l, pid))
    decreases |l.tables[pid]|
  {
    if |l.tables[pid]| > 1 {
      ClearUnfold(l, pid);
      var t := l.tables[pid];
      var i := FindFrom(t, t[|t| - 1].id, 1);
      DeleteInv(l, pid, i);
      DeleteFrame(l, pid, i);
      DeleteInside(l, pid, i);
      ClearTableInside(DeleteAt(l, pid, i), pid);
    }
  }

  lemma DeleteInside(l: Layout, pid: int, i: nat)
    requires Inv(l) && IsOwn(l.tables, pid, i) && Inside(l)
    ensures Inside(DeleteAt(l, pid, i))
  {
    DeleteInv(l, pid, i);
    var p := l.tables[pid][i];
    var hs := l.holes + [p];
    var k := LiveAt(l.ram, l.tables, pid, i);
    forall j | 0 <= j < |l.holes| ensures Apart(l.holes[j], p) {
      assert Apart(l.ram[k], l.holes[j]);
    }
    AppendApart(l.holes, p);
    MergeKeepsFree(hs, 0, [], l.size);
  }

  lemma InsideStep(alg: Algorithm, l: Layout, req: Request)
    requires Inv(l) && Legal(l, req) && Inside(l) && !req.CompactAll?
    ensures Inside(Serve(alg, l, req).0)
  {
    match req
    case InitProcess(_) =>
    case EndProcess(pid) => ClearTableInside(l, pid);
    case ReadAddress(_, _, _, _) =>
    case WriteAddress(_, _, _, _) =>
    case CreateSegment(pid, id, size) =>
      var k := Pick(alg, l.holes, size);
      if k != -1 {
        TakeKeepsCross([], l.holes, k, size, l.size);
      }
    case RemoveSegment(pid, id) =>
      assert IsOwn(l.tables, pid, FindFrom(l.tables[pid], id, 1));
      DeleteInside(l, pid, FindFrom(l.tables[pid], id, 1));
    case CompactAll =>
  }

  /** As long as nothing was compacted, segments and holes tile exactly the reserved memory. */
  lemma {:induction false} TiledUntilCompaction(alg: Algorithm, l: Layout, reqs: seq<Request>)
    requires Inv(l) && Inside(l) && Runs(alg, l, reqs) && CompactAll !in reqs
    ensures Inside(After(alg, l, reqs)) && TilesExcept(After(alg, l, reqs), l.size, {})
    decreases reqs
  {
    if reqs == [] {
      InsideTiles(l);
    } else {
      ServeRefines(alg, l, reqs[0]);
      InsideStep(alg, l, reqs[0]);
      TiledUntilCompaction(alg, Serve(alg, l, reqs[0]).0, reqs[1..]);
    }
  }

  // ----- a process's bytes are its own

  datatype Content = Absent | Bytes(data: seq<Byte>)

  /** The bytes `(pid, id)` names: those of the first segment of the process with that id. */
  function ContentOf(v: View, pid: int, id: int): Content {
    if pid !in v.procs then Absent
    else
      var k := FindSlot(v.procs[pid], id, 0);
      if k == -1 then Absent else Bytes(v.procs[pid][k].data)
  }

  /** Requests that may change what `(pid, id)` holds; segment zero is everyone's. */
  predicate Touches(req: Request, pid: int, id: int) {
    match req
    case InitProcess(p) => p == pid
    case EndProcess(p) => p == pid
    case WriteAddress(p, i, _, _) => i == id && (p == pid || id == 0)
    case RemoveSegment(p, i) => p == pid && i == id
    case _ => false
  }

  ghost predicate ZeroShared(v: View) {
    forall pid :: pid in v.procs ==> |v.procs[pid]| > 0 && v.procs[pid][0] == Slot(0, v.zero)
  }

  lemma ZeroIsShared(l: Layout)
    requires Inv(l)
    ensures ZeroShared(Abs(l))
  {
  }

  lemma {:induction false} FindAppend(t: seq<Slot>, s: Slot, id: int, from: nat)
    requires FindSlot(t, id, from) != -1
    ensures FindSlot(t + [s], id, from) == FindSlot(t, id, from)
    decreases |t| - from
  {
    if t[from].id != id {
      FindAppend(t, s, id, from + 1);
    }
  }

  lemma FindAfterRemove(t: seq<Slot>, e: nat, id: int)
    requires e < |t| && t[e].id != id && FindSlot(t, id, 0) != -1
    ensures FindSlot(RemoveAt(t, e), id, 0) != -1
    ensures RemoveAt(t, e)[FindSlot(RemoveAt(t, e), id, 0)] == t[FindSlot(t, id, 0)]
  {
    var r, k := RemoveAt(t, e), FindSlot(t, id, 0);
    var j := FindSlot(r, id, 0);
    assert r[if k < e then k else k - 1] == t[k];
    assert j != -1;
    assert t[if j < e then j else j + 1] == r[j];
  }

  lemma FindAfterUpdate(t: seq<Slot>, k: nat, data: seq<Byte>, id: int)
    requires k < |t|
    ensures FindSlot(t[k := Slot(t[k].id, data)], id, 0) == FindSlot(t, id, 0)
  {
    var u := t[k := Slot(t[k].id, data)];
    var i, j := FindSlot(t, id, 0), FindSlot(u, id, 0);
    assert forall m :: 0 <= m < |t| ==> u[m].id == t[m].id;
  }

  lemma WriteKeepsContent(v: View, p: int, k: nat, offset: nat, text: seq<Byte>, pid: int, id: int)
    requires ZeroShared(v) && p in v.procs && k < |v.procs[p]| && offset <= |v.procs[p][k].data|
    requires ContentOf(v, pid, id) != Absent
    requires !(v.procs[p][k].id == id && (p == pid || id == 0)) && (v.procs[p][k].id == 0 ==> k == 0)
    ensures ContentOf(WriteView(v, p, k, offset, text), pid, id) == ContentOf(v, pid, id)
  {
    var data := Overwrite(v.procs[p][k].data, offset, text + [0]);
    if k == 0 {
      FindAfterUpdate(v.procs[pid], 0, data, id);
    } else if p == pid {
      FindAfterUpdate(v.procs[pid], k, data, id);
    }
  }

  /** A step that does not touch `(pid, id)` leaves its bytes as they are. */
  lemma StepKeepsContent(v: View, req: Request, reply: Reply, v': View, pid: int, id: int)
    requires ZeroShared(v) && ViewStep(v, req, reply, v')
    requires !Touches(req, pid, id) && ContentOf(v, pid, id) != Absent
    ensures ContentOf(v', pid, id) == ContentOf(v, pid, id)
  {
    var t := v.procs[pid];
    match req
    case InitProcess(_) =>
    case EndProcess(_) =>
    case ReadAddress(_, _, _, _) =>
    case WriteAddress(p, i, offset, text) =>
      var k := Reachable(v, p, i, offset, |text|);
      if k != -1 {
        WriteKeepsContent(v, p, k, offset, text, pid, id);
      }
    case CreateSegment(p, _, _) =>
      if p == pid && reply.Created? {
        FindAppend(t, v'.procs[pid][|t|], id, 0);
      }
    case RemoveSegment(p, i) =>
      if p == pid {
        FindAfterRemove(t, FindSlot(t, i, 1), id);
      }
    case CompactAll =>
  }

  // ----- what a read sees

  lemma ReadSeesContent(v: View, pid: int, id: int, offset: nat, size: nat, reply: Reply, v': View)
    requires ViewStep(v, ReadAddress(pid, id, offset, size), reply, v')
    requires ContentOf(v, pid, id) != Absent && offset + size <= |ContentOf(v, pid, id).data|
    ensures reply == Message(CString(ContentOf(v, pid, id).data[offset..offset + size]))
  {
  }

  ghost predicate ReadsBack(alg: Algorithm, l: Layout, pid: int, id: int, offset: nat, text: seq<Byte>)
    requires Inv(l)
  {
    var r := ReadAddress(pid, id, offset, |text|);
    Legal(l, r) && Serve(alg, l, r).1 == Message(text)
  }

  lemma ContentReadsBack(alg: Algorithm, l: Layout, pid: int, id: int, offset: nat, text: seq<Byte>)
    requires Inv(l) && text != [] && 0 !in text && ContentOf(Abs(l), pid, id) != Absent
    requires var data := ContentOf(Abs(l), pid, id).data;
             offset + |text| <= |data| && data[offset..offset + |text|] == text
    ensures ReadsBack(alg, l, pid, id, offset, text)
  {
    var r := ReadAddress(pid, id, offset, |text|);
    ServeRefines(alg, l, r);
    ReadSeesContent(Abs(l), pid, id, offset, |text|, Serve(alg, l, r).1, Abs(Serve(alg, l, r).0));
    CStringOfText(text);
  }

  /** Compaction is invisible: any read gives the same reply before and after. */
  lemma CompactionInvisible(alg: Algorithm, l: Layout, r: Request)
    requires Inv(l) && r.ReadAddress? && Legal(l, r)
    ensures Inv(Compact(l)) && Legal(Compact(l), r)
    ensures Serve(alg, Compact(l), r).1 == Serve(alg, l, r).1
  {
    CompactInv(l);
    CompactStep(l);
    ServeRefines(alg, l, r);
    ServeRefines(alg, Compact(l), r);
  }

  /**
   A write of a transfer that is under way may come before or after a compaction: same reply, and
   if its terminator spills in neither place, the same bytes for every process.
   */
  lemma WriteCommutes(alg: Algorithm, l: Layout, w: Request)
    requires Inv(l) && w.WriteAddress? && Legal(l, w)
    ensures Inv(Compact(l)) && Legal(Compact(l), w) && Inv(Serve(alg, l, w).0)
    ensures Serve(alg, Compact(l), w).1 == Serve(alg, l, w).1
    ensures !Spills(l, w) && !Spills(Compact(l), w) ==>
              Abs(Serve(alg, Compact(l), w).0) == Abs(Compact(Serve(alg, l, w).0))
  {
    CompactInv(l);
    CompactStep(l);
    ServeRefines(alg, l, w);
    ServeRefines(alg, Compact(l), w);
    CompactStep(Serve(alg, l, w).0);
    SameAnswer(alg, l, w);
  }

  lemma SameAnswer(alg: Algorithm, l: Layout, w: Request)
    requires Inv(l) && Inv(Compact(l)) && Abs(Compact(l)) == Abs(l) && w.WriteAddress? && Legal(l, w)
    ensures Legal(Compact(l), w) && Serve(alg, Compact(l), w).1 == Serve(alg, l, w).1
  {
    AccessAgrees(l, w.pid, w.id, w.offset, |w.text|);
    assert w.pid in Abs(Compact(l)).procs;
    AccessAgrees(Compact(l), w.pid, w.id, w.offset, |w.text|);
  }

  /** Compaction can be carried out exactly when some process has a segment of its own. */
  lemma CompactionPossibleIff(l: Layout)
    requires Inv(l)
    ensures Legal(l, CompactAll) <==> exists pid, i :: IsOwn(l.tables, pid, i)
  {
    if |l.ram| > 1 {
      assert HasSegment(l.tables, l.ram[1]);
    }
    if pid, i :| IsOwn(l.tables, pid, i) {
      assert l.tables[pid][i] in l.ram[1..];
    }
  }

  /** The kernel's create: on "compact first" it compacts and asks once more. */
  lemma NoConsecutiveCompactRequests(alg: Algorithm, l: Layout, pid: int, id: int, size: nat)
    requires Inv(l) && pid in l.tables && size > 0 && Legal(l, CompactAll)
    requires Serve(alg, l, CreateSegment(pid, id, size)).1 == CompactRequest
    ensures Serve(alg, l, CreateSegment(pid, id, size)).0 == l
    ensures Inv(Compact(l)) && Legal(Compact(l), CreateSegment(pid, id, size))
    ensures Serve(alg, Compact(l), CreateSegment(pid, id, size)).1.Created?
  {
    CreateServed(alg, l, pid, id, size);
    RetrySucceeds(alg, l, pid, size, id);
    CreateServed(alg, Compact(l), pid, id, size);
  }
}
