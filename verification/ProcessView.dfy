/**
 What processes see: per process a list of segments, each an id and its bytes. The layout
 (bases, holes, order in memory) does not show. Every request is a step on this view.
 */
module ProcessView {
  import opened Options
  import opened Bytes
  import opened Pieces
  import opened Layout
  import opened LayoutInvariant
  import opened CompactionProofs

  datatype Slot = Slot(id: int, data: seq<Byte>)

  /** `zero` is the segment all processes share; it is also entry 0 of every table. */
  datatype View = View(zero: seq<Byte>, procs: map<int, seq<Slot>>)

  function SlotsOf(bytes: seq<Byte>, t: seq<Piece>): seq<Slot> {
    seq(|t|, i requires 0 <= i < |t| => Slot(t[i].id, Slice(bytes, t[i])))
  }

  function Abs(l: Layout): View
    requires |l.ram| > 0
  {
    View(Slice(l.bytes, l.ram[0]), map pid | pid in l.tables :: SlotsOf(l.bytes, l.tables[pid]))
  }

  // ----- requests (handlers.c)

  datatype Request =
    | InitProcess(pid: int)
    | EndProcess(pid: int)
    | ReadAddress(pid: int, id: int, offset: nat, size: nat)
    | WriteAddress(pid: int, id: int, offset: nat, text: seq<Byte>)
    | CreateSegment(pid: int, id: int, size: nat)
    | RemoveSegment(pid: int, id: int)
    | CompactAll

  datatype Reply =
    | OkInstruction
    | SegFault
    | OutOfMemory
    | CompactRequest
    | Created(base: int)
    | Message(text: seq<Byte>)
    | SegmentsTable(table: seq<Piece>)
    | AllSegmentsTables(tables: map<int, seq<Piece>>)

  /** What the code needs of a request; anything else dereferences a missing table or segment. */
  predicate Legal(l: Layout, req: Request) {
    match req
    case InitProcess(pid) => pid !in l.tables
    case EndProcess(pid) => pid in l.tables
    case ReadAddress(pid, _, _, size) => pid in l.tables && size > 0
    case WriteAddress(pid, _, _, text) => pid in l.tables && 0 !in text
    case CreateSegment(pid, _, size) => pid in l.tables && size > 0
    case RemoveSegment(pid, id) => pid in l.tables && FindFrom(l.tables[pid], id, 1) != -1
    case CompactAll => |l.ram| > 1
  }

  function WriteAt(l: Layout, p: Piece, offset: nat, text: seq<Byte>): Layout
    requires p.base + offset + |text| < |l.bytes|
  {
    l.(bytes := Splice(l.bytes, p.base + offset, text + [0]))
  }

  lemma EntryIsLive(l: Layout, pid: int, k: nat)
    requires Inv(l) && pid in l.tables && k < |l.tables[pid]|
    ensures l.tables[pid][k] in l.ram && l.tables[pid][k].End() <= l.size + 1
    ensures k > 0 ==> l.tables[pid][k] != l.ram[0]
  {
    if k > 0 {
      assert IsOwn(l.tables, pid, k);
      var m := LiveAt(l.ram, l.tables, pid, k);
      LivePiecesDiffer(l.ram, 0, m);
    }
  }

  /** What a read copies, or None when the segment is missing or too short. */
  ghost function ReadAt(l: Layout, pid: int, id: int, offset: nat, size: nat): Option<seq<Byte>>
    requires Inv(l) && pid in l.tables
  {
    var k := Access(l, pid, id, offset, size);
    if k == -1 then None
    else
      EntryIsLive(l, pid, k);
      Some(l.bytes[l.tables[pid][k].base + offset..l.tables[pid][k].base + offset + size])
  }

  /** One request, as the dispatcher carries it out under its mutex. */
  ghost function Serve(alg: Algorithm, l: Layout, req: Request): (r: (Layout, Reply))
    requires Inv(l) && Legal(l, req)
  {
    match req
    case InitProcess(pid) =>
      (CreateTable(l, pid), SegmentsTable([l.ram[0]]))
    case EndProcess(pid) =>
      (RemoveTable(l, pid), OkInstruction)
    case ReadAddress(pid, id, offset, size) =>
      var read := ReadAt(l, pid, id, offset, size);
      (l, if read == None then SegFault else Message(CString(read.value)))
    case WriteAddress(pid, id, offset, text) =>
      var k := Access(l, pid, id, offset, |text|);
      if k == -1 then (l, SegFault)
      else
        EntryIsLive(l, pid, k);
        (WriteAt(l, l.tables[pid][k], offset, text), OkInstruction)
    case CreateSegment(pid, id, size) =>
      var (l', answer) := AddSegment(alg, l, pid, size, id);
      (l', if answer == -1 then CompactRequest else if answer == -2 then OutOfMemory else Created(answer))
    case RemoveSegment(pid, id) =>
      (DeleteSegment(l, pid, id), OkInstruction)
    case CompactAll =>
      (Compact(l), AllSegmentsTables(Compact(l).tables))
  }

  // ----- steps on the view

  /** Position of the first slot from `from` on with this id, or -1. */
  function FindSlot(t: seq<Slot>, id: int, from: nat): (k: int)
    ensures k == -1 || from <= k < |t|
    ensures k != -1 ==> t[k].id == id && forall j :: from <= j < k ==> t[j].id != id
    ensures k == -1 ==> forall j :: from <= j < |t| ==> t[j].id != id
    decreases |t| - from
  {
    if from >= |t| then -1 else if t[from].id == id then from else FindSlot(t, id, from + 1)
  }

  function Reachable(v: View, pid: int, id: int, offset: nat, size: nat): (k: int)
    requires pid in v.procs
    ensures k == -1 || (0 <= k < |v.procs[pid]| && offset + size <= |v.procs[pid][k].data|)
  {
    var k := FindSlot(v.procs[pid], id, 0);
    if k == -1 || offset + size > |v.procs[pid][k].data| then -1 else k
  }

  /** `data` written over `s` from `at` on; what does not fit is lost. */
  function Overwrite(s: seq<Byte>, at: nat, data: seq<Byte>): (r: seq<Byte>)
    requires at <= |s|
    ensures |r| == |s|
    ensures forall i :: 0 <= i < |s| ==> r[i] == if at <= i < at + |data| then data[i - at] else s[i]
  {
    var n := if |data| <= |s| - at then |data| else |s| - at;
    s[..at] + data[..n] + s[at + n..]
  }

  /** New contents for entry `k` of a table; entry 0 is the same segment in every table. */
  function PutSlot(v: View, pid: int, k: nat, data: seq<Byte>): View
    requires pid in v.procs && k < |v.procs[pid]|
  {
    if k == 0 then
      View(data, map q | q in v.procs ::
        if |v.procs[q]| > 0 then v.procs[q][0 := Slot(v.procs[q][0].id, data)] else [])
    else
      v.(procs := v.procs[pid := v.procs[pid][k := Slot(v.procs[pid][k].id, data)]])
  }

  function WriteView(v: View, pid: int, k: nat, offset: nat, text: seq<Byte>): View
    requires pid in v.procs && k < |v.procs[pid]| && offset <= |v.procs[pid][k].data|
  {
    PutSlot(v, pid, k, Overwrite(v.procs[pid][k].data, offset, text + [0]))
  }

  /** The view a request leads to, and the reply it gives. A new segment starts with any bytes. */
  ghost predicate ViewStep(v: View, req: Request, reply: Reply, v': View) {
    match req
    case InitProcess(pid) =>
      v' == v.(procs := v.procs[pid := [Slot(0, v.zero)]])
    case EndProcess(pid) =>
      reply == OkInstruction && v' == v.(procs := v.procs - {pid})
    case ReadAddress(pid, id, offset, size) =>
      && v' == v && pid in v.procs
      && var k := Reachable(v, pid, id, offset, size);
         reply == if k == -1 then SegFault else Message(CString(v.procs[pid][k].data[offset..offset + size]))
    case WriteAddress(pid, id, offset, text) =>
      && pid in v.procs
      && var k := Reachable(v, pid, id, offset, |text|);
         if k == -1 then reply == SegFault && v' == v
         else reply == OkInstruction && v' == WriteView(v, pid, k, offset, text)
    case CreateSegment(pid, id, size) =>
      if !reply.Created? then reply in {CompactRequest, OutOfMemory} && v' == v
      else
        && pid in v.procs && pid in v'.procs && |v'.procs[pid]| == |v.procs[pid]| + 1
        && var slot := v'.procs[pid][|v.procs[pid]|];
           slot.id == id && |slot.data| == size && v' == v.(procs := v.procs[pid := v.procs[pid] + [slot]])
    case RemoveSegment(pid, id) =>
      && reply == OkInstruction && pid in v.procs
      && var k := FindSlot(v.procs[pid], id, 1);
         k != -1 && v' == v.(procs := v.procs[pid := RemoveAt(v.procs[pid], k)])
    case CompactAll =>
      v' == v
  }

  // ----- lookups agree

  lemma {:induction false} FindAgrees(bytes: seq<Byte>, t: seq<Piece>, id: int, from: nat)
    ensures FindSlot(SlotsOf(bytes, t), id, from) == FindFrom(t, id, from)
    decreases |t| - from
  {
    if from < |t| && t[from].id != id {
      FindAgrees(bytes, t, id, from + 1);
    }
  }

  lemma SlotLength(l: Layout, pid: int, k: nat)
    requires Inv(l) && pid in l.tables && k < |l.tables[pid]|
    ensures |Abs(l).procs[pid][k].data| == l.tables[pid][k].len
  {
    EntryIsLive(l, pid, k);
  }

  lemma AccessAgrees(l: Layout, pid: int, id: int, offset: nat, size: nat)
    requires Inv(l) && pid in l.tables
    ensures Reachable(Abs(l), pid, id, offset, size) == Access(l, pid, id, offset, size)
  {
    FindAgrees(l.bytes, l.tables[pid], id, 0);
    var k := FindFrom(l.tables[pid], id, 0);
    if k != -1 {
      SlotLength(l, pid, k);
    }
  }

  // ----- writing

  /**
   The terminator stays harmless: it lands inside the segment, or on a byte no segment
   holds, or on a byte that is 0 already.
   */
  ghost predicate Harmless(l: Layout, p: Piece, offset: nat, text: seq<Byte>) {
    || offset + |text| < p.len
    || (p.End() < |l.bytes| && l.bytes[p.End()] == 0)
    || !SomeHolds(l.ram, p.End())
  }

  lemma WrittenPiece(l: Layout, p: Piece, offset: nat, text: seq<Byte>)
    requires p.End() + 1 <= |l.bytes| && offset + |text| <= p.len
    ensures Slice(WriteAt(l, p, offset, text).bytes, p) == Overwrite(Slice(l.bytes, p), offset, text + [0])
  {
  }

  /** Another live segment changes exactly when the terminator is not harmless and lands in it. */
  lemma OtherPiece(l: Layout, p: Piece, q: Piece, offset: nat, text: seq<Byte>)
    requires p.End() + 1 <= |l.bytes| && offset + |text| <= p.len && q.End() <= |l.bytes|
    requires p.len > 0 && q.len > 0 && Apart(p, q)
    ensures Slice(WriteAt(l, p, offset, text).bytes, q) == Slice(l.bytes, q)
       <==> (offset + |text| < p.len || l.bytes[p.End()] == 0 || !Holds(q, p.End()))
  {
    var bytes := WriteAt(l, p, offset, text).bytes;
    var spill := p.End();
    if offset + |text| == p.len && Holds(q, spill) && l.bytes[spill] != 0 {
      assert bytes[spill] == 0;
      assert Slice(bytes, q)[spill - q.base] != Slice(l.bytes, q)[spill - q.base];
    } else {
      assert forall a :: q.base <= a < q.End() ==> bytes[a] == l.bytes[a];
      assert Slice(bytes, q) == Slice(l.bytes, q);
    }
  }

  lemma SamePieceSameEntry(l: Layout, pid: int, k: nat, q: int, i: nat)
    requires Inv(l) && pid in l.tables && k < |l.tables[pid]| && q in l.tables && i < |l.tables[q]|
    requires l.tables[pid][k] == l.tables[q][i]
    ensures (k == 0 && i == 0) || (pid == q && k == i && k > 0)
  {
    EntryIsLive(l, pid, k);
    EntryIsLive(l, q, i);
    if k > 0 && i > 0 {
      assert IsOwn(l.tables, pid, k) && IsOwn(l.tables, q, i);
    }
  }

  lemma LiveApart(l: Layout, p: Piece, q: Piece)
    requires Inv(l) && p in l.ram && q in l.ram && p != q
    ensures Apart(p, q) && p.len > 0 && q.len > 0 && p.End() <= l.size + 1 && q.End() <= l.size + 1
  {
    var i :| 0 <= i < |l.ram| && l.ram[i] == p;
    var j :| 0 <= j < |l.ram| && l.ram[j] == q;
    assert Apart(l.ram[if i < j then i else j], l.ram[if i < j then j else i]);
  }

  ghost predicate WriteFits(l: Layout, pid: int, k: nat, offset: nat, text: seq<Byte>) {
    && Inv(l) && pid in l.tables && k < |l.tables[pid]|
    && offset + |text| <= l.tables[pid][k].len
    && l.tables[pid][k].End() + 1 <= |l.bytes|
    && offset <= |Abs(l).procs[pid][k].data|
  }

  lemma HarmlessEntry(l: Layout, pid: int, k: nat, offset: nat, text: seq<Byte>, q: int, i: nat)
    requires WriteFits(l, pid, k, offset, text) && Harmless(l, l.tables[pid][k], offset, text)
    requires q in l.tables && i < |l.tables[q]|
    ensures var p := l.tables[pid][k];
            Slice(WriteAt(l, p, offset, text).bytes, l.tables[q][i]) ==
            if (k == 0 && i == 0) || (pid == q && k == i) then Overwrite(Slice(l.bytes, p), offset, text + [0])
            else Slice(l.bytes, l.tables[q][i])
  {
    var p, r := l.tables[pid][k], l.tables[q][i];
    EntryIsLive(l, pid, k);
    EntryIsLive(l, q, i);
    if r == p {
      SamePieceSameEntry(l, pid, k, q, i);
      WrittenPiece(l, p, offset, text);
    } else {
      LiveApart(l, p, r);
      assert Holds(r, p.End()) ==> SomeHolds(l.ram, p.End());
      OtherPiece(l, p, r, offset, text);
    }
  }

  lemma HarmlessWrite(l: Layout, pid: int, k: nat, offset: nat, text: seq<Byte>)
    requires WriteFits(l, pid, k, offset, text) && Harmless(l, l.tables[pid][k], offset, text)
    ensures Abs(WriteAt(l, l.tables[pid][k], offset, text)) == WriteView(Abs(l), pid, k, offset, text)
  {
    var v', w := Abs(WriteAt(l, l.tables[pid][k], offset, text)), WriteView(Abs(l), pid, k, offset, text);
    forall q | q in l.tables ensures v'.procs[q] == w.procs[q] {
      forall i | 0 <= i < |l.tables[q]| ensures v'.procs[q][i] == w.procs[q][i] {
        HarmlessEntry(l, pid, k, offset, text, q, i);
      }
    }
    assert v'.procs == w.procs;
    HarmlessEntry(l, pid, k, offset, text, pid, 0);
  }

  lemma HarmfulWrite(l: Layout, pid: int, k: nat, offset: nat, text: seq<Byte>)
    requires WriteFits(l, pid, k, offset, text) && !Harmless(l, l.tables[pid][k], offset, text)
    ensures Abs(WriteAt(l, l.tables[pid][k], offset, text)) != WriteView(Abs(l), pid, k, offset, text)
  {
    var p, v := l.tables[pid][k], Abs(l);
    var l' := WriteAt(l, p, offset, text);
    EntryIsLive(l, pid, k);
    var m :| 0 <= m < |l.ram| && Holds(l.ram[m], p.End());
    var q := l.ram[m];
    LiveApart(l, p, q);
    OtherPiece(l, p, q, offset, text);
    assert m != 0;
    var r, i := OwnerOf(l.tables, q);
    EntryIsLive(l, r, i);
    assert Abs(l').procs[r][i] != v.procs[r][i];
    assert WriteView(v, pid, k, offset, text).procs[r][i] == v.procs[r][i];
  }

  /**
   A write that passes the bound check reaches exactly the bytes it names if and only if
   its terminator is harmless.
   */
  lemma WriteRefinesIff(l: Layout, pid: int, k: nat, offset: nat, text: seq<Byte>)
    requires WriteFits(l, pid, k, offset, text)
    ensures Abs(WriteAt(l, l.tables[pid][k], offset, text)) == WriteView(Abs(l), pid, k, offset, text)
       <==> Harmless(l, l.tables[pid][k], offset, text)
  {
    if Harmless(l, l.tables[pid][k], offset, text) {
      HarmlessWrite(l, pid, k, offset, text);
    } else {
      HarmfulWrite(l, pid, k, offset, text);
    }
  }

  // ----- every request is a step of the view

  /** A write whose terminator reaches a byte another segment uses. */
  ghost predicate Spills(l: Layout, req: Request)
    requires Legal(l, req)
  {
    && req.WriteAddress?
    && var k := Access(l, req.pid, req.id, req.offset, |req.text|);
       k != -1 && !Harmless(l, l.tables[req.pid][k], req.offset, req.text)
  }

  lemma ReadStep(alg: Algorithm, l: Layout, req: Request)
    requires Inv(l) && Legal(l, req) && req.ReadAddress?
    ensures ViewStep(Abs(l), req, Serve(alg, l, req).1, Abs(Serve(alg, l, req).0))
  {
    AccessAgrees(l, req.pid, req.id, req.offset, req.size);
    var k := Access(l, req.pid, req.id, req.offset, req.size);
    if k != -1 {
      EntryIsLive(l, req.pid, k);
      var p := l.tables[req.pid][k];
      assert Abs(l).procs[req.pid][k].data == l.bytes[p.base..p.End()];
      SliceOfSlice(l.bytes, p.base, p.len, req.offset, req.offset + req.size);
    }
  }

  lemma WriteStep(alg: Algorithm, l: Layout, req: Request)
    requires Inv(l) && Legal(l, req) && req.WriteAddress? && !Spills(l, req)
    ensures ViewStep(Abs(l), req, Serve(alg, l, req).1, Abs(Serve(alg, l, req).0))
  {
    AccessAgrees(l, req.pid, req.id, req.offset, |req.text|);
    var k := Access(l, req.pid, req.id, req.offset, |req.text|);
    if k != -1 {
      EntryIsLive(l, req.pid, k);
      SlotLength(l, req.pid, k);
      HarmlessWrite(l, req.pid, k, req.offset, req.text);
    }
  }

  lemma PlaceView(l: Layout, pid: int, size: nat, id: int, k: nat) returns (slot: Slot)
    requires Inv(l) && pid in l.tables && k < |l.holes| && 0 < size <= l.holes[k].len
    ensures Inv(Place(l, pid, size, id, k))
    ensures slot.id == id && |slot.data| == size
    ensures Abs(Place(l, pid, size, id, k)) == Abs(l).(procs := Abs(l).procs[pid := Abs(l).procs[pid] + [slot]])
  {
    var l' := Place(l, pid, size, id, k);
    PlaceInv(l, pid, size, id, k);
    SlotLength(l', pid, |l.tables[pid]|);
    slot := Abs(l').procs[pid][|l.tables[pid]|];
    forall q | q in l.tables
      ensures Abs(l').procs[q] == if q == pid then Abs(l).procs[q] + [slot] else Abs(l).procs[q] {}
    assert Abs(l').procs == Abs(l).procs[pid := Abs(l).procs[pid] + [slot]];
  }

  lemma CreateServed(alg: Algorithm, l: Layout, pid: int, id: int, size: nat)
    requires Inv(l) && pid in l.tables && size > 0
    ensures var (l', reply) := Serve(alg, l, CreateSegment(pid, id, size));
            && l' == AddSegment(alg, l, pid, size, id).0
            && (reply == CompactRequest <==> AddSegment(alg, l, pid, size, id).1 == -1)
            && (reply == OutOfMemory <==> AddSegment(alg, l, pid, size, id).1 == -2)
            && (reply.Created? <==> AddSegment(alg, l, pid, size, id).1 >= 0)
            && reply in {CompactRequest, OutOfMemory, Created(AddSegment(alg, l, pid, size, id).1)}
  {
  }

  lemma CreateStep(alg: Algorithm, l: Layout, req: Request)
    requires Inv(l) && Legal(l, req) && req.CreateSegment?
    ensures Inv(Serve(alg, l, req).0)
    ensures ViewStep(Abs(l), req, Serve(alg, l, req).1, Abs(Serve(alg, l, req).0))
  {
    CreateServed(alg, l, req.pid, req.id, req.size);
    var answer := AddSegment(alg, l, req.pid, req.size, req.id).1;
    if answer >= 0 {
      var slot := PlaceView(l, req.pid, req.size, req.id, Pick(alg, l.holes, req.size));
    }
  }

  lemma DeleteView(l: Layout, pid: int, k: nat)
    requires Inv(l) && IsOwn(l.tables, pid, k)
    ensures Abs(DeleteAt(l, pid, k)) == Abs(l).(procs := Abs(l).procs[pid := RemoveAt(Abs(l).procs[pid], k)])
  {
    DeleteInv(l, pid, k);
    DeleteFrame(l, pid, k);
    var l' := DeleteAt(l, pid, k);
    assert SlotsOf(l.bytes, RemoveAt(l.tables[pid], k)) == RemoveAt(SlotsOf(l.bytes, l.tables[pid]), k);
    assert Abs(l').procs == Abs(l).procs[pid := RemoveAt(Abs(l).procs[pid], k)];
  }

  lemma DeleteStep(alg: Algorithm, l: Layout, req: Request)
    requires Inv(l) && Legal(l, req) && req.RemoveSegment?
    ensures Inv(Serve(alg, l, req).0)
    ensures ViewStep(Abs(l), req, Serve(alg, l, req).1, Abs(Serve(alg, l, req).0))
  {
    FindAgrees(l.bytes, l.tables[req.pid], req.id, 1);
    var k := FindFrom(l.tables[req.pid], req.id, 1);
    assert IsOwn(l.tables, req.pid, k);
    DeleteInv(l, req.pid, k);
    DeleteView(l, req.pid, k);
  }

  lemma CompactStep(l: Layout)
    requires Inv(l)
    ensures Abs(Compact(l)) == Abs(l)
  {
    CompactInv(l);
    var c := Compact(l);
    forall q | q in l.tables ensures Abs(c).procs[q] == Abs(l).procs[q] {
      forall i | 0 <= i < |l.tables[q]| ensures Abs(c).procs[q][i] == Abs(l).procs[q][i] {
        CompactKeepsSlot(l, q, i);
      }
      assert |c.tables[q]| == |l.tables[q]|;
    }
    assert Abs(c).procs == Abs(l).procs;
    SortIsAscending(l.ram, |l.bytes|);
    MoveDownKeeps(l.bytes, SortByBase(l.ram), |l.ram|, 0);
  }

  lemma StartStep(alg: Algorithm, l: Layout, req: Request)
    requires Inv(l) && req.InitProcess? && req.pid !in l.tables
    ensures Inv(Serve(alg, l, req).0)
    ensures ViewStep(Abs(l), req, Serve(alg, l, req).1, Abs(Serve(alg, l, req).0))
  {
    var l', pid := Serve(alg, l, req).0, req.pid;
    CreateTableInv(l, pid);
    assert Abs(l').procs[pid] == [Slot(0, Abs(l).zero)];
    assert Abs(l').procs == Abs(l).procs[pid := [Slot(0, Abs(l).zero)]];
  }

  lemma EndStep(alg: Algorithm, l: Layout, req: Request)
    requires Inv(l) && req.EndProcess? && req.pid in l.tables
    ensures Inv(Serve(alg, l, req).0) && Serve(alg, l, req).0.size == l.size
    ensures ViewStep(Abs(l), req, Serve(alg, l, req).1, Abs(Serve(alg, l, req).0))
  {
    var l' := Serve(alg, l, req).0;
    RemoveTableInv(l, req.pid);
    ClearTableInv(l, req.pid);
    assert Abs(l').procs == Abs(l).procs - {req.pid};
  }

  /** The layout refines the view: every request keeps the invariant and is a step of the view. */
  lemma ServeRefines(alg: Algorithm, l: Layout, req: Request)
    requires Inv(l) && Legal(l, req)
    ensures Inv(Serve(alg, l, req).0) && Serve(alg, l, req).0.size == l.size
    ensures !Spills(l, req) ==> ViewStep(Abs(l), req, Serve(alg, l, req).1, Abs(Serve(alg, l, req).0))
  {
    match req
    case InitProcess(_) => StartStep(alg, l, req);
    case EndProcess(_) => EndStep(alg, l, req);
    case ReadAddress(_, _, _, _) => ReadStep(alg, l, req);
    case WriteAddress(_, _, _, _) => if !Spills(l, req) { WriteStep(alg, l, req); }
    case CreateSegment(_, _, _) => CreateStep(alg, l, req);
    case RemoveSegment(_, _) => DeleteStep(alg, l, req);
    case CompactAll => CompactInv(l); CompactStep(l);
  }
}
