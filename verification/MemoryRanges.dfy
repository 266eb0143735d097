/** A read returns what was last written there: over every run, range by range. */
module MemoryRanges {
  import opened Bytes
  import opened Pieces
  import opened Layout
  import opened LayoutInvariant
  import opened ProcessView
  import opened MemoryRuns

  /** The process has these bytes at this offset of its segment `id`. */
  ghost predicate HasBytes(v: View, pid: int, id: int, offset: nat, bytes: seq<Byte>) {
    var c := ContentOf(v, pid, id);
    c != Absent && offset + |bytes| <= |c.data| && c.data[offset..offset + |bytes|] == bytes
  }

  /**
   Requests that may change bytes `[offset, offset + n)` of `(pid, id)`: a write to them, its
   terminator included, deletion of the id, and the end of the process. Segment zero is everyone's.
   */
  predicate Disturbs(req: Request, pid: int, id: int, offset: nat, n: nat) {
    match req
    case EndProcess(p) => p == pid
    case WriteAddress(p, i, o, text) => i == id && (p == pid || id == 0) && o < offset + n && offset <= o + |text|
    case RemoveSegment(p, i) => p == pid && i == id
    case _ => false
  }

  /** The terminator of a write that fills another segment lands in the range, on a byte that is not 0. */
  ghost predicate SpillsOn(l: Layout, req: Request, pid: int, id: int, offset: nat, n: nat)
    requires Legal(l, req)
  {
    && req.WriteAddress? && pid in l.tables
    && var k, i := Access(l, req.pid, req.id, req.offset, |req.text|), FindFrom(l.tables[pid], id, 0);
      && k != -1 && i != -1
      && var p, q := l.tables[req.pid][k], l.tables[pid][i];
        && p != q && req.offset + |req.text| == p.len
        && q.base + offset <= p.End() < q.base + offset + n && p.End() < |l.bytes| && l.bytes[p.End()] != 0
  }

  /** No request of the run may change the range. */
  ghost predicate Undisturbed(alg: Algorithm, l: Layout, reqs: seq<Request>, pid: int, id: int, offset: nat, n: nat)
    requires Inv(l) && Runs(alg, l, reqs)
    decreases reqs
  {
    reqs == []
    || (&& !Disturbs(reqs[0], pid, id, offset, n) && !SpillsOn(l, reqs[0], pid, id, offset, n)
        && (ServeRefines(alg, l, reqs[0]); Undisturbed(alg, Serve(alg, l, reqs[0]).0, reqs[1..], pid, id, offset, n)))
  }

  // ----- one request

  /** The same on the byte array. */
  ghost predicate BytesAt(l: Layout, pid: int, id: int, offset: nat, bytes: seq<Byte>) {
    && pid in l.tables
    && var i := FindFrom(l.tables[pid], id, 0);
      && i != -1 && offset + |bytes| <= l.tables[pid][i].len && l.tables[pid][i].End() <= |l.bytes|
      && var at := l.tables[pid][i].base + offset; l.bytes[at..at + |bytes|] == bytes
  }

  lemma HasBytesIs(l: Layout, pid: int, id: int, offset: nat, bytes: seq<Byte>)
    requires Inv(l)
    ensures HasBytes(Abs(l), pid, id, offset, bytes) <==> BytesAt(l, pid, id, offset, bytes)
  {
    if pid in l.tables {
      var i := FindFrom(l.tables[pid], id, 0);
      FindAgrees(l.bytes, l.tables[pid], id, 0);
      if i != -1 {
        EntryIsLive(l, pid, i);
        SlotLength(l, pid, i);
        var q := l.tables[pid][i];
        if offset + |bytes| <= q.len {
          SliceOfSlice(l.bytes, q.base, q.len, offset, offset + |bytes|);
        }
      }
    }
  }

  lemma WriteServed(alg: Algorithm, l: Layout, req: Request)
    requires Inv(l) && Legal(l, req) && req.WriteAddress?
    ensures var k := Access(l, req.pid, req.id, req.offset, |req.text|);
            if k == -1 then Serve(alg, l, req) == (l, SegFault)
            else var p := l.tables[req.pid][k];
              && p.base + req.offset + |req.text| < |l.bytes|
              && Serve(alg, l, req) == (WriteAt(l, p, req.offset, req.text), OkInstruction)
  {
    var k := Access(l, req.pid, req.id, req.offset, |req.text|);
    if k != -1 {
      EntryIsLive(l, req.pid, k);
    }
  }

  /** Segment zero is the first entry of every table, so it is what id 0 finds. */
  lemma FirstIsZero(l: Layout, pid: int)
    requires Inv(l) && pid in l.tables
    ensures FindFrom(l.tables[pid], 0, 0) == 0 && l.tables[pid][0] == l.ram[0]
  {
  }

  /** The bytes a write covers, its terminator included, lie outside the range, or put there what is there. */
  lemma WriteMisses(l: Layout, req: Request, pid: int, id: int, offset: nat, n: nat, b: nat)
    requires Inv(l) && Legal(l, req) && req.WriteAddress? && pid in l.tables
    requires Access(l, req.pid, req.id, req.offset, |req.text|) != -1
    requires FindFrom(l.tables[pid], id, 0) != -1 && offset + n <= l.tables[pid][FindFrom(l.tables[pid], id, 0)].len
    requires !Disturbs(req, pid, id, offset, n) && !SpillsOn(l, req, pid, id, offset, n)
    requires var q := l.tables[pid][FindFrom(l.tables[pid], id, 0)]; q.base + offset <= b < q.base + offset + n
    ensures b < |l.bytes|
    ensures var p := l.tables[req.pid][Access(l, req.pid, req.id, req.offset, |req.text|)];
            b < p.base + req.offset || p.base + req.offset + |req.text| < b
            || (b == p.base + req.offset + |req.text| && l.bytes[b] == 0)
  {
    var k, i := Access(l, req.pid, req.id, req.offset, |req.text|), FindFrom(l.tables[pid], id, 0);
    var p, q := l.tables[req.pid][k], l.tables[pid][i];
    EntryIsLive(l, req.pid, k);
    EntryIsLive(l, pid, i);
    if p == q {
      SamePieceSameEntry(l, req.pid, k, pid, i);
      FirstIsZero(l, req.pid);
      FirstIsZero(l, pid);
    } else {
      LiveApart(l, p, q);
    }
  }

  lemma WriteKeepsBytes(alg: Algorithm, l: Layout, req: Request, pid: int, id: int, offset: nat, bytes: seq<Byte>)
    requires Inv(l) && Legal(l, req) && req.WriteAddress? && BytesAt(l, pid, id, offset, bytes)
    requires !Disturbs(req, pid, id, offset, |bytes|) && !SpillsOn(l, req, pid, id, offset, |bytes|)
    ensures BytesAt(Serve(alg, l, req).0, pid, id, offset, bytes)
  {
    WriteServed(alg, l, req);
    var k, i := Access(l, req.pid, req.id, req.offset, |req.text|), FindFrom(l.tables[pid], id, 0);
    if k != -1 {
      var p, at := l.tables[req.pid][k], l.tables[pid][i].base + offset;
      forall b | at <= b < at + |bytes|
        ensures b < |l.bytes| && WriteAt(l, p, req.offset, req.text).bytes[b] == l.bytes[b]
      {
        WriteMisses(l, req, pid, id, offset, |bytes|, b);
      }
      SameSlice(l.bytes, WriteAt(l, p, req.offset, req.text).bytes, at, |bytes|);
    }
  }

  lemma SameSlice(s: seq<Byte>, t: seq<Byte>, at: nat, n: nat)
    requires at + n <= |s| == |t| && forall b :: at <= b < at + n ==> s[b] == t[b]
    ensures s[at..at + n] == t[at..at + n]
  {
  }

  lemma OtherKeepsBytes(alg: Algorithm, l: Layout, req: Request, pid: int, id: int, offset: nat, bytes: seq<Byte>)
    requires Inv(l) && Legal(l, req) && !req.WriteAddress? && HasBytes(Abs(l), pid, id, offset, bytes)
    requires !Disturbs(req, pid, id, offset, |bytes|)
    ensures Inv(Serve(alg, l, req).0) && HasBytes(Abs(Serve(alg, l, req).0), pid, id, offset, bytes)
  {
    var (l', reply) := Serve(alg, l, req);
    ServeRefines(alg, l, req);
    ZeroIsShared(l);
    StepKeepsContent(Abs(l), req, reply, Abs(l'), pid, id);
  }

  /**
   Over every run: creating, deleting, compacting, ending other processes and writing
   elsewhere, in the same segment or another, never change bytes that a process has.
   */
  lemma {:induction false} RunKeepsContent(alg: Algorithm, l: Layout, reqs: seq<Request>, pid: int, id: int,
    offset: nat, bytes: seq<Byte>)
    requires Inv(l) && Runs(alg, l, reqs) && HasBytes(Abs(l), pid, id, offset, bytes)
    requires Undisturbed(alg, l, reqs, pid, id, offset, |bytes|)
    ensures HasBytes(Abs(After(alg, l, reqs)), pid, id, offset, bytes)
    decreases reqs
  {
    if reqs != [] {
      ServeRefines(alg, l, reqs[0]);
      if reqs[0].WriteAddress? {
        HasBytesIs(l, pid, id, offset, bytes);
        WriteKeepsBytes(alg, l, reqs[0], pid, id, offset, bytes);
        HasBytesIs(Serve(alg, l, reqs[0]).0, pid, id, offset, bytes);
      } else {
        OtherKeepsBytes(alg, l, reqs[0], pid, id, offset, bytes);
      }
      RunKeepsContent(alg, Serve(alg, l, reqs[0]).0, reqs[1..], pid, id, offset, bytes);
    }
  }

  // ----- a read returns what was last written

  lemma WriteThenBytes(alg: Algorithm, l: Layout, pid: int, id: int, offset: nat, text: seq<Byte>)
    requires var w := WriteAddress(pid, id, offset, text);
             Inv(l) && Legal(l, w) && Serve(alg, l, w).1 == OkInstruction
    ensures BytesAt(Serve(alg, l, WriteAddress(pid, id, offset, text)).0, pid, id, offset, text)
  {
    WriteServed(alg, l, WriteAddress(pid, id, offset, text));
    var p := l.tables[pid][Access(l, pid, id, offset, |text|)];
    EntryIsLive(l, pid, Access(l, pid, id, offset, |text|));
    WrittenSlice(l.bytes, p.base + offset, text);
  }

  lemma WrittenSlice(bytes: seq<Byte>, at: nat, text: seq<Byte>)
    requires at + |text| < |bytes|
    ensures Splice(bytes, at, text + [0])[at..at + |text|] == text
  {
  }

  /**
   After an accepted write, and whatever run follows that does not disturb the bytes
   written, the same process reads back exactly the text it wrote.
   */
  lemma ReadAfterWrite(alg: Algorithm, l: Layout, pid: int, id: int, offset: nat, text: seq<Byte>, reqs: seq<Request>)
    requires var w := WriteAddress(pid, id, offset, text);
             Inv(l) && text != [] && Legal(l, w) && Serve(alg, l, w).1 == OkInstruction
    requires var l' := Serve(alg, l, WriteAddress(pid, id, offset, text)).0;
             Inv(l') && Runs(alg, l', reqs) && Undisturbed(alg, l', reqs, pid, id, offset, |text|)
    ensures Runs(alg, l, [WriteAddress(pid, id, offset, text)] + reqs)
    ensures ReadsBack(alg, After(alg, l, [WriteAddress(pid, id, offset, text)] + reqs), pid, id, offset, text)
  {
    var w := WriteAddress(pid, id, offset, text);
    var l' := Serve(alg, l, w).0;
    assert ([w] + reqs)[1..] == reqs;
    ServeRefines(alg, l, w);
    WriteThenBytes(alg, l, pid, id, offset, text);
    HasBytesIs(l', pid, id, offset, text);
    RunKeepsContent(alg, l', reqs, pid, id, offset, text);
    ContentReadsBack(alg, After(alg, l', reqs), pid, id, offset, text);
  }
}
