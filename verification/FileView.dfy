/** What clients of the filesystem see: names and byte strings; and what every run keeps of them. */
module FileView {
  import opened Options
  import opened Bytes
  import opened BlockPointers
  import opened Disk
  import opened DiskInvariant
  import opened DiskContent

  /** A file's size as set, and the bytes of the blocks it has for that size. */
  datatype File = File(size: int, data: seq<Byte>)

  type View = map<string, File>

  function Abs(d: Disk): View {
    map name | name in d.fcbs :: File(d.fcbs[name].size, Content(d, name))
  }

  // ----- requests (process_instruction)

  datatype Request =
    | OpenFile(name: string, canCreate: bool)
    | TruncateFile(name: string, size: nat)
    | ReadFile(name: string, pos: nat, size: nat)
    | WriteFile(name: string, pos: nat, text: seq<Byte>)

  datatype Reply = Flaw | Done | Text(text: seq<Byte>)

  /** What the code needs of a request; it does not check any of it. */
  ghost predicate Legal(d: Disk, req: Request) {
    match req
    case OpenFile(_, _) => true
    case TruncateFile(name, size) => ShapeSound(d) && CanResize(d, name, size)
    case ReadFile(name, pos, size) => name in d.fcbs && size > 0 && Covers(d, Data(d, d.fcbs[name]), pos, size)
    case WriteFile(name, pos, text) => name in d.fcbs && text != [] && Covers(d, Data(d, d.fcbs[name]), pos, |text|)
  }

  lemma FileCovers(d: Disk, name: string, pos: nat, n: nat)
    requires Inv(d) && name in d.fcbs && pos + n <= |Content(d, name)|
    ensures Covers(d, Data(d, d.fcbs[name]), pos, n)
  {
    assert FileOk(d, d.fcbs[name]);
    DataInRange(d, d.fcbs[name]);
  }

  ghost function Serve(d: Disk, req: Request): (Disk, Reply)
    requires Legal(d, req)
  {
    match req
    case OpenFile(name, canCreate) =>
      if name in d.fcbs then (d, Done)
      else if canCreate then (Created(d, name), Done)
      else (d, Flaw)
    case TruncateFile(name, size) =>
      (Resize(d, name, size), Done)
    case ReadFile(name, pos, size) =>
      (d, Text(ReadBytes(d, Data(d, d.fcbs[name]), pos, size)))
    case WriteFile(name, pos, text) =>
      (Written(d, WriteBytes(d, Data(d, d.fcbs[name]), pos, text)), Done)
  }

  /** The same request on names and byte strings. */
  ghost predicate ViewStep(bs: nat, v: View, req: Request, reply: Reply, v': View)
    requires bs > 0
  {
    match req
    case OpenFile(name, canCreate) =>
      reply == (if name in v || canCreate then Done else Flaw)
      && v' == if name !in v && canCreate then v[name := File(0, [])] else v
    case TruncateFile(name, size) =>
      reply == Done && name in v && v' == v[name := File(size, Resized(v[name].data, CeilDiv(size, bs) * bs))]
    case ReadFile(name, pos, size) =>
      v' == v && name in v && pos + size <= |v[name].data| && reply == Text(Shown(v[name].data[pos..pos + size]))
    case WriteFile(name, pos, text) =>
      reply == Done && name in v && pos + |text| <= |v[name].data|
      && v' == v[name := File(v[name].size, Splice(v[name].data, pos, text))]
  }

  /** The disk with an empty file added. */
  function Created(d: Disk, name: string): Disk {
    d.(fcbs := d.fcbs[name := Fcb(0, None, None)])
  }

  lemma CreatedRefs(d: Disk, name: string, x: string)
    requires ShapeOk(d) && name !in d.fcbs && x in Created(d, name).fcbs
    ensures x != name ==> x in d.fcbs && Refs(Created(d, name), Created(d, name).fcbs[x]) == Refs(d, d.fcbs[x])
    ensures x == name ==> Refs(Created(d, name), Created(d, name).fcbs[x]) == []
    ensures x == name ==> FileOk(Created(d, name), Created(d, name).fcbs[x])
    ensures x != name && FileOk(d, d.fcbs[x]) ==> FileOk(Created(d, name), Created(d, name).fcbs[x])
  {
    CeilDivFacts(d.blockSize, 0);
  }

  lemma CreatedInv(d: Disk, name: string)
    requires Inv(d) && name !in d.fcbs
    ensures Inv(Created(d, name))
  {
    var d' := Created(d, name);
    forall x | x in d'.fcbs ensures FileOk(d', d'.fcbs[x]) {
      CreatedRefs(d, name, x);
    }
    forall x, y | x in d'.fcbs && y in d'.fcbs && x != y ensures Disjoint(Refs(d', d'.fcbs[x]), Refs(d', d'.fcbs[y])) {
      CreatedRefs(d, name, x);
      CreatedRefs(d, name, y);
      assert x != name && y != name ==> Disjoint(Refs(d, d.fcbs[x]), Refs(d, d.fcbs[y]));
    }
    CreatedOwned(d, name);
  }

  lemma CreatedOwned(d: Disk, name: string)
    requires ShapeOk(d) && SetAreOwned(d) && name !in d.fcbs
    ensures SetAreOwned(Created(d, name))
  {
    var d' := Created(d, name);
    forall b | 0 < b < |d'.bits| && d'.bits[b] ensures Owned(d', b) {
      assert Owned(d, b);
      var x :| x in d.fcbs && b in Refs(d, d.fcbs[x]);
      CreatedRefs(d, name, x);
    }
  }

  lemma CreatedView(d: Disk, name: string)
    requires name !in d.fcbs
    ensures Abs(Created(d, name)) == Abs(d)[name := File(0, [])]
  {
  }

  function Written(d: Disk, blocks: seq<seq<Byte>>): Disk {
    d.(blocks := blocks)
  }

  lemma WrittenKeeps(d: Disk, name: string, pos: nat, text: seq<Byte>, d': Disk)
    requires ShapeOk(d) && name in d.fcbs && FileOk(d, d.fcbs[name])
    requires Covers(d, Data(d, d.fcbs[name]), pos, |text|)
    requires d' == Written(d, WriteBytes(d, Data(d, d.fcbs[name]), pos, text))
    ensures Distinct(Data(d, d.fcbs[name])) && Keeps(d, d', name) && Data(d', d.fcbs[name]) == Data(d, d.fcbs[name])
  {
    var f := d.fcbs[name];
    var data := Data(d, f);
    ListedIsPtrs(d, f);
    DistinctSplit(data, if f.indirect.Some? then [f.indirect.value] else []);
    forall b | 0 <= b < |d.blocks| && b !in data ensures d'.blocks[b] == d.blocks[b] {
      WriteKeepsOthers(d, data, pos, text, b);
    }
    assert Refs(d', f) == Refs(d, f);
    assert d'.fcbs == d.fcbs[name := f];
    assert forall b :: b in data ==> b in Refs(d, f);
  }

  lemma OtherContents(d: Disk, d': Disk, name: string)
    requires Inv(d) && name in d.fcbs && Keeps(d, d', name)
    ensures d'.fcbs.Keys == d.fcbs.Keys
    ensures forall x :: x in d.fcbs && x != name ==> d'.fcbs[x] == d.fcbs[x] && Content(d', x) == Content(d, x)
  {
    forall x | x in d.fcbs && x != name ensures d'.fcbs[x] == d.fcbs[x] && Content(d', x) == Content(d, x) {
      OthersContent(d, d', name, x);
    }
  }

  lemma WrittenView(d: Disk, name: string, pos: nat, text: seq<Byte>, d': Disk)
    requires name in d.fcbs && Covers(d, Data(d, d.fcbs[name]), pos, |text|) && d'.fcbs == d.fcbs
    requires d' == Written(d, WriteBytes(d, Data(d, d.fcbs[name]), pos, text))
    requires Distinct(Data(d, d.fcbs[name])) && Data(d', d.fcbs[name]) == Data(d, d.fcbs[name])
    requires forall x :: x in d.fcbs && x != name ==> Content(d', x) == Content(d, x)
    ensures Abs(d') == Abs(d)[name := File(d.fcbs[name].size, Splice(Content(d, name), pos, text))]
  {
    WriteIsSplice(d, Data(d, d.fcbs[name]), pos, text);
  }

  lemma ReadView(d: Disk, name: string, pos: nat, n: nat)
    requires name in d.fcbs && Covers(d, Data(d, d.fcbs[name]), pos, n)
    ensures name in Abs(d) && pos + n <= |Abs(d)[name].data|
    ensures ReadBytes(d, Data(d, d.fcbs[name]), pos, n) == Shown(Abs(d)[name].data[pos..pos + n])
  {
    ReadIsSlice(d, Data(d, d.fcbs[name]), pos, n);
  }

  lemma TruncatedView(d: Disk, d': Disk, name: string, n: nat)
    requires Truncated(d, d', name, n)
    ensures Abs(d') == Abs(d)[name := File(n, Resized(Content(d, name), CeilDiv(n, d.blockSize) * d.blockSize))]
  {
  }

  /** What is shown of a request: it keeps ownership and is a step of the view. */
  ghost predicate Refines(d: Disk, req: Request, reply: Reply, d': Disk) {
    Inv(d') && d.blockSize > 0 && d'.blockSize == d.blockSize && ViewStep(d.blockSize, Abs(d), req, reply, Abs(d'))
  }

  lemma OpenStep(d: Disk, req: Request)
    requires Inv(d) && Legal(d, req) && req.OpenFile?
    ensures Refines(d, req, Serve(d, req).1, Serve(d, req).0)
  {
    if req.name !in d.fcbs && req.canCreate {
      CreatedInv(d, req.name);
      CreatedView(d, req.name);
    }
  }

  lemma TruncateStep(d: Disk, req: Request)
    requires Inv(d) && Legal(d, req) && req.TruncateFile?
    ensures Refines(d, req, Serve(d, req).1, Serve(d, req).0)
  {
    ResizeTruncates(d, req.name, req.size);
    TruncatedView(d, Resize(d, req.name, req.size), req.name, req.size);
  }

  lemma ReadIsStep(d: Disk, name: string, pos: nat, size: nat)
    requires d.blockSize > 0 && name in d.fcbs && Covers(d, Data(d, d.fcbs[name]), pos, size)
    ensures ViewStep(d.blockSize, Abs(d), ReadFile(name, pos, size),
            Text(ReadBytes(d, Data(d, d.fcbs[name]), pos, size)), Abs(d))
  {
    ReadView(d, name, pos, size);
  }

  lemma ReadStep(d: Disk, req: Request)
    requires Inv(d) && Legal(d, req) && req.ReadFile?
    ensures Refines(d, req, Serve(d, req).1, Serve(d, req).0)
  {
    ReadIsStep(d, req.name, req.pos, req.size);
  }

  lemma WriteStep(d: Disk, req: Request)
    requires Inv(d) && Legal(d, req) && req.WriteFile?
    ensures Refines(d, req, Serve(d, req).1, Serve(d, req).0)
  {
    var d' := Serve(d, req).0;
    WrittenKeeps(d, req.name, req.pos, req.text, d');
    Transition(d, d', req.name);
    OtherContents(d, d', req.name);
    WrittenView(d, req.name, req.pos, req.text, d');
  }

  /** The disk refines the view: every request keeps ownership in order and is a step on names and bytes. */
  lemma ServeRefines(d: Disk, req: Request)
    requires Inv(d) && Legal(d, req)
    ensures Refines(d, req, Serve(d, req).1, Serve(d, req).0)
  {
    match req
    case OpenFile(_, _) => OpenStep(d, req);
    case TruncateFile(_, _) => TruncateStep(d, req);
    case ReadFile(_, _, _) => ReadStep(d, req);
    case WriteFile(_, _, _) => WriteStep(d, req);
  }

  // ----- runs

  ghost predicate Runs(d: Disk, reqs: seq<Request>)
    decreases reqs
  {
    reqs == [] || (Legal(d, reqs[0]) && Runs(Serve(d, reqs[0]).0, reqs[1..]))
  }

  ghost function After(d: Disk, reqs: seq<Request>): Disk
    requires Runs(d, reqs)
    decreases reqs
  {
    if reqs == [] then d else After(Serve(d, reqs[0]).0, reqs[1..])
  }

  ghost function RepliesOf(d: Disk, reqs: seq<Request>): seq<Reply>
    requires Runs(d, reqs)
    decreases reqs
  {
    if reqs == [] then [] else [Serve(d, reqs[0]).1] + RepliesOf(Serve(d, reqs[0]).0, reqs[1..])
  }

  /** Ownership stays in order over every run. */
  lemma {:induction false} RunKeeps(d: Disk, reqs: seq<Request>)
    requires Inv(d) && Runs(d, reqs)
    ensures Inv(After(d, reqs)) && After(d, reqs).blockSize == d.blockSize
    decreases reqs
  {
    if reqs != [] {
      ServeRefines(d, reqs[0]);
      RunKeeps(Serve(d, reqs[0]).0, reqs[1..]);
    }
  }

  /** Requests that may change bytes `[pos, pos + n)` of the file: overlapping writes, and cutting into the range. */
  predicate Disturbs(bs: nat, req: Request, name: string, pos: nat, n: nat)
    requires bs > 0
  {
    match req
    case TruncateFile(x, size) => x == name && CeilDiv(size, bs) * bs < pos + n
    case WriteFile(x, p, text) => x == name && p < pos + n && pos < p + |text|
    case _ => false
  }

  ghost predicate Holds(v: View, name: string, pos: nat, bytes: seq<Byte>) {
    name in v && pos + |bytes| <= |v[name].data| && v[name].data[pos..pos + |bytes|] == bytes
  }

  lemma StepKeepsRange(bs: nat, v: View, req: Request, reply: Reply, v': View, name: string, pos: nat, bytes: seq<Byte>)
    requires bs > 0 && ViewStep(bs, v, req, reply, v')
    requires Holds(v, name, pos, bytes) && bytes != [] && !Disturbs(bs, req, name, pos, |bytes|)
    ensures Holds(v', name, pos, bytes)
  {
    if name in v' {
      var s, s' := v[name].data[pos..pos + |bytes|], v'[name].data;
      forall i | 0 <= i < |s| ensures pos + i < |s'| && s'[pos + i] == s[i] {}
    }
  }

  /** Over every run, bytes of a file that nobody overwrites or cuts off stay, whatever happens to other files. */
  lemma {:induction false} RunKeepsRange(d: Disk, reqs: seq<Request>, name: string, pos: nat, bytes: seq<Byte>)
    requires Inv(d) && Runs(d, reqs) && Holds(Abs(d), name, pos, bytes) && bytes != []
    requires forall i :: 0 <= i < |reqs| ==> !Disturbs(d.blockSize, reqs[i], name, pos, |bytes|)
    ensures Holds(Abs(After(d, reqs)), name, pos, bytes)
    decreases reqs
  {
    if reqs != [] {
      var (d', reply) := Serve(d, reqs[0]);
      ServeRefines(d, reqs[0]);
      StepKeepsRange(d.blockSize, Abs(d), reqs[0], reply, Abs(d'), name, pos, bytes);
      assert forall i :: 0 <= i < |reqs[1..]| ==> reqs[1..][i] == reqs[i + 1];
      RunKeepsRange(d', reqs[1..], name, pos, bytes);
    }
  }

  lemma ShownIsSame(s: seq<Byte>)
    requires 0 !in s
    ensures Shown(s) == s
  {
  }

  ghost predicate ReadsBack(d: Disk, name: string, pos: nat, text: seq<Byte>) {
    var r := ReadFile(name, pos, |text|);
    Legal(d, r) && Serve(d, r).1 == Text(text)
  }

  lemma RangeReadsBack(d: Disk, name: string, pos: nat, text: seq<Byte>)
    requires Inv(d) && Holds(Abs(d), name, pos, text) && text != [] && 0 !in text
    ensures ReadsBack(d, name, pos, text)
  {
    FileCovers(d, name, pos, |text|);
    ServeRefines(d, ReadFile(name, pos, |text|));
    ShownIsSame(text);
  }

  lemma WriteHolds(d: Disk, name: string, pos: nat, text: seq<Byte>)
    requires Inv(d) && Legal(d, WriteFile(name, pos, text))
    ensures var d' := Serve(d, WriteFile(name, pos, text)).0;
            Inv(d') && d'.blockSize == d.blockSize && Holds(Abs(d'), name, pos, text)
  {
    ServeRefines(d, WriteFile(name, pos, text));
  }

  lemma HeldReadsBack(d: Disk, reqs: seq<Request>, name: string, pos: nat, text: seq<Byte>)
    requires Inv(d) && Runs(d, reqs) && Holds(Abs(d), name, pos, text) && text != [] && 0 !in text
    requires forall i :: 0 <= i < |reqs| ==> !Disturbs(d.blockSize, reqs[i], name, pos, |text|)
    ensures ReadsBack(After(d, reqs), name, pos, text)
  {
    RunKeepsRange(d, reqs, name, pos, text);
    RunKeeps(d, reqs);
    RangeReadsBack(After(d, reqs), name, pos, text);
  }

  /** After a write, and any run that does not disturb the range, a read gives back what was written. */
  lemma ReadAfterWrite(d: Disk, name: string, pos: nat, text: seq<Byte>, reqs: seq<Request>)
    requires Inv(d) && 0 !in text && Runs(d, [WriteFile(name, pos, text)] + reqs)
    requires forall i :: 0 <= i < |reqs| ==> !Disturbs(d.blockSize, reqs[i], name, pos, |text|)
    ensures ReadsBack(After(d, [WriteFile(name, pos, text)] + reqs), name, pos, text)
  {
    assert ([WriteFile(name, pos, text)] + reqs)[1..] == reqs;
    WriteHolds(d, name, pos, text);
    HeldReadsBack(Serve(d, WriteFile(name, pos, text)).0, reqs, name, pos, text);
  }

  /** A run can be extended by any request that is legal at its end. */
  lemma {:induction false} RunSnoc(d: Disk, reqs: seq<Request>, req: Request)
    requires Runs(d, reqs) && Legal(After(d, reqs), req)
    ensures Runs(d, reqs + [req]) && After(d, reqs + [req]) == Serve(After(d, reqs), req).0
    ensures RepliesOf(d, reqs + [req]) == RepliesOf(d, reqs) + [Serve(After(d, reqs), req).1]
    decreases reqs
  {
    if reqs == [] {
      assert [req][1..] == [];
    } else {
      assert (reqs + [req])[1..] == reqs[1..] + [req];
      RunSnoc(Serve(d, reqs[0]).0, reqs[1..], req);
    }
  }

  lemma {:induction false} RunPrefix(d: Disk, reqs: seq<Request>, n: nat)
    requires Runs(d, reqs) && n < |reqs|
    ensures Runs(d, reqs[..n]) && Legal(After(d, reqs[..n]), reqs[n])
    decreases reqs
  {
    if n > 0 {
      assert reqs[..n][1..] == reqs[1..][..n - 1];
      RunPrefix(Serve(d, reqs[0]).0, reqs[1..], n - 1);
    }
  }

  lemma RunNext(d: Disk, reqs: seq<Request>, n: nat)
    requires Runs(d, reqs) && n < |reqs|
    ensures Runs(d, reqs[..n]) && Runs(d, reqs[..n + 1]) && Legal(After(d, reqs[..n]), reqs[n])
    ensures After(d, reqs[..n + 1]) == Serve(After(d, reqs[..n]), reqs[n]).0
    ensures RepliesOf(d, reqs[..n + 1]) == RepliesOf(d, reqs[..n]) + [Serve(After(d, reqs[..n]), reqs[n]).1]
  {
    RunPrefix(d, reqs, n);
    RunSnoc(d, reqs[..n], reqs[n]);
    assert reqs[..n + 1] == reqs[..n] + [reqs[n]];
  }

  /** An empty disk with block 0 reserved. */
  lemma EmptyInv(bs: nat, bits: seq<bool>)
    requires bs > 0 && bs % 4 == 0 && 0 < |bits| < LIMIT
    requires forall b :: 0 <= b < |bits| ==> (bits[b] <==> b == 0)
    ensures Inv(Disk(bs, bits, seq(|bits|, _ => Zeros(bs)), map[]))
  {
  }
}
