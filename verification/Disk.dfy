/**
 The block filesystem's state by value: the bitmap, the block file cut into blocks and the
 file control blocks, and what truncating, reading and writing do to them.
 */
module Disk {
  import opened Options
  import opened Bytes
  import opened BlockPointers

  /** A pointer that is "" in the control block is None here; the code reads it as 0. */
  datatype Fcb = Fcb(size: int, direct: Option<nat>, indirect: Option<nat>)

  datatype Disk = Disk(blockSize: nat, bits: seq<bool>, blocks: seq<seq<Byte>>, fcbs: map<string, Fcb>)

  function AsInt(p: Option<nat>): nat {
    if p.Some? then p.value else 0
  }

  // ----- who owns which block

  function Ptrs(d: Disk, f: Fcb): seq<nat> {
    if f.indirect.Some? && f.indirect.value < |d.blocks| then GetPtrs(d.blocks[f.indirect.value]) else []
  }

  /** The blocks with the file's bytes, in file order. */
  function Data(d: Disk, f: Fcb): seq<nat> {
    (if f.direct.Some? then [f.direct.value] else []) + Ptrs(d, f)
  }

  /** All blocks of the file. */
  function Refs(d: Disk, f: Fcb): seq<nat> {
    Data(d, f) + (if f.indirect.Some? then [f.indirect.value] else [])
  }

  ghost predicate Disjoint(s: seq<nat>, t: seq<nat>) {
    forall b :: b in s ==> b !in t
  }

  predicate Distinct(s: seq<nat>) {
    forall i, j :: 0 <= i < j < |s| ==> s[i] != s[j]
  }

  function CeilDiv(n: nat, m: nat): nat
    requires m > 0
  {
    (n + m - 1) / m
  }

  // ----- the invariant

  /** Sizes the code can work with. */
  predicate ShapeSound(d: Disk) {
    && d.blockSize > 0 && d.blockSize % 4 == 0
    && |d.bits| == |d.blocks| && 0 < |d.blocks| < LIMIT
    && (forall b :: 0 <= b < |d.blocks| ==> |d.blocks[b]| == d.blockSize)
  }

  /** Block 0 is nobody's and zero: an absent pointer reads as 0. A gained bitmap does not reserve it. */
  ghost predicate ShapeOk(d: Disk) {
    && ShapeSound(d)
    && d.bits[0] && d.blocks[0] == Zeros(d.blockSize)
  }

  ghost predicate BlocksTaken(d: Disk, refs: seq<nat>)
    requires |d.bits| == |d.blocks|
  {
    Distinct(refs) && forall i :: 0 <= i < |refs| ==> 0 < refs[i] < |d.blocks| && d.bits[refs[i]]
  }

  /** The numbers a file of its size has, and an indirect block with its list and nothing else. */
  ghost predicate FileOk(d: Disk, f: Fcb)
    requires d.blockSize > 0 && |d.bits| == |d.blocks|
  {
    && f.size >= 0
    && (f.direct.Some? <==> f.size > 0)
    && (f.indirect.Some? <==> f.size > d.blockSize)
    && |Data(d, f)| == CeilDiv(f.size, d.blockSize)
    && BlocksTaken(d, Refs(d, f))
    && (f.indirect.Some? ==> IsList(d.blocks[f.indirect.value], Ptrs(d, f)))
  }

  ghost predicate IsList(block: seq<Byte>, ptrs: seq<nat>) {
    && Usable(ptrs) && 4 * |ptrs| <= |block|
    && block == EncodeAll(ptrs) + Zeros(|block| - 4 * |ptrs|)
  }

  ghost predicate Owned(d: Disk, b: nat) {
    exists name :: name in d.fcbs && b in Refs(d, d.fcbs[name])
  }

  ghost predicate FilesOk(d: Disk)
    requires ShapeSound(d)
  {
    forall name :: name in d.fcbs ==> FileOk(d, d.fcbs[name])
  }

  /** No block belongs to two files. */
  ghost predicate FilesDisjoint(d: Disk) {
    forall x, y :: x in d.fcbs && y in d.fcbs && x != y ==> Disjoint(Refs(d, d.fcbs[x]), Refs(d, d.fcbs[y]))
  }

  /** Apart from block 0, the bits set are those of blocks files own. */
  ghost predicate SetAreOwned(d: Disk) {
    forall b :: 0 < b < |d.bits| && d.bits[b] ==> Owned(d, b)
  }

  ghost predicate ClearAreZero(d: Disk)
    requires ShapeSound(d)
  {
    forall b :: 0 <= b < |d.bits| && !d.bits[b] ==> d.blocks[b] == Zeros(d.blockSize)
  }

  ghost predicate Inv(d: Disk) {
    ShapeOk(d) && FilesOk(d) && FilesDisjoint(d) && SetAreOwned(d) && ClearAreZero(d)
  }

  // ----- allocating and freeing

  /** The lowest clear bit from `from` on, or -1 (next_bit_position). */
  function FirstFree(bits: seq<bool>, from: nat): (b: int)
    ensures b == -1 || (from <= b < |bits| && !bits[b] && forall i :: from <= i < b ==> bits[i])
    ensures b == -1 ==> forall i :: from <= i < |bits| ==> bits[i]
    decreases |bits| - from
  {
    if from >= |bits| then -1 else if !bits[from] then from else FirstFree(bits, from + 1)
  }

  function FreeCount(bits: seq<bool>): nat {
    if bits == [] then 0 else (if bits[0] then 0 else 1) + FreeCount(bits[1..])
  }

  lemma {:induction false} FreeCountSplit(a: seq<bool>, b: seq<bool>)
    ensures FreeCount(a + b) == FreeCount(a) + FreeCount(b)
  {
    if a == [] {
      assert a + b == b;
    } else {
      assert (a + b)[1..] == a[1..] + b;
      FreeCountSplit(a[1..], b);
    }
  }

  lemma {:induction false} SomeFree(bits: seq<bool>)
    ensures FreeCount(bits) > 0 <==> FirstFree(bits, 0) != -1
  {
    if bits != [] {
      SomeFree(bits[1..]);
      var b := FirstFree(bits[1..], 0);
      if b != -1 {
        assert !bits[b + 1];
      } else {
        assert forall i :: 1 <= i < |bits| ==> bits[i] == bits[1..][i - 1];
      }
    }
  }

  lemma TakeOne(bits: seq<bool>, b: nat)
    requires b < |bits| && !bits[b]
    ensures FreeCount(bits[b := true]) == FreeCount(bits) - 1
  {
    assert bits == bits[..b] + ([false] + bits[b + 1..]);
    assert bits[b := true] == bits[..b] + ([true] + bits[b + 1..]);
    FreeCountSplit(bits[..b], [false] + bits[b + 1..]);
    FreeCountSplit(bits[..b], [true] + bits[b + 1..]);
  }

  /** The next `n` blocks the code will take, in the order it takes them. */
  function Fresh(bits: seq<bool>, n: nat): (s: seq<nat>)
    requires n <= FreeCount(bits)
    ensures |s| == n && (forall i :: 0 <= i < n ==> s[i] < |bits| && !bits[s[i]]) && Distinct(s)
    decreases n
  {
    if n == 0 then []
    else
      SomeFree(bits);
      var b := FirstFree(bits, 0);
      TakeOne(bits, b);
      [b as nat] + Fresh(bits[b := true], n - 1)
  }

  /** These are the next blocks the code takes. */
  ghost predicate Next(bits: seq<bool>, s: seq<nat>) {
    |s| <= FreeCount(bits) && s == Fresh(bits, |s|)
  }

  function Take(bits: seq<bool>, s: seq<nat>): seq<bool> {
    seq(|bits|, b requires 0 <= b < |bits| => bits[b] || b in s)
  }

  /** Zeroes blocks and clears their bits. */
  function Release(d: Disk, s: seq<nat>): Disk {
    d.(bits := seq(|d.bits|, b requires 0 <= b < |d.bits| => d.bits[b] && b !in s),
       blocks := seq(|d.blocks|, b requires 0 <= b < |d.blocks| => if b in s then Zeros(d.blockSize) else d.blocks[b]))
  }

  lemma ReleaseNone(d: Disk)
    requires |d.bits| == |d.blocks|
    ensures Release(d, []) == d
  {
  }

  lemma ReleaseMore(d: Disk, s: seq<nat>, t: seq<nat>)
    ensures Release(Release(d, s), t) == Release(d, s + t)
  {
  }

  lemma ReleaseSame(d: Disk, s: seq<nat>, t: seq<nat>)
    requires forall b :: b in s <==> b in t
    ensures Release(d, s) == Release(d, t)
  {
  }

  lemma TakeNone(bits: seq<bool>)
    ensures Take(bits, []) == bits
  {
  }

  lemma TakeMore(bits: seq<bool>, s: seq<nat>, t: seq<nat>)
    ensures Take(Take(bits, s), t) == Take(bits, s + t)
  {
  }

  /** Taking blocks in two goes takes the same blocks as taking them in one. */
  lemma {:induction false} FreshSplit(bits: seq<bool>, m: nat, n: nat)
    requires m + n <= FreeCount(bits)
    ensures FreeCount(Take(bits, Fresh(bits, m))) == FreeCount(bits) - m
    ensures Fresh(bits, m + n) == Fresh(bits, m) + Fresh(Take(bits, Fresh(bits, m)), n)
    decreases m
  {
    if m == 0 {
      TakeNone(bits);
      assert Fresh(bits, 0) == [] && [] + Fresh(bits, n) == Fresh(bits, n);
    } else {
      var b, next := FreshHead(bits, m);
      FreshSplit(next, m - 1, n);
      FreshJoin(bits, m, n, b, next, Fresh(next, m - 1));
    }
  }

  lemma FreshJoin(bits: seq<bool>, m: nat, n: nat, b: nat, next: seq<bool>, x: seq<nat>)
    requires 0 < m && m + n <= FreeCount(bits) && next == Take(bits, [b]) && b == FirstFree(bits, 0) &&
             next == bits[b := true]
    requires FreeCount(next) == FreeCount(bits) - 1 && x == Fresh(next, m - 1) && Fresh(bits, m) == [b] + x
    requires n <= FreeCount(Take(next, x)) && Fresh(next, m - 1 + n) == x + Fresh(Take(next, x), n)
    ensures Take(bits, [b] + x) == Take(next, x) && Fresh(bits, m + n) == [b] + x + Fresh(Take(next, x), n)
  {
    var y := Fresh(Take(next, x), n);
    var b', next' := FreshHead(bits, m + n);
    TakeMore(bits, [b], x);
    FrontFirst(b, x, y);
  }

  lemma FrontFirst(b: nat, x: seq<nat>, y: seq<nat>)
    ensures [b] + (x + y) == [b] + x + y
  {
  }

  lemma FreshHead(bits: seq<bool>, m: nat) returns (b: nat, next: seq<bool>)
    requires 0 < m <= FreeCount(bits)
    ensures b == FirstFree(bits, 0) && b < |bits| && next == bits[b := true] == Take(bits, [b])
    ensures FreeCount(next) == FreeCount(bits) - 1 && Fresh(bits, m) == [b] + Fresh(next, m - 1)
  {
    SomeFree(bits);
    b := FirstFree(bits, 0);
    TakeOne(bits, b);
    next := bits[b := true];
  }

  lemma FreshNext(bits: seq<bool>, i: nat)
    requires i < FreeCount(bits)
    ensures var now := Take(bits, Fresh(bits, i)); var b := FirstFree(now, 0);
            b != -1 && Fresh(bits, i + 1) == Fresh(bits, i) + [b] && now[b := true] == Take(bits, Fresh(bits, i + 1))
  {
    FreshSplit(bits, i, 1);
    var now := Take(bits, Fresh(bits, i));
    SomeFree(now);
    var b := FirstFree(now, 0);
    assert Fresh(now, 1) == [b];
  }

  lemma NextIsLowest(bits: seq<bool>, gained: seq<nat>, now: seq<bool>)
    requires |gained| < FreeCount(bits) && Next(bits, gained) && now == Take(bits, gained)
    ensures var b := FirstFree(now, 0);
            b != -1 && b < |bits| && Next(bits, gained + [b]) && now[b := true] == Take(bits, gained + [b])
  {
    FreshNext(bits, |gained|);
  }

  // ----- truncating (resize_block)

  /** How many blocks growing to `n` bytes takes. */
  function Demand(d: Disk, f: Fcb, n: nat, listed: nat): nat
    requires d.blockSize > 0
  {
    if n == f.size || n == 0 then 0
    else
      var direct := if f.direct.None? then 1 else 0;
      if n <= d.blockSize then direct
      else
        var need := CeilDiv(n, d.blockSize) - 1;
        direct + (if f.indirect.None? then 1 else 0) + (if need > listed then need - listed else 0)
  }

  function DropAll(d: Disk, name: string, f: Fcb, list: seq<nat>): Disk {
    Release(d, (if f.direct.Some? then [f.direct.value] else [])
               + (if f.indirect.Some? then list + [f.indirect.value] else []))
    .(fcbs := d.fcbs[name := Fcb(0, None, None)])
  }

  function KeepOne(d: Disk, name: string, f: Fcb, n: nat, list: seq<nat>): Disk
    requires f.direct.None? ==> FreeCount(d.bits) > 0
  {
    var gained := if f.direct.None? then Fresh(d.bits, 1) else [];
    var direct := if f.direct.None? then gained[0] else f.direct.value;
    Release(d.(bits := Take(d.bits, gained)), if f.indirect.Some? then list + [f.indirect.value] else [])
    .(fcbs := d.fcbs[name := Fcb(n, Some(direct), None)])
  }

  predicate CanList(d: Disk, ptrs: seq<nat>) {
    (forall i :: 0 <= i < |ptrs| ==> ptrs[i] < LIMIT) && 4 * |ptrs| <= d.blockSize
  }

  /** The list at `indirect` made `need` long: `more` added, or its end given back. */
  function Relisted(d: Disk, indirect: nat, list: seq<nat>, more: seq<nat>, need: nat): Disk
    requires indirect < |d.blocks| && |d.blocks[indirect]| == d.blockSize && 4 * need <= d.blockSize
    requires |more| == (if need > |list| then need - |list| else 0)
    requires forall i :: 0 <= i < |list| ==> list[i] < LIMIT
    requires forall i :: 0 <= i < |more| ==> more[i] < LIMIT
  {
    if need > |list| then d.(blocks := d.blocks[indirect := PutPtrs(d.blocks[indirect], list + more)])
    else if need < |list| then
      var released := Release(d, list[need..]);
      released.(blocks := released.blocks[indirect := PutPtrs(Zeros(d.blockSize), list[..need])])
    else d
  }

  /** The branch for more than one block; `list` is what the indirect pointer led to before. */
  function Spread(d: Disk, name: string, f: Fcb, n: nat, list: seq<nat>): Disk
    requires |d.bits| == |d.blocks| < LIMIT && 0 < d.blockSize < n && n != f.size
    requires Demand(d, f, n, |list|) <= FreeCount(d.bits)
    requires f.indirect.Some? ==> f.indirect.value < |d.blocks|
    requires forall b :: 0 <= b < |d.blocks| ==> |d.blocks[b]| == d.blockSize
    requires 4 * (CeilDiv(n, d.blockSize) - 1) <= d.blockSize
    requires forall i :: 0 <= i < |list| ==> list[i] < LIMIT
  {
    var need := CeilDiv(n, d.blockSize) - 1;
    var gained := Fresh(d.bits, Demand(d, f, n, |list|));
    var direct := if f.direct.None? then gained[0] else f.direct.value;
    var rest := if f.direct.None? then gained[1..] else gained;
    var indirect := if f.indirect.None? then rest[0] else f.indirect.value;
    var more := if f.indirect.None? then rest[1..] else rest;
    Relisted(d.(bits := Take(d.bits, gained)), indirect, list, more, need).(
      fcbs := d.fcbs[name := Fcb(n, Some(direct), Some(indirect))])
  }

  /** Largest size one direct and one indirect block can hold. */
  function MaxSize(blockSize: nat): nat {
    blockSize * (1 + blockSize / 4)
  }

  function Listed(d: Disk, f: Fcb): seq<nat>
    requires |d.blocks| > 0
  {
    if AsInt(f.indirect) < |d.blocks| then GetPtrs(d.blocks[AsInt(f.indirect)]) else []
  }

  predicate CanResize(d: Disk, name: string, n: nat) {
    && |d.blocks| > 0 && d.blockSize > 0 && name in d.fcbs && n <= MaxSize(d.blockSize)
    && (d.fcbs[name].indirect.Some? ==> d.fcbs[name].indirect.value < |d.blocks|)
    && var f := d.fcbs[name]; Demand(d, f, n, |Listed(d, f)|) <= FreeCount(d.bits)
  }

  lemma NeedFits(bs: nat, n: nat)
    requires bs > 0 && bs % 4 == 0 && n <= MaxSize(bs)
    ensures n > 0 ==> 4 * (CeilDiv(n, bs) - 1) <= bs
  {
    if n > 0 {
      assert n + bs - 1 < bs * (2 + bs / 4);
      DivBound(n + bs - 1, bs, 2 + bs / 4);
    }
  }

  lemma DivBound(a: nat, m: nat, q: nat)
    requires m > 0 && a < m * q
    ensures a / m < q
  {
    if a / m >= q {
      MulMonotone(m, q, a / m);
    }
  }

  lemma MulMonotone(m: nat, x: nat, y: nat)
    requires x <= y
    ensures m * x <= m * y
  {
  }

  function Resize(d: Disk, name: string, n: nat): Disk
    requires ShapeSound(d) && CanResize(d, name, n)
  {
    var f := d.fcbs[name];
    var list := Listed(d, f);
    if n == f.size then d
    else if n == 0 then DropAll(d, name, f, list)
    else if n <= d.blockSize then KeepOne(d, name, f, n, list)
    else
      NeedFits(d.blockSize, n);
      GetPtrsLength(d.blocks[AsInt(f.indirect)]);
      Spread(d, name, f, n, list)
  }

  // ----- the bytes of a file

  function Flatten(blocks: seq<seq<Byte>>, data: seq<nat>): seq<Byte> {
    if data == [] then []
    else (if data[0] < |blocks| then blocks[data[0]] else []) + Flatten(blocks, data[1..])
  }

  function Content(d: Disk, name: string): seq<Byte>
    requires name in d.fcbs
  {
    Flatten(d.blocks, Data(d, d.fcbs[name]))
  }

  // ----- reading and writing (iterate_block_file)

  /** Position `k` of a file: which of its blocks, and where in the block. */
  function Cell(k: nat, bs: nat): (c: (nat, nat))
    requires bs > 0
    ensures c.1 < bs
  {
    if k < bs then (0, k) else var c := Cell(k - bs, bs); (c.0 + 1, c.1)
  }

  ghost predicate InRange(d: Disk, data: seq<nat>) {
    forall i :: 0 <= i < |data| ==> data[i] < |d.blocks|
  }

  lemma {:induction false} CellInRange(d: Disk, data: seq<nat>, k: nat)
    requires ShapeSound(d) && InRange(d, data) && k < |Flatten(d.blocks, data)|
    ensures Cell(k, d.blockSize).0 < |data|
    decreases data
  {
    if k >= d.blockSize {
      CellInRange(d, data[1..], k - d.blockSize);
    }
  }

  /** Whether `n` bytes from `pos` on lie in these blocks. */
  ghost predicate Covers(d: Disk, data: seq<nat>, pos: nat, n: nat) {
    ShapeSound(d) && InRange(d, data) && pos + n <= |Flatten(d.blocks, data)|
  }

  function PutByte(blocks: seq<seq<Byte>>, b: nat, o: nat, v: Byte): (r: seq<seq<Byte>>)
    requires b < |blocks| && o < |blocks[b]|
    ensures |r| == |blocks| && forall i :: 0 <= i < |r| ==> |r[i]| == |blocks[i]|
  {
    var block: seq<Byte> := blocks[b][o := v];
    blocks[b := block]
  }

  /** The blocks after writing `text` byte by byte from position `pos` of a file. */
  ghost function WriteBytes(d: Disk, data: seq<nat>, pos: nat, text: seq<Byte>): (r: seq<seq<Byte>>)
    requires Covers(d, data, pos, |text|)
    ensures |r| == |d.blocks| && forall i :: 0 <= i < |r| ==> |r[i]| == d.blockSize
    decreases |text|
  {
    if text == [] then d.blocks
    else
      var n := |text| - 1;
      CellInRange(d, data, pos + n);
      var c := Cell(pos + n, d.blockSize);
      PutByte(WriteBytes(d, data, pos, text[..n]), data[c.0], c.1, text[n])
  }

  /** A zero byte is shown as a space. */
  function Show(b: Byte): Byte {
    if b != 0 then b else 32
  }

  function Shown(s: seq<Byte>): seq<Byte> {
    seq<Byte>(|s|, i requires 0 <= i < |s| => Show(s[i]))
  }

  ghost function ByteAt(d: Disk, data: seq<nat>, k: nat): Byte
    requires Covers(d, data, k, 1)
  {
    CellInRange(d, data, k);
    var c := Cell(k, d.blockSize);
    d.blocks[data[c.0]][c.1]
  }

  ghost function ReadBytes(d: Disk, data: seq<nat>, pos: nat, n: nat): (r: seq<Byte>)
    requires Covers(d, data, pos, n)
    ensures |r| == n
    decreases n
  {
    if n == 0 then [] else ReadBytes(d, data, pos, n - 1) + [Show(ByteAt(d, data, pos + n - 1))]
  }
}
