/** What truncating and writing do to the bytes of files. */
module DiskContent {
  import opened Options
  import opened Bytes
  import opened BlockPointers
  import opened Disk
  import opened DiskInvariant

  // ----- flattening

  lemma {:induction false} FlattenLength(d: Disk, data: seq<nat>)
    requires ShapeSound(d) && InRange(d, data)
    ensures |Flatten(d.blocks, data)| == |data| * d.blockSize
  {
    if data != [] {
      FlattenLength(d, data[1..]);
      assert |data| * d.blockSize == d.blockSize + (|data| - 1) * d.blockSize;
    }
  }

  lemma {:induction false} FlattenConcat(blocks: seq<seq<Byte>>, a: seq<nat>, b: seq<nat>)
    ensures Flatten(blocks, a + b) == Flatten(blocks, a) + Flatten(blocks, b)
  {
    if a == [] {
      assert a + b == b;
    } else {
      assert (a + b)[1..] == a[1..] + b;
      FlattenConcat(blocks, a[1..], b);
    }
  }

  lemma {:induction false} FlattenSame(blocks: seq<seq<Byte>>, blocks': seq<seq<Byte>>, data: seq<nat>)
    requires |blocks| == |blocks'|
    requires forall i :: 0 <= i < |data| && data[i] < |blocks| ==> blocks[data[i]] == blocks'[data[i]]
    ensures Flatten(blocks, data) == Flatten(blocks', data)
  {
    if data != [] {
      FlattenSame(blocks, blocks', data[1..]);
    }
  }

  lemma {:induction false} FlattenZeros(d: Disk, data: seq<nat>)
    requires ShapeSound(d) && InRange(d, data)
    requires forall i :: 0 <= i < |data| ==> d.blocks[data[i]] == Zeros(d.blockSize)
    ensures Flatten(d.blocks, data) == Zeros(|data| * d.blockSize)
  {
    if data != [] {
      FlattenZeros(d, data[1..]);
      assert |data| * d.blockSize == d.blockSize + (|data| - 1) * d.blockSize;
    } else {
      assert 0 * d.blockSize == 0;
    }
  }

  // ----- truncating

  /** Kept blocks stay in place with their bytes; blocks added are zero. */
  ghost predicate BytesKept(d: Disk, d': Disk, a: seq<nat>, b: seq<nat>) {
    && |d'.blocks| == |d.blocks| && InRange(d, a) && InRange(d, b)
    && (a <= b || b <= a)
    && (forall i :: 0 <= i < |a| && i < |b| ==> d'.blocks[b[i]] == d.blocks[a[i]])
    && (forall i :: |a| <= i < |b| ==> d'.blocks[b[i]] == Zeros(d.blockSize))
  }

  /** `content` cut or filled up with zeros to `len` bytes. */
  function Resized(content: seq<Byte>, len: nat): (r: seq<Byte>)
    ensures |r| == len
  {
    if len <= |content| then content[..len] else content + Zeros(len - |content|)
  }

  lemma KeptContent(d: Disk, d': Disk, a: seq<nat>, b: seq<nat>)
    requires ShapeSound(d) && ShapeSound(d') && d'.blockSize == d.blockSize && BytesKept(d, d', a, b)
    ensures Flatten(d'.blocks, b) == Resized(Flatten(d.blocks, a), |b| * d.blockSize)
  {
    FlattenLength(d, a);
    FlattenLength(d', b);
    if a <= b {
      var more := b[|a|..];
      assert b == a + more;
      FlattenConcat(d'.blocks, a, more);
      FlattenSame(d.blocks, d'.blocks, a);
      assert forall i :: 0 <= i < |more| ==> more[i] == b[|a| + i];
      FlattenZeros(d', more);
      assert |b| * d.blockSize == |a| * d.blockSize + |more| * d.blockSize;
    } else {
      var gone := a[|b|..];
      assert a == b + gone;
      FlattenConcat(d.blocks, b, gone);
      FlattenSame(d.blocks, d'.blocks, b);
      FlattenLength(d, b);
      FlattenLength(d, gone);
    }
  }

  lemma DataInRange(d: Disk, f: Fcb)
    requires ShapeSound(d) && FileOk(d, f)
    ensures InRange(d, Data(d, f))
  {
    forall i | 0 <= i < |Data(d, f)| ensures Data(d, f)[i] < |d.blocks| {
      assert Refs(d, f)[i] == Data(d, f)[i];
    }
  }

  lemma KeepOneNewBytes(d: Disk, name: string, n: nat)
    requires ShapeOk(d) && ClearAreZero(d) && name in d.fcbs && FileOk(d, d.fcbs[name]) && 0 < n <= d.blockSize
    requires d.fcbs[name].direct.None? && FreeCount(d.bits) > 0
    ensures var f := d.fcbs[name]; var d' := KeepOne(d, name, f, n, Listed(d, f));
            BytesKept(d, d', Data(d, f), Data(d', d'.fcbs[name]))
  {
    var f := d.fcbs[name];
    var d' := KeepOne(d, name, f, n, Listed(d, f));
    var b := Fresh(d.bits, 1)[0];
    FreshIsUnowned(d, name, b);
    assert d'.fcbs[name] == Fcb(n, Some(b), None);
    assert Data(d, f) == [];
    assert Data(d', d'.fcbs[name]) == [b];
    assert d'.blocks[b] == d.blocks[b];
  }

  lemma KeepOneOldBytes(d: Disk, name: string, n: nat)
    requires ShapeOk(d) && name in d.fcbs && FileOk(d, d.fcbs[name]) && 0 < n <= d.blockSize
    requires d.fcbs[name].direct.Some?
    ensures var f := d.fcbs[name]; var d' := KeepOne(d, name, f, n, Listed(d, f));
            BytesKept(d, d', Data(d, f), Data(d', d'.fcbs[name]))
  {
    var f := d.fcbs[name];
    var d' := KeepOne(d, name, f, n, Listed(d, f));
    DataInRange(d, f);
    ListedIsPtrs(d, f);
    var b := f.direct.value;
    assert Data(d, f) == [b] + Ptrs(d, f) && Data(d, f)[0] == b;
    assert d'.fcbs[name] == Fcb(n, Some(b), None);
    assert Data(d', d'.fcbs[name]) == [b];
    assert d'.blocks[b] == d.blocks[b];
  }

  lemma IndirectApart(d: Disk, f: Fcb, i: nat)
    requires ShapeSound(d) && FileOk(d, f) && f.indirect.Some? && i < |Data(d, f)|
    ensures Data(d, f)[i] != f.indirect.value && Data(d, f)[i] < |d.blocks|
  {
    var refs := Refs(d, f);
    assert refs[i] == Data(d, f)[i] && refs[|Data(d, f)|] == f.indirect.value;
  }

  /** A data block a file has beyond those it had was taken, so it was clear and zero. */
  lemma AddedIsZero(d: Disk, d': Disk, name: string, gained: seq<nat>, i: nat)
    requires ShapeOk(d) && ClearAreZero(d) && name in d.fcbs && FileOk(d, d.fcbs[name]) && name in d'.fcbs
    requires ShapeSound(d') && |d'.blocks| == |d.blocks| && FileOk(d', d'.fcbs[name])
    requires d'.fcbs[name].indirect.Some? &&
             (d.fcbs[name].indirect.Some? ==> d.fcbs[name].indirect == d'.fcbs[name].indirect)
    requires Data(d, d.fcbs[name]) <= Data(d', d'.fcbs[name])
    requires forall j :: 0 <= j < |gained| ==> gained[j] < |d.bits| && !d.bits[gained[j]]
    requires forall b :: b in Refs(d', d'.fcbs[name]) ==> b in Refs(d, d.fcbs[name]) || b in gained
    requires |Data(d, d.fcbs[name])| <= i < |Data(d', d'.fcbs[name])|
    ensures var b := Data(d', d'.fcbs[name])[i]; b < |d.blocks| && d.blocks[b] == Zeros(d.blockSize)
  {
    var a, data := Data(d, d.fcbs[name]), Data(d', d'.fcbs[name]);
    var b := data[i];
    IndirectApart(d', d'.fcbs[name], i);
    assert Refs(d', d'.fcbs[name])[i] == b;
    forall j | 0 <= j < |a| ensures a[j] != b {
      assert Refs(d', d'.fcbs[name])[j] == data[j] == a[j];
    }
    assert b !in Refs(d, d.fcbs[name]);
    assert b in gained;
  }

  /** Data blocks are not the indirect block, so rewriting the list leaves them alone. */
  lemma GrownBytes(d: Disk, d': Disk, name: string, gained: seq<nat>)
    requires ShapeOk(d) && ClearAreZero(d) && name in d.fcbs && FileOk(d, d.fcbs[name]) && name in d'.fcbs
    requires ShapeSound(d') && |d'.blocks| == |d.blocks| && d'.blockSize == d.blockSize && FileOk(d', d'.fcbs[name])
    requires d'.fcbs[name].indirect.Some? &&
             (d.fcbs[name].indirect.Some? ==> d.fcbs[name].indirect == d'.fcbs[name].indirect)
    requires forall b :: 0 <= b < |d.blocks| && b != d'.fcbs[name].indirect.value ==> d'.blocks[b] == d.blocks[b]
    requires Data(d, d.fcbs[name]) <= Data(d', d'.fcbs[name])
    requires forall j :: 0 <= j < |gained| ==> gained[j] < |d.bits| && !d.bits[gained[j]]
    requires forall b :: b in Refs(d', d'.fcbs[name]) ==> b in Refs(d, d.fcbs[name]) || b in gained
    ensures BytesKept(d, d', Data(d, d.fcbs[name]), Data(d', d'.fcbs[name]))
  {
    var a, b := Data(d, d.fcbs[name]), Data(d', d'.fcbs[name]);
    DataInRange(d, d.fcbs[name]);
    forall i | 0 <= i < |b| ensures b[i] < |d.blocks| && d'.blocks[b[i]] == d.blocks[b[i]] {
      IndirectApart(d', d'.fcbs[name], i);
    }
    forall i | |a| <= i < |b| ensures d'.blocks[b[i]] == Zeros(d.blockSize) {
      AddedIsZero(d, d', name, gained, i);
    }
  }

  lemma GrowFrame(d: Disk, name: string, n: nat)
    requires Spreads(d, name, n)
    requires CeilDiv(n, d.blockSize) - 1 > |Listed(d, d.fcbs[name])|
    ensures var f, d' := d.fcbs[name], Resize(d, name, n);
            && d'.bits == Take(d.bits, Fresh(d.bits, Demand(d, f, n, |Listed(d, f)|)))
            && d'.fcbs[name].indirect.Some? && (f.indirect.Some? ==> f.indirect == d'.fcbs[name].indirect)
            && |d'.blocks| == |d.blocks|
            && forall b :: 0 <= b < |d.blocks| && b != d'.fcbs[name].indirect.value ==> d'.blocks[b] == d.blocks[b]
  {
  }

  lemma GrowBytes(d: Disk, name: string, n: nat)
    requires Spreads(d, name, n) && ClearAreZero(d)
    requires CeilDiv(n, d.blockSize) - 1 > |Listed(d, d.fcbs[name])|
    requires Keeps(d, Resize(d, name, n), name)
    requires Data(d, d.fcbs[name]) <= Data(Resize(d, name, n), Resize(d, name, n).fcbs[name])
    ensures BytesKept(d, Resize(d, name, n), Data(d, d.fcbs[name]),
            Data(Resize(d, name, n), Resize(d, name, n).fcbs[name]))
  {
    var f, d' := d.fcbs[name], Resize(d, name, n);
    GrowFrame(d, name, n);
    var gained := Fresh(d.bits, Demand(d, f, n, |Listed(d, f)|));
    forall b | b in Refs(d', d'.fcbs[name]) ensures b in Refs(d, f) || b in gained {
      TakenMeans(d', Refs(d', d'.fcbs[name]), b);
    }
    GrownBytes(d, d', name, gained);
  }

  lemma CutBytes(d: Disk, name: string, n: nat)
    requires Spreads(d, name, n)
    requires CeilDiv(n, d.blockSize) - 1 <= |Listed(d, d.fcbs[name])|
    requires Keeps(d, Resize(d, name, n), name)
    requires Data(Resize(d, name, n), Resize(d, name, n).fcbs[name]) <= Data(d, d.fcbs[name])
    ensures BytesKept(d, Resize(d, name, n), Data(d, d.fcbs[name]),
            Data(Resize(d, name, n), Resize(d, name, n).fcbs[name]))
  {
    var f, d' := d.fcbs[name], Resize(d, name, n);
    var a, b := Data(d, f), Data(d', d'.fcbs[name]);
    ListedIsPtrs(d, f);
    CeilDivFacts(d.blockSize, n);
    DataInRange(d, f);
    forall i | 0 <= i < |b| ensures d'.blocks[b[i]] == d.blocks[a[i]] {
      IndirectApart(d, f, i);
      assert Refs(d', d'.fcbs[name])[i] == b[i];
    }
  }

  lemma ResizeKeeps(d: Disk, name: string, n: nat)
    requires Inv(d) && CanResize(d, name, n)
    ensures Keeps(d, Resize(d, name, n), name) || Resize(d, name, n) == d
    ensures var d' := Resize(d, name, n);
            name in d'.fcbs && d'.fcbs[name].size == n &&
              BytesKept(d, d', Data(d, d.fcbs[name]), Data(d', d'.fcbs[name]))
  {
    var f := d.fcbs[name];
    assert FileOk(d, f);
    ListedIsPtrs(d, f);
    DataInRange(d, f);
    if n == f.size {
    } else if n == 0 {
      DropAllKeeps(d, name);
    } else if n <= d.blockSize {
      KeepOneKeeps(d, name, n);
      if f.direct.None? {
        KeepOneNewBytes(d, name, n);
      } else {
        KeepOneOldBytes(d, name, n);
      }
    } else if CeilDiv(n, d.blockSize) - 1 > |Listed(d, f)| {
      GrowKeeps(d, name, n);
      GrowBytes(d, name, n);
    } else {
      if CeilDiv(n, d.blockSize) - 1 < |Listed(d, f)| {
        CutKeeps(d, name, n);
      } else {
        SameCountKeeps(d, name, n);
      }
      CutBytes(d, name, n);
    }
  }

  /** Only this file changed: its size, and its bytes cut or filled up with zeros to whole blocks. */
  ghost predicate Truncated(d: Disk, d': Disk, name: string, n: nat) {
    && d.blockSize > 0 && name in d.fcbs && d'.fcbs.Keys == d.fcbs.Keys && d'.blockSize == d.blockSize
    && d'.fcbs[name].size == n
    && Content(d', name) == Resized(Content(d, name), CeilDiv(n, d.blockSize) * d.blockSize)
    && forall other :: other in d.fcbs && other != name ==>
       d'.fcbs[other] == d.fcbs[other] && Content(d', other) == Content(d, other)
  }

  lemma KeptIsTruncated(d: Disk, d': Disk, name: string, n: nat)
    requires Inv(d) && name in d.fcbs && name in d'.fcbs && (Keeps(d, d', name) || d' == d)
    requires d'.fcbs[name].size == n && BytesKept(d, d', Data(d, d.fcbs[name]), Data(d', d'.fcbs[name]))
    ensures Inv(d') && Truncated(d, d', name, n)
  {
    if d' != d {
      Transition(d, d', name);
    }
    assert FileOk(d', d'.fcbs[name]);
    KeptContent(d, d', Data(d, d.fcbs[name]), Data(d', d'.fcbs[name]));
    forall other | other in d.fcbs && other != name
      ensures d'.fcbs[other] == d.fcbs[other] && Content(d', other) == Content(d, other)
    {
      if d' != d {
        OthersContent(d, d', name, other);
      }
    }
  }

  /**
   Truncating, for any old and new size: ownership is kept, the file's bytes are those it
   had, cut or filled up with zeros to whole blocks, and every other file keeps its bytes.
   */
  lemma ResizeTruncates(d: Disk, name: string, n: nat)
    requires Inv(d) && CanResize(d, name, n)
    ensures Inv(Resize(d, name, n)) && Truncated(d, Resize(d, name, n), name, n)
  {
    ResizeKeeps(d, name, n);
    KeptIsTruncated(d, Resize(d, name, n), name, n);
  }

  lemma OthersContent(d: Disk, d': Disk, name: string, other: string)
    requires Inv(d) && name in d.fcbs && name in d'.fcbs && Changed(d, d', name)
    requires other in d.fcbs && other != name
    ensures d'.fcbs[other] == d.fcbs[other] && Content(d', other) == Content(d, other)
  {
    OthersKeep(d, d', name, other);
    var data := Data(d, d.fcbs[other]);
    assert forall i :: 0 <= i < |data| ==> Refs(d, d.fcbs[other])[i] == data[i];
    FlattenSame(d.blocks, d'.blocks, data);
  }

  // ----- reading and writing

  /** The byte at a position of a file is in the cell of that position. */
  lemma {:induction false} FlattenAt(d: Disk, data: seq<nat>, k: nat)
    requires Covers(d, data, k, 1)
    ensures Flatten(d.blocks, data)[k] == ByteAt(d, data, k)
    decreases data
  {
    CellInRange(d, data, k);
    if k >= d.blockSize {
      FlattenAt(d, data[1..], k - d.blockSize);
    }
  }

  lemma ShownSnoc(s: seq<Byte>, b: Byte)
    ensures Shown(s + [b]) == Shown(s) + [Show(b)]
  {
  }

  /** A read gives the file's bytes, zeros shown as spaces. */
  lemma {:induction false} ReadIsSlice(d: Disk, data: seq<nat>, pos: nat, n: nat)
    requires Covers(d, data, pos, n)
    ensures ReadBytes(d, data, pos, n) == Shown(Flatten(d.blocks, data)[pos..pos + n])
    decreases n
  {
    if n > 0 {
      ReadIsSlice(d, data, pos, n - 1);
      FlattenAt(d, data, pos + n - 1);
      var s := Flatten(d.blocks, data);
      assert s[pos..pos + n] == s[pos..pos + n - 1] + [s[pos + n - 1]];
      ShownSnoc(s[pos..pos + n - 1], s[pos + n - 1]);
    }
  }

  /** Byte by byte: the file's, but a space for a zero. */
  lemma ReadShows(d: Disk, data: seq<nat>, pos: nat, n: nat, i: nat)
    requires Covers(d, data, pos, n) && i < n
    ensures pos + n <= |Flatten(d.blocks, data)|
    ensures var b := Flatten(d.blocks, data)[pos + i]; ReadBytes(d, data, pos, n)[i] == if b == 0 then 32 else b
  {
    ReadIsSlice(d, data, pos, n);
  }

  /** What is read holds no zero byte, so as a C string it is whole. */
  lemma ReadIsText(d: Disk, data: seq<nat>, pos: nat, n: nat)
    requires Covers(d, data, pos, n)
    ensures CString(ReadBytes(d, data, pos, n) + [0]) == ReadBytes(d, data, pos, n)
  {
    ReadIsSlice(d, data, pos, n);
    CStringOfTerminated(ReadBytes(d, data, pos, n));
  }

  /** Only the blocks from the one of the first byte to the one of the last change. */
  lemma {:induction false} WriteTouches(d: Disk, data: seq<nat>, pos: nat, text: seq<Byte>, i: nat)
    requires Covers(d, data, pos, |text|) && Distinct(data) && i < |data| && text != []
    requires i < Cell(pos, d.blockSize).0 || Cell(pos + |text| - 1, d.blockSize).0 < i
    ensures WriteBytes(d, data, pos, text)[data[i]] == d.blocks[data[i]]
    decreases |text|
  {
    var n := |text| - 1;
    CellInRange(d, data, pos + n);
    CellMonotone(pos, pos + n, d.blockSize);
    if n > 0 {
      CellMonotone(pos + n - 1, pos + n, d.blockSize);
      WriteTouches(d, data, pos, text[..n], i);
    }
  }

  lemma {:induction false} CellMonotone(j: nat, k: nat, bs: nat)
    requires bs > 0 && j <= k
    ensures Cell(j, bs).0 <= Cell(k, bs).0
  {
    if j >= bs {
      CellMonotone(j - bs, k - bs, bs);
    }
  }

  lemma ReadNext(d: Disk, data: seq<nat>, pos: nat, n: nat, i: nat, o: nat)
    requires Covers(d, data, pos, n + 1) && Cell(pos + n, d.blockSize) == (i, o) && i < |data|
    ensures data[i] < |d.blocks| && o < |d.blocks[data[i]]|
    ensures ReadBytes(d, data, pos, n + 1) == ReadBytes(d, data, pos, n) + [Show(d.blocks[data[i]][o])]
  {
  }

  lemma {:induction false} SameCell(a: nat, b: nat, bs: nat)
    requires bs > 0 && Cell(a, bs) == Cell(b, bs)
    ensures a == b
  {
    if a >= bs && b >= bs {
      SameCell(a - bs, b - bs, bs);
    }
  }

  /** One byte written to its cell changes that byte of the file and no other. */
  lemma PutIsUpdate(d: Disk, d': Disk, data: seq<nat>, k: nat, v: Byte)
    requires Covers(d, data, k, 1) && Distinct(data) && Cell(k, d.blockSize).0 < |data|
    requires d' == d.(blocks := PutByte(d.blocks, data[Cell(k, d.blockSize).0], Cell(k, d.blockSize).1, v))
    ensures Flatten(d'.blocks, data) == Splice(Flatten(d.blocks, data), k, [v])
  {
    FlattenLength(d, data);
    FlattenLength(d', data);
    forall j | 0 <= j < |Flatten(d.blocks, data)|
      ensures Flatten(d'.blocks, data)[j] == if j == k then v else Flatten(d.blocks, data)[j]
    {
      CellInRange(d, data, j);
      FlattenAt(d, data, j);
      FlattenAt(d', data, j);
      var c, c' := Cell(k, d.blockSize), Cell(j, d.blockSize);
      if j != k && data[c'.0] == data[c.0] && c'.1 == c.1 {
        SameCell(j, k, d.blockSize);
      }
    }
  }

  lemma SpliceSnoc(s: seq<Byte>, pos: nat, text: seq<Byte>)
    requires pos + |text| <= |s| && text != []
    ensures Splice(Splice(s, pos, text[..|text| - 1]), pos + |text| - 1, [text[|text| - 1]]) == Splice(s, pos, text)
  {
  }

  /** Writing replaces exactly the bytes `[pos, pos + |text|)` of the file. */
  lemma {:induction false} WriteIsSplice(d: Disk, data: seq<nat>, pos: nat, text: seq<Byte>)
    requires Covers(d, data, pos, |text|) && Distinct(data)
    ensures Flatten(WriteBytes(d, data, pos, text), data) == Splice(Flatten(d.blocks, data), pos, text)
    decreases |text|
  {
    if text == [] {
      assert Splice(Flatten(d.blocks, data), pos, text) == Flatten(d.blocks, data);
    } else {
      var n := |text| - 1;
      var d1 := d.(blocks := WriteBytes(d, data, pos, text[..n]));
      WriteIsSplice(d, data, pos, text[..n]);
      CellInRange(d, data, pos + n);
      PutIsUpdate(d1, d.(blocks := WriteBytes(d, data, pos, text)), data, pos + n, text[n]);
      SpliceSnoc(Flatten(d.blocks, data), pos, text);
    }
  }

  /** Blocks that are not the file's stay as they are. */
  lemma {:induction false} WriteKeepsOthers(d: Disk, data: seq<nat>, pos: nat, text: seq<Byte>, b: nat)
    requires Covers(d, data, pos, |text|) && b < |d.blocks| && b !in data
    ensures WriteBytes(d, data, pos, text)[b] == d.blocks[b]
    decreases |text|
  {
    if text != [] {
      WriteKeepsOthers(d, data, pos, text[..|text| - 1], b);
      CellInRange(d, data, pos + |text| - 1);
    }
  }
}
