/**
 The bitmap does not reserve block 0, and a file without an indirect block has its list read
 from block 0. When growing such a file goes right, and a run in which it does not.
 */
module BlockZero {
  import opened Options
  import opened Bytes
  import opened BlockPointers
  import opened Disk
  import opened DiskInvariant
  import opened FileView

  /** A file without an indirect block is to get one. */
  ghost predicate GetsList(d: Disk, name: string, n: nat) {
    && ShapeSound(d) && ClearAreZero(d) && name in d.fcbs && CanResize(d, name, n)
    && d.blockSize < n && n != d.fcbs[name].size && d.fcbs[name].indirect.None?
    && (d.fcbs[name].direct.Some? ==> d.fcbs[name].direct.value < |d.blocks| && d.bits[d.fcbs[name].direct.value])
  }

  /** As many blocks as the size takes, and the right ones. */
  ghost predicate GrownRight(d: Disk, d': Disk, name: string, n: nat)
    requires name in d.fcbs && d.blockSize > 0
  {
    && name in d'.fcbs && |Data(d', d'.fcbs[name])| == CeilDiv(n, d.blockSize)
    && OwnBlocks(d.bits, d'.bits, d.fcbs[name].direct, Refs(d', d'.fcbs[name]))
  }

  /** No block twice, each the direct one there was or one that was free and is taken now. */
  ghost predicate OwnBlocks(bits: seq<bool>, bits': seq<bool>, direct: Option<nat>, refs: seq<nat>) {
    Distinct(refs) && forall i :: 0 <= i < |refs| ==> Some(refs[i]) == direct || Gained(bits, bits', refs[i])
  }

  ghost predicate Gained(bits: seq<bool>, bits': seq<bool>, b: nat) {
    b < |bits| && !bits[b] && b < |bits'| && bits'[b]
  }

  /** What the file gains: perhaps a direct block, an indirect block, and the rest of its list. */
  lemma GainedParts(d: Disk, name: string, n: nat)
    returns (direct: nat, indirect: nat, more: seq<nat>, gained: seq<nat>)
    requires GetsList(d, name, n)
    ensures var f, need := d.fcbs[name], CeilDiv(n, d.blockSize) - 1;
            && gained == If(f.direct.None?, direct) + [indirect] + more && Next(d.bits, gained)
            && (f.direct.Some? ==> direct == f.direct.value) && indirect < |d.blocks| &&
               d.blocks[indirect] == Zeros(d.blockSize)
            && |more| == if need > |Listed(d, f)| then need - |Listed(d, f)| else 0
    ensures forall i :: 0 <= i < |gained| ==> gained[i] < |d.bits| && !d.bits[gained[i]]
    ensures Distinct(gained) && Usable(more)
  {
    var f := d.fcbs[name];
    gained := Fresh(d.bits, Demand(d, f, n, |Listed(d, f)|));
    direct := if f.direct.None? then gained[0] else f.direct.value;
    var rest := if f.direct.None? then gained[1..] else gained;
    indirect, more := rest[0], rest[1..];
    assert gained == If(f.direct.None?, direct) + [indirect] + more;
    FirstIsLowest(d.bits, |gained|);
    forall i | 0 <= i < |more| ensures 0 < more[i] < LIMIT {
      assert more[i] == gained[i + |gained| - |more|];
    }
  }

  lemma FirstIsLowest(bits: seq<bool>, n: nat)
    requires 0 < n <= FreeCount(bits)
    ensures forall i :: 0 < i < n ==> Fresh(bits, n)[i] > 0
  {
    var b, next := FreshHead(bits, n);
    assert forall i :: 0 < i < n ==> Fresh(bits, n)[i] != Fresh(bits, n)[0];
  }

  /** The list the file ends up with. */
  function NewList(list: seq<nat>, more: seq<nat>, need: nat): seq<nat> {
    if need > |list| then list + more else if need < |list| then list[..need] else []
  }

  lemma RelistedReads(d: Disk, indirect: nat, list: seq<nat>, more: seq<nat>, need: nat)
    requires indirect < |d.blocks| && d.blocks[indirect] == Zeros(d.blockSize) && 4 * need <= d.blockSize
    requires |more| == (if need > |list| then need - |list| else 0) && Usable(list) && Usable(more)
    ensures var d' := Relisted(d, indirect, list, more, need);
            && d'.blockSize == d.blockSize && |d'.blocks| == |d.blocks| &&
               IsList(d'.blocks[indirect], NewList(list, more, need))
            && |d'.bits| == |d.bits| && (forall b :: 0 <= b < |d.bits| && d'.bits[b] ==> d.bits[b]) &&
               (list == [] ==> d'.bits == d.bits)
  {
    var ptrs := NewList(list, more, need);
    assert EncodeAll([]) + Zeros(d.blockSize) == Zeros(d.blockSize);
    PutGivesList(Zeros(d.blockSize), [], ptrs);
    assert PutPtrs(Zeros(d.blockSize), []) == Zeros(d.blockSize);
  }

  /** The file's blocks after it grew, `need` being the length its list should have. */
  lemma NewListIsRead(d: Disk, name: string, n: nat, list: seq<nat>, need: nat, direct: nat, indirect: nat,
    more: seq<nat>, gained: seq<nat>)
    returns (d': Disk, ptrs: seq<nat>)
    requires GetsList(d, name, n) && list == Listed(d, d.fcbs[name]) && need == CeilDiv(n, d.blockSize) - 1
    requires gained == If(d.fcbs[name].direct.None?, direct) + [indirect] + more && Next(d.bits, gained)
    requires (d.fcbs[name].direct.Some? ==> direct == d.fcbs[name].direct.value) && indirect < |d.blocks| &&
             d.blocks[indirect] == Zeros(d.blockSize)
    requires |more| == (if need > |list| then need - |list| else 0) && Usable(more)
    ensures d' == Resize(d, name, n) && ptrs == NewList(list, more, need)
    ensures name in d'.fcbs && Data(d', d'.fcbs[name]) == [direct] + ptrs &&
            Refs(d', d'.fcbs[name]) == [direct] + ptrs + [indirect]
    ensures |d'.bits| == |d.bits| && need >= 1
    ensures forall b :: 0 <= b < |d.bits| && d'.bits[b] ==> Take(d.bits, gained)[b]
    ensures list == [] ==> d'.bits == Take(d.bits, gained)
  {
    var f := d.fcbs[name];
    d', ptrs := Resize(d, name, n), NewList(list, more, need);
    NeedFits(d.blockSize, n);
    GetPtrsLength(d.blocks[0]);
    CeilDivFacts(d.blockSize, n);
    SpreadIs(d, name, f, n, need, list, direct, indirect, more, gained);
    RelistedReads(d.(bits := Take(d.bits, gained)), indirect, list, more, need);
    ListIsRead(d', d'.fcbs[name], ptrs);
  }

  lemma GainedAreOwn(bits: seq<bool>, old': Option<nat>, direct: nat, indirect: nat, more: seq<nat>, gained: seq<nat>)
    requires gained == If(old'.None?, direct) + [indirect] + more && Distinct(gained)
    requires forall i :: 0 <= i < |gained| ==> gained[i] < |bits| && !bits[gained[i]]
    requires old'.Some? ==> direct == old'.value < |bits| && bits[direct]
    ensures OwnBlocks(bits, Take(bits, gained), old', [direct] + more + [indirect])
  {
    PartsDistinct(old'.None?, true, direct, indirect, [], more);
    var refs := [direct] + more + [indirect];
    assert refs == [direct] + [] + more + [indirect];
    forall i | 0 <= i < |refs| ensures Some(refs[i]) == old' || Gained(bits, Take(bits, gained), refs[i]) {
      assert refs[i] in [direct] + [] + more + [indirect];
    }
  }

  lemma GoesRight(d: Disk, name: string, n: nat)
    requires GetsList(d, name, n) && Listed(d, d.fcbs[name]) == []
    ensures GrownRight(d, Resize(d, name, n), name, n)
  {
    var direct, indirect, more, gained := GainedParts(d, name, n);
    var d', ptrs := NewListIsRead(d, name, n, [], CeilDiv(n, d.blockSize) - 1, direct, indirect, more, gained);
    assert ptrs == more;
    GainedAreOwn(d.bits, d.fcbs[name].direct, direct, indirect, more, gained);
  }

  /** A number read from block 0 is neither the old direct block nor one gained once. */
  lemma StrayIsNotOwn(bits: seq<bool>, bits': seq<bool>, old': Option<nat>, direct: nat, indirect: nat, list: seq<nat>,
    more: seq<nat>, need: nat, gained: seq<nat>)
    requires gained == If(old'.None?, direct) + [indirect] + more && (old'.Some? ==> direct == old'.value)
    requires |bits'| == |bits| && forall b :: 0 <= b < |bits| && bits'[b] ==> Take(bits, gained)[b]
    requires list != [] && need >= 1 && need != |list| && |more| == if need > |list| then need - |list| else 0
    ensures !OwnBlocks(bits, bits', old', [direct] + NewList(list, more, need) + [indirect])
  {
    var refs := [direct] + NewList(list, more, need) + [indirect];
    assert refs[1] == list[0] && refs[0] == direct && refs[|refs| - 1] == indirect;
    if list[0] in more {
      var k :| 0 <= k < |more| && more[k] == list[0];
      assert refs[1 + |list| + k] == more[k];
    }
  }

  lemma StrayPointer(d: Disk, name: string, n: nat)
    requires GetsList(d, name, n) && Listed(d, d.fcbs[name]) != []
    ensures !GrownRight(d, Resize(d, name, n), name, n)
  {
    var direct, indirect, more, gained := GainedParts(d, name, n);
    var list, need := Listed(d, d.fcbs[name]), CeilDiv(n, d.blockSize) - 1;
    var d', ptrs := NewListIsRead(d, name, n, list, need, direct, indirect, more, gained);
    if need != |list| {
      StrayIsNotOwn(d.bits, d'.bits, d.fcbs[name].direct, direct, indirect, list, more, need, gained);
    }
  }

  /** Growing goes right exactly when block 0, read in place of the absent indirect block, is zero. */
  lemma GrowsRightIff(d: Disk, name: string, n: nat)
    requires GetsList(d, name, n)
    ensures GrownRight(d, Resize(d, name, n), name, n) <==> d.blocks[0] == Zeros(d.blockSize)
  {
    NoPointersIff(d.blocks[0]);
    if d.blocks[0] == Zeros(d.blockSize) {
      GoesRight(d, name, n);
    } else {
      StrayPointer(d, name, n);
    }
  }

  // ----- a run from an empty disk

  /** Four blocks of four bytes, none taken, and one empty file. */
  function EmptyDisk(): Disk {
    Disk(4, [false, false, false, false], [Zeros(4), Zeros(4), Zeros(4), Zeros(4)], map["a" := Fcb(0, None, None)])
  }

  lemma FirstTruncate()
    ensures CanResize(EmptyDisk(), "a", 1)
    ensures Resize(EmptyDisk(), "a", 1)
         == EmptyDisk().(bits := [true, false, false, false], fcbs := map["a" := Fcb(1, Some(0), None)])
  {
    var d := EmptyDisk();
    NoPointersIff(Zeros(4));
    assert FirstFree(d.bits, 0) == 0;
    SomeFree(d.bits);
    var b, next := FreshHead(d.bits, 1);
    assert Fresh(d.bits, 1) == [0];
    assert Take(d.bits, [0]) == [true, false, false, false];
    var taken := d.(bits := Take(d.bits, [0]));
    ReleaseNone(taken);
  }

  /** The first file gets block 0; with one byte written, growing it to two blocks leaves it with one block of bytes. */
  lemma FirstFileLosesBlock()
    ensures CanResize(EmptyDisk(), "a", 1)
    ensures var d1 := Resize(EmptyDisk(), "a", 1);
            && Covers(d1, Data(d1, d1.fcbs["a"]), 0, 1)
            && var d2 := Written(d1, WriteBytes(d1, Data(d1, d1.fcbs["a"]), 0, [97]));
              GetsList(d2, "a", 8) && !GrownRight(d2, Resize(d2, "a", 8), "a", 8)
  {
    FirstTruncate();
    var d1 := EmptyDisk().(bits := [true, false, false, false], fcbs := map["a" := Fcb(1, Some(0), None)]);
    var data := Data(d1, d1.fcbs["a"]);
    assert data == [0];
    assert Flatten(d1.blocks, data) == Zeros(4) + Flatten(d1.blocks, []);
    assert Cell(0, 4) == (0, 0);
    var d2 := Written(d1, WriteBytes(d1, data, 0, [97]));
    assert Zeros(4)[0 := 97] == [97, 0, 0, 0];
    assert WriteBytes(d1, data, 0, []) == d1.blocks;
    assert [97][..0] == [];
    assert d2.blocks == d1.blocks[0 := [97, 0, 0, 0]];
    SecondTruncate(d2);
    GrowsRightIff(d2, "a", 8);
  }

  lemma SecondTruncate(d: Disk)
    requires d == EmptyDisk().(bits := [true, false, false, false],
                               blocks := [[97, 0, 0, 0], Zeros(4), Zeros(4), Zeros(4)],
                               fcbs := map["a" := Fcb(1, Some(0), None)])
    ensures GetsList(d, "a", 8) && d.blocks[0] != Zeros(4)
  {
    var f := d.fcbs["a"];
    assert Listed(d, f) == [97] by {
      assert d.blocks[0][..4] == [97, 0, 0, 0];
      assert GetPtrs(d.blocks[0][4..]) == [];
    }
    assert CeilDiv(8, 4) == 2;
    SomeFree(d.bits);
    assert FirstFree(d.bits, 0) == 1;
    assert d.blocks[0][0] != Zeros(4)[0];
  }
}
