/** Truncating keeps the ownership invariant and the bytes of the blocks a file keeps. */
module DiskInvariant {
  import opened Options
  import opened Bytes
  import opened BlockPointers
  import opened Disk

  /** What changing one file may do to the rest of the disk. */
  ghost predicate Changed(d: Disk, d': Disk, name: string)
    requires name in d.fcbs && name in d'.fcbs
  {
    var had, has := Refs(d, d.fcbs[name]), Refs(d', d'.fcbs[name]);
    && d'.blockSize == d.blockSize && |d'.bits| == |d.bits| == |d'.blocks| == |d.blocks|
    && d'.fcbs == d.fcbs[name := d'.fcbs[name]]
    && (forall b :: 0 <= b < |d.blocks| ==> |d'.blocks[b]| == d.blockSize)
    && (forall b :: b in has ==> b in had || (b < |d.bits| && !d.bits[b]))
    && (forall b :: 0 <= b < |d.blocks| && b !in had && b !in has ==>
       d'.bits[b] == d.bits[b] && d'.blocks[b] == d.blocks[b])
    && (forall b :: 0 <= b < |d.blocks| && b in had && b !in has ==> !d'.bits[b] && d'.blocks[b] == Zeros(d.blockSize))
  }

  lemma OthersKeep(d: Disk, d': Disk, name: string, other: string)
    requires Inv(d) && name in d.fcbs && name in d'.fcbs && Changed(d, d', name)
    requires other in d.fcbs && other != name
    ensures d'.fcbs[other] == d.fcbs[other]
    ensures Refs(d', d'.fcbs[other]) == Refs(d, d.fcbs[other]) && Data(d', d'.fcbs[other]) == Data(d, d.fcbs[other])
    ensures forall b :: b in Refs(d, d.fcbs[other]) ==>
            b !in Refs(d', d'.fcbs[name]) && d'.bits[b] && d'.blocks[b] == d.blocks[b]
  {
    var f := d.fcbs[other];
    assert FileOk(d, f) && Disjoint(Refs(d, f), Refs(d, d.fcbs[name]));
    forall b | b in Refs(d, f)
      ensures b < |d.blocks| && b !in Refs(d', d'.fcbs[name]) && d'.bits[b] && d'.blocks[b] == d.blocks[b] {
      var i :| 0 <= i < |Refs(d, f)| && Refs(d, f)[i] == b;
      assert d.bits[b];
    }
    if f.indirect.Some? {
      assert Refs(d, f)[|Refs(d, f)| - 1] == f.indirect.value;
    }
  }

  lemma TransitionFiles(d: Disk, d': Disk, name: string)
    requires Inv(d) && name in d.fcbs && name in d'.fcbs && Changed(d, d', name)
    requires ShapeSound(d') && FileOk(d', d'.fcbs[name])
    ensures FilesOk(d')
  {
    forall x | x in d'.fcbs ensures FileOk(d', d'.fcbs[x]) {
      if x != name {
        OtherStaysOk(d, d', name, x);
      }
    }
  }

  lemma OtherStaysOk(d: Disk, d': Disk, name: string, x: string)
    requires Inv(d) && name in d.fcbs && name in d'.fcbs && Changed(d, d', name) && x in d.fcbs && x != name
    ensures FileOk(d', d.fcbs[x])
  {
    OthersKeep(d, d', name, x);
    var f := d.fcbs[x];
    assert FileOk(d, f);
    if f.indirect.Some? {
      assert Refs(d, f)[|Refs(d, f)| - 1] == f.indirect.value;
    }
    forall i | 0 <= i < |Refs(d, f)| ensures d'.bits[Refs(d, f)[i]] {
      assert Refs(d, f)[i] in Refs(d, f);
    }
  }

  lemma TransitionDisjoint(d: Disk, d': Disk, name: string)
    requires Inv(d) && name in d.fcbs && name in d'.fcbs && Changed(d, d', name)
    ensures FilesDisjoint(d')
  {
    forall x, y | x in d'.fcbs && y in d'.fcbs && x != y ensures Disjoint(Refs(d', d'.fcbs[x]), Refs(d', d'.fcbs[y])) {
      if x != name { OthersKeep(d, d', name, x); }
      if y != name { OthersKeep(d, d', name, y); }
      assert Disjoint(Refs(d, d.fcbs[x]), Refs(d, d.fcbs[y]));
    }
  }

  lemma TransitionOwned(d: Disk, d': Disk, name: string)
    requires Inv(d) && name in d.fcbs && name in d'.fcbs && Changed(d, d', name)
    ensures SetAreOwned(d')
  {
    forall b | 0 < b < |d'.bits| && d'.bits[b] ensures Owned(d', b) {
      if b !in Refs(d', d'.fcbs[name]) {
        assert Owned(d, b);
        var x :| x in d.fcbs && b in Refs(d, d.fcbs[x]);
        OthersKeep(d, d', name, x);
      }
    }
  }

  lemma TakenMeans(d: Disk, refs: seq<nat>, b: nat)
    requires |d.bits| == |d.blocks| && BlocksTaken(d, refs)
    ensures b in refs ==> 0 < b < |d.blocks| && d.bits[b]
  {
  }

  lemma TransitionZero(d: Disk, d': Disk, name: string)
    requires Inv(d) && name in d.fcbs && name in d'.fcbs && Changed(d, d', name)
    requires ShapeSound(d') && FileOk(d', d'.fcbs[name])
    ensures ShapeOk(d') && ClearAreZero(d')
  {
    assert FileOk(d, d.fcbs[name]);
    TakenMeans(d', Refs(d', d'.fcbs[name]), 0);
    TakenMeans(d, Refs(d, d.fcbs[name]), 0);
    forall b | 0 <= b < |d'.bits| && !d'.bits[b] ensures d'.blocks[b] == Zeros(d'.blockSize) {
      TakenMeans(d', Refs(d', d'.fcbs[name]), b);
    }
  }

  lemma Transition(d: Disk, d': Disk, name: string)
    requires Inv(d) && name in d.fcbs && name in d'.fcbs && Changed(d, d', name)
    requires ShapeSound(d') && FileOk(d', d'.fcbs[name])
    ensures Inv(d')
  {
    TransitionFiles(d, d', name);
    TransitionDisjoint(d, d', name);
    TransitionOwned(d, d', name);
    TransitionZero(d, d', name);
  }

  // ----- the branches of resize_block

  lemma ListedIsPtrs(d: Disk, f: Fcb)
    requires ShapeOk(d) && FileOk(d, f)
    ensures Listed(d, f) == Ptrs(d, f)
    ensures f.indirect.Some? ==> 0 < f.indirect.value < |d.blocks| && f.indirect.value !in Data(d, f) && f.direct.Some?
    ensures f.direct.Some? ==> f.direct.value !in Ptrs(d, f)
    ensures Distinct(Ptrs(d, f))
  {
    if f.indirect.None? {
      NoPointersIff(d.blocks[0]);
    } else {
      CeilDivFacts(d.blockSize, f.size);
      TakenMeans(d, Refs(d, f), f.indirect.value);
    }
    RefsApart(f.direct, Ptrs(d, f), f.indirect);
  }

  /** A file's blocks are different from each other. */
  lemma RefsApart(direct: Option<nat>, ptrs: seq<nat>, indirect: Option<nat>)
    requires Distinct((if direct.Some? then [direct.value] else []) + ptrs +
                      if indirect.Some? then [indirect.value] else [])
    ensures Distinct(ptrs) && (direct.Some? ==> direct.value !in ptrs)
    ensures indirect.Some? ==> indirect.value !in (if direct.Some? then [direct.value] else []) + ptrs
  {
    var front := if direct.Some? then [direct.value] else [];
    var last := if indirect.Some? then [indirect.value] else [];
    DistinctSplit(front + ptrs, last);
    DistinctSplit(front, ptrs);
    assert direct.Some? ==> direct.value in front;
    assert indirect.Some? ==> indirect.value in last;
  }

  lemma ListedInRange(d: Disk, name: string)
    requires Inv(d) && name in d.fcbs
    ensures var f := d.fcbs[name];
            && (f.direct.Some? ==> f.direct.value < |d.blocks|) && AsInt(f.indirect) < |d.blocks|
            && forall i :: 0 <= i < |Listed(d, f)| ==> Listed(d, f)[i] < |d.blocks|
  {
    var f := d.fcbs[name];
    assert FileOk(d, f);
    ListedIsPtrs(d, f);
    TakenMeans(d, Refs(d, f), AsInt(f.direct));
    forall i | 0 <= i < |Listed(d, f)| ensures Listed(d, f)[i] < |d.blocks| {
      TakenMeans(d, Refs(d, f), Listed(d, f)[i]);
    }
  }

  lemma CeilDivFacts(bs: nat, n: nat)
    requires bs > 0
    ensures CeilDiv(0, bs) == 0
    ensures 0 < n <= bs ==> CeilDiv(n, bs) == 1
    ensures n > bs ==> CeilDiv(n, bs) >= 2
  {
    if n > bs {
      DivAtLeast(n + bs - 1, bs, 2);
    } else if n > 0 {
      DivAtLeast(n + bs - 1, bs, 1);
      DivBound(n + bs - 1, bs, 2);
    }
    DivBound(bs - 1, bs, 1);
  }

  /** Blocks for a size: enough, and with one fewer too few. */
  lemma CeilDivIsLeast(bs: nat, n: nat)
    requires bs > 0
    ensures n <= CeilDiv(n, bs) * bs
    ensures n > 0 ==> CeilDiv(n, bs) > 0 && (CeilDiv(n, bs) - 1) * bs < n
  {
    var q, r := (n + bs - 1) / bs, (n + bs - 1) % bs;
    assert n + bs - 1 == q * bs + r;
    assert (q - 1) * bs == q * bs - bs;
    if n > 0 {
      CeilDivFacts(bs, n);
    }
  }

  lemma DemandIs(d: Disk, f: Fcb, n: nat, listed: nat)
    requires 0 < d.blockSize < n && n != f.size
    ensures CeilDiv(n, d.blockSize) >= 2
    ensures Demand(d, f, n, listed) == (if f.direct.None? then 1 else 0) + (if f.indirect.None? then 1 else 0)
         + (if CeilDiv(n, d.blockSize) - 1 > listed then CeilDiv(n, d.blockSize) - 1 - listed else 0)
  {
    CeilDivFacts(d.blockSize, n);
  }

  lemma DivAtLeast(a: nat, m: nat, q: nat)
    requires m > 0 && a >= m * q
    ensures a / m >= q
  {
    assert a < m * (a / m + 1);
    if a / m + 1 <= q {
      MulMonotone(m, a / m + 1, q);
    }
  }

  /** What Resize must be shown to do; the rest of the disk follows. */
  ghost predicate Keeps(d: Disk, d': Disk, name: string)
    requires name in d.fcbs
  {
    name in d'.fcbs && ShapeSound(d') && Changed(d, d', name) && FileOk(d', d'.fcbs[name])
  }

  lemma FreshIsUnowned(d: Disk, name: string, b: nat)
    requires ShapeOk(d) && name in d.fcbs && FileOk(d, d.fcbs[name]) && ClearAreZero(d) && b < |d.bits| && !d.bits[b]
    ensures b > 0 && b !in Refs(d, d.fcbs[name]) && d.blocks[b] == Zeros(d.blockSize)
  {
    TakenMeans(d, Refs(d, d.fcbs[name]), b);
  }

  /** Taking `gained` and giving back `gone`, no more and no less than the file gains and loses. */
  lemma ReleaseChanges(d: Disk, d': Disk, name: string, had: seq<nat>, has: seq<nat>, gained: seq<nat>, gone: seq<nat>)
    requires ShapeSound(d) && name in d.fcbs && name in d'.fcbs
    requires d' == Release(d.(bits := Take(d.bits, gained)), gone).(fcbs := d.fcbs[name := d'.fcbs[name]])
    requires had == Refs(d, d.fcbs[name]) && has == Refs(d', d'.fcbs[name])
    requires forall b :: b in gone <==> b in had && b !in has
    requires forall b :: b in gained ==> b in has
    requires forall b :: b in has ==> b in had || (b < |d.bits| && !d.bits[b])
    ensures Changed(d, d', name) && ShapeSound(d')
  {
  }

  lemma DropAllReleases(d: Disk, name: string)
    requires ShapeOk(d) && name in d.fcbs && FileOk(d, d.fcbs[name])
    ensures DropAll(d, name, d.fcbs[name], Listed(d, d.fcbs[name]))
         == Release(d.(bits := Take(d.bits, [])), Refs(d, d.fcbs[name])).(fcbs := d.fcbs[name := Fcb(0, None, None)])
  {
    var f := d.fcbs[name];
    ListedIsPtrs(d, f);
    var gone := (if f.direct.Some? then [f.direct.value] else []) +
                (if f.indirect.Some? then Listed(d, f) + [f.indirect.value] else []);
    assert gone == Refs(d, f) && Take(d.bits, []) == d.bits;
  }

  lemma DropAllKeeps(d: Disk, name: string)
    requires ShapeOk(d) && name in d.fcbs && FileOk(d, d.fcbs[name])
    ensures Keeps(d, DropAll(d, name, d.fcbs[name], Listed(d, d.fcbs[name])), name)
  {
    var f := d.fcbs[name];
    DropAllReleases(d, name);
    CeilDivFacts(d.blockSize, 0);
    var d' := DropAll(d, name, f, Listed(d, f));
    ReleaseChanges(d, d', name, Refs(d, f), [], [], Refs(d, f));
  }

  /** A file of at most one block with its one block taken. */
  lemma OneBlockOk(d: Disk, n: nat, b: nat)
    requires ShapeSound(d) && 0 < n <= d.blockSize && 0 < b < |d.bits| && d.bits[b]
    ensures FileOk(d, Fcb(n, Some(b), None)) && Refs(d, Fcb(n, Some(b), None)) == [b]
  {
    CeilDivFacts(d.blockSize, n);
    assert Refs(d, Fcb(n, Some(b), None)) == [b];
  }

  lemma KeepOneNew(d: Disk, name: string, n: nat)
    requires Inv(d) && name in d.fcbs && 0 < n <= d.blockSize
    requires d.fcbs[name].direct.None? && FreeCount(d.bits) > 0
    ensures Keeps(d, KeepOne(d, name, d.fcbs[name], n, Listed(d, d.fcbs[name])), name)
  {
    var f := d.fcbs[name];
    assert FileOk(d, f);
    var b := Fresh(d.bits, 1)[0];
    assert Fresh(d.bits, 1) == [b];
    FreshIsUnowned(d, name, b);
    var d' := KeepOne(d, name, f, n, Listed(d, f));
    OneBlockOk(d', n, b);
    assert Refs(d, f) == [];
    ReleaseChanges(d, d', name, [], [b], [b], []);
  }

  lemma KeepOneOld(d: Disk, name: string, n: nat)
    requires ShapeOk(d) && name in d.fcbs && FileOk(d, d.fcbs[name]) && 0 < n <= d.blockSize
    requires d.fcbs[name].direct.Some?
    ensures Keeps(d, KeepOne(d, name, d.fcbs[name], n, Listed(d, d.fcbs[name])), name)
  {
    var f := d.fcbs[name];
    ListedIsPtrs(d, f);
    var b := f.direct.value;
    var gone := if f.indirect.Some? then Listed(d, f) + [f.indirect.value] else [];
    var d' := KeepOne(d, name, f, n, Listed(d, f));
    assert Refs(d, f) == [b] + gone;
    TakenMeans(d, Refs(d, f), b);
    assert b !in gone;
    assert Take(d.bits, []) == d.bits;
    assert d' == Release(d.(bits := Take(d.bits, [])), gone).(fcbs := d.fcbs[name := Fcb(n, Some(b), None)]);
    OneBlockOk(d', n, b);
    ReleaseChanges(d, d', name, [b] + gone, [b], [], gone);
  }

  lemma KeepOneKeeps(d: Disk, name: string, n: nat)
    requires Inv(d) && name in d.fcbs && 0 < n <= d.blockSize
    requires d.fcbs[name].direct.None? ==> FreeCount(d.bits) > 0
    ensures Keeps(d, KeepOne(d, name, d.fcbs[name], n, Listed(d, d.fcbs[name])), name)
  {
    if d.fcbs[name].direct.None? {
      KeepOneNew(d, name, n);
    } else {
      KeepOneOld(d, name, n);
    }
  }

  // ----- more than one block

  lemma DistinctSplit(a: seq<nat>, b: seq<nat>)
    requires Distinct(a + b)
    ensures Distinct(a) && Distinct(b) && Disjoint(a, b)
  {
    var s := a + b;
    assert forall i :: 0 <= i < |a| ==> s[i] == a[i];
    assert forall i :: 0 <= i < |b| ==> s[|a| + i] == b[i];
  }

  lemma DistinctJoin(a: seq<nat>, b: seq<nat>, c: seq<nat>)
    requires Distinct(a) && Distinct(b) && Distinct(c) && Disjoint(a, b) && Disjoint(a, c) && Disjoint(b, c)
    ensures Distinct(a + b + c)
  {
    var s := a + b + c;
    forall i, j | 0 <= i < j < |s| ensures s[i] != s[j] {
      assert i < |a| ==> s[i] in a;
      assert |a| <= i < |a| + |b| ==> s[i] in b;
      assert |a| <= j < |a| + |b| ==> s[j] in b;
      assert |a| + |b| <= j ==> s[j] in c;
      assert |a| + |b| <= i ==> s[i] == c[i - |a| - |b|];
    }
  }

  lemma PutGivesList(block: seq<Byte>, before: seq<nat>, ptrs: seq<nat>)
    requires IsList(block, before) && |before| <= |ptrs| && Usable(ptrs) && 4 * |ptrs| <= |block|
    ensures IsList(PutPtrs(block, ptrs), ptrs)
  {
    assert block[4 * |ptrs|..] == Zeros(|block| - 4 * |ptrs|);
  }

  lemma ListIsRead(d: Disk, f: Fcb, ptrs: seq<nat>)
    requires f.indirect.Some? && f.indirect.value < |d.blocks| && IsList(d.blocks[f.indirect.value], ptrs)
    requires |d.blocks[f.indirect.value]| % 4 == 0
    ensures Ptrs(d, f) == ptrs
  {
    GetAfterPut(ptrs, |d.blocks[f.indirect.value]| - 4 * |ptrs|);
  }

  function If(c: bool, b: nat): seq<nat> {
    if c then [b] else []
  }

  /** Spread from its parts, gained in the order direct, indirect, list. */
  lemma SpreadIs(d: Disk, name: string, f: Fcb, n: nat, need: nat, list: seq<nat>,
    direct: nat, indirect: nat, more: seq<nat>, gained: seq<nat>)
    requires ShapeSound(d) && d.blockSize < n && n != f.size
    requires need == CeilDiv(n, d.blockSize) - 1 && 4 * need <= d.blockSize
    requires Demand(d, f, n, |list|) <= FreeCount(d.bits)
    requires forall i :: 0 <= i < |list| ==> list[i] < LIMIT
    requires forall i :: 0 <= i < |more| ==> more[i] < LIMIT
    requires (f.direct.Some? ==> direct == f.direct.value) && (f.indirect.Some? ==> indirect == f.indirect.value) &&
             indirect < |d.blocks|
    requires gained == If(f.direct.None?, direct) + If(f.indirect.None?, indirect) + more && Next(d.bits, gained)
    requires |more| == if need > |list| then need - |list| else 0
    ensures Spread(d, name, f, n, list)
         == Relisted(d.(bits := Take(d.bits, gained)), indirect, list, more, need)
            .(fcbs := d.fcbs[name := Fcb(n, Some(direct), Some(indirect))])
  {
    assert |gained| == Demand(d, f, n, |list|);
    Unpack(f.direct.None?, f.indirect.None?, direct, indirect, more);
  }

  lemma Unpack(a: bool, b: bool, x: nat, y: nat, more: seq<nat>)
    ensures var all := If(a, x) + If(b, y) + more; var rest := if a then all[1..] else all;
            rest == If(b, y) + more && (a ==> all[0] == x) && (b ==> rest[0] == y) &&
              (if b then rest[1..] else rest) == more
  {
    var all := If(a, x) + If(b, y) + more;
    assert (if a then all[1..] else all) == If(b, y) + more;
  }

  /** A growing file's blocks: `had` and `gained` together, its list at the end. */
  lemma PartsDistinct(newDirect: bool, newIndirect: bool, direct: nat, indirect: nat, list: seq<nat>, more: seq<nat>)
    requires Distinct(If(!newDirect, direct) + list + If(!newIndirect, indirect))
    requires Distinct(If(newDirect, direct) + If(newIndirect, indirect) + more)
    requires Disjoint(If(!newDirect, direct) + list + If(!newIndirect, indirect),
             If(newDirect, direct) + If(newIndirect, indirect) + more)
    ensures Distinct([direct] + list + more + [indirect])
    ensures forall b :: b in [direct] + list + more + [indirect] <==>
              b in If(!newDirect, direct) + list + If(!newIndirect, indirect) ||
                b in If(newDirect, direct) + If(newIndirect, indirect) + more
  {
    var had, gained := If(!newDirect, direct) + list + If(!newIndirect, indirect),
      If(newDirect, direct) + If(newIndirect, indirect) + more;
    forall b ensures b in [direct] + list + more + [indirect] <==> b in had || b in gained {}
    DistinctSplit(If(!newDirect, direct) + list, If(!newIndirect, indirect));
    DistinctSplit(If(!newDirect, direct), list);
    DistinctSplit(If(newDirect, direct) + If(newIndirect, indirect), more);
    DistinctSplit(If(newDirect, direct), If(newIndirect, indirect));
    assert forall b :: b in list ==> b in had;
    assert forall b :: b in more ==> b in gained;
    assert direct in if newDirect then gained else had;
    assert indirect in if newIndirect then gained else had;
    assert direct !in list && direct !in more && indirect !in list && indirect !in more;
    assert direct != indirect;
    assert Distinct([direct] + list);
    DistinctJoin([direct] + list, more, [indirect]);
  }

  /** What a growing file will own: what it had, then what it gains, in the order the code takes it. */
  lemma Parts(d: Disk, f: Fcb, n: nat, gained: seq<nat>) returns (direct: nat, indirect: nat, more: seq<nat>)
    requires ShapeOk(d) && FileOk(d, f) && n > d.blockSize && n != f.size
    requires Distinct(gained) && forall i :: 0 <= i < |gained| ==> gained[i] < |d.bits| && !d.bits[gained[i]]
    requires |gained| == Demand(d, f, n, |Listed(d, f)|)
    ensures direct == if f.direct.None? then gained[0] else f.direct.value
    ensures var rest := if f.direct.None? then gained[1..] else gained;
            indirect == (if f.indirect.None? then rest[0] else f.indirect.value) &&
              more == if f.indirect.None? then rest[1..] else rest
    ensures Distinct([direct] + Ptrs(d, f) + more + [indirect])
    ensures forall b :: b in [direct] + Ptrs(d, f) + more + [indirect] <==> b in Refs(d, f) || b in gained
  {
    ListedIsPtrs(d, f);
    direct, indirect, more := TakeApart(gained, f.direct, f.indirect);
    assert Refs(d, f) == If(f.direct.Some?, direct) + Ptrs(d, f) + If(f.indirect.Some?, indirect);
    forall b | b in gained ensures b !in Refs(d, f) {
      TakenMeans(d, Refs(d, f), b);
    }
    PartsDistinct(f.direct.None?, f.indirect.None?, direct, indirect, Ptrs(d, f), more);
  }

  /** Direct, indirect and further blocks, from the front of what was gained where a pointer is missing. */
  lemma TakeApart(gained: seq<nat>, had: Option<nat>, hadIndirect: Option<nat>)
    returns (direct: nat, indirect: nat, more: seq<nat>)
    requires |gained| >= (if had.None? then 1 else 0) + (if hadIndirect.None? then 1 else 0)
    ensures gained == If(had.None?, direct) + If(hadIndirect.None?, indirect) + more
    ensures direct == if had.None? then gained[0] else had.value
    ensures var rest := if had.None? then gained[1..] else gained;
            indirect == (if hadIndirect.None? then rest[0] else hadIndirect.value) &&
              more == if hadIndirect.None? then rest[1..] else rest
  {
    direct := if had.None? then gained[0] else had.value;
    var rest := if had.None? then gained[1..] else gained;
    indirect := if hadIndirect.None? then rest[0] else hadIndirect.value;
    more := if hadIndirect.None? then rest[1..] else rest;
  }

  /** A file with its list in place. */
  lemma ListedFileOk(d: Disk, n: nat, direct: nat, indirect: nat, ptrs: seq<nat>)
    requires ShapeSound(d) && n > d.blockSize && indirect < |d.blocks|
    requires IsList(d.blocks[indirect], ptrs) && |ptrs| + 1 == CeilDiv(n, d.blockSize)
    requires BlocksTaken(d, [direct] + ptrs + [indirect])
    ensures FileOk(d, Fcb(n, Some(direct), Some(indirect)))
    ensures Ptrs(d, Fcb(n, Some(direct), Some(indirect))) == ptrs
    ensures Refs(d, Fcb(n, Some(direct), Some(indirect))) == [direct] + ptrs + [indirect]
  {
    ListIsRead(d, Fcb(n, Some(direct), Some(indirect)), ptrs);
  }

  ghost predicate Spreads(d: Disk, name: string, n: nat)
  {
    && ShapeOk(d) && name in d.fcbs && FileOk(d, d.fcbs[name])
    && d.blockSize < n <= MaxSize(d.blockSize) && n != d.fcbs[name].size && CanResize(d, name, n)
  }

  lemma GrownTaken(d: Disk, f: Fcb, gained: seq<nat>, refs: seq<nat>)
    requires ShapeOk(d) && BlocksTaken(d, Refs(d, f)) && Distinct(refs)
    requires forall i :: 0 <= i < |gained| ==> gained[i] < |d.bits| && !d.bits[gained[i]]
    requires forall i :: 0 <= i < |refs| ==> refs[i] in Refs(d, f) || refs[i] in gained
    ensures BlocksTaken(d.(bits := Take(d.bits, gained)), refs)
  {
    forall i | 0 <= i < |refs| ensures 0 < refs[i] < |d.blocks| && Take(d.bits, gained)[refs[i]] {
      TakenMeans(d, Refs(d, f), refs[i]);
    }
  }

  /** Before it grows, the list of a file is what its (perhaps new, then zero) indirect block holds. */
  lemma ListBefore(d: Disk, f: Fcb, indirect: nat)
    requires ShapeOk(d) && FileOk(d, f) && indirect < |d.blocks|
    requires if f.indirect.Some? then indirect == f.indirect.value else d.blocks[indirect] == Zeros(d.blockSize)
    ensures IsList(d.blocks[indirect], Ptrs(d, f))
  {
    assert EncodeAll([]) + Zeros(d.blockSize) == Zeros(d.blockSize);
  }

  lemma UsableParts(d: Disk, direct: nat, ptrs: seq<nat>, indirect: nat)
    requires |d.bits| == |d.blocks| < LIMIT && BlocksTaken(d, [direct] + ptrs + [indirect])
    ensures Usable(ptrs) && 0 < direct < |d.blocks| && 0 < indirect < |d.blocks|
  {
    var refs := [direct] + ptrs + [indirect];
    assert refs[0] == direct && refs[|ptrs| + 1] == indirect;
    forall i | 0 <= i < |ptrs| ensures 0 < ptrs[i] < LIMIT {
      assert refs[i + 1] == ptrs[i];
    }
  }

  /** The disk after a file got a longer list. */
  function Grown(d: Disk, name: string, n: nat, direct: nat, indirect: nat, ptrs: seq<nat>, gained: seq<nat>): Disk
    requires indirect < |d.blocks| && CanList(d, ptrs) && |d.blocks[indirect]| == d.blockSize
  {
    d.(bits := Take(d.bits, gained), blocks := d.blocks[indirect := PutPtrs(d.blocks[indirect], ptrs)],
       fcbs := d.fcbs[name := Fcb(n, Some(direct), Some(indirect))])
  }

  lemma GrownFileOk(d: Disk, name: string, n: nat, direct: nat, indirect: nat, ptrs: seq<nat>, gained: seq<nat>)
    requires ShapeOk(d) && name in d.fcbs && FileOk(d, d.fcbs[name])
    requires d.blockSize < n <= MaxSize(d.blockSize) && |ptrs| + 1 == CeilDiv(n, d.blockSize)
    requires |Ptrs(d, d.fcbs[name])| <= |ptrs|
    requires BlocksTaken(d.(bits := Take(d.bits, gained)), [direct] + ptrs + [indirect])
    requires indirect < |d.blocks| && IsList(d.blocks[indirect], Ptrs(d, d.fcbs[name]))
    ensures CanList(d, ptrs)
    ensures var d' := Grown(d, name, n, direct, indirect, ptrs, gained); var f' := d'.fcbs[name];
            ShapeSound(d') && FileOk(d', f') && Ptrs(d', f') == ptrs && Refs(d', f') == [direct] + ptrs + [indirect]
  {
    NeedFits(d.blockSize, n);
    UsableParts(d.(bits := Take(d.bits, gained)), direct, ptrs, indirect);
    PutGivesList(d.blocks[indirect], Ptrs(d, d.fcbs[name]), ptrs);
    ListedFileOk(Grown(d, name, n, direct, indirect, ptrs, gained), n, direct, indirect, ptrs);
  }

  lemma GrownChanges(d: Disk, d': Disk, name: string, indirect: nat, gained: seq<nat>)
    requires ShapeSound(d) && ShapeSound(d') && name in d.fcbs && name in d'.fcbs
    requires d'.blockSize == d.blockSize && d'.bits == Take(d.bits, gained) && |d'.blocks| == |d.blocks|
    requires forall b :: 0 <= b < |d.blocks| && b != indirect ==> d'.blocks[b] == d.blocks[b]
    requires d'.fcbs == d.fcbs[name := d'.fcbs[name]] && indirect in Refs(d', d'.fcbs[name])
    requires forall i :: 0 <= i < |gained| ==> gained[i] < |d.bits| && !d.bits[gained[i]]
    requires forall b :: b in Refs(d', d'.fcbs[name]) <==> b in Refs(d, d.fcbs[name]) || b in gained
    ensures Changed(d, d', name)
  {
  }

  lemma GrowIs(d: Disk, name: string, n: nat, direct: nat, indirect: nat, more: seq<nat>, gained: seq<nat>)
    requires Spreads(d, name, n)
    requires CeilDiv(n, d.blockSize) - 1 > |Listed(d, d.fcbs[name])| && Listed(d, d.fcbs[name]) == Ptrs(d, d.fcbs[name])
    requires gained == Fresh(d.bits, Demand(d, d.fcbs[name], n, |Listed(d, d.fcbs[name])|))
    requires var f := d.fcbs[name]; var rest := if f.direct.None? then gained[1..] else gained;
             && direct == (if f.direct.None? then gained[0] else f.direct.value)
             && indirect == (if f.indirect.None? then rest[0] else f.indirect.value)
             && more == if f.indirect.None? then rest[1..] else rest
    requires indirect < |d.blocks| && CanList(d, Ptrs(d, d.fcbs[name]) + more)
    ensures |more| + |Ptrs(d, d.fcbs[name])| + 1 == CeilDiv(n, d.blockSize)
    ensures Resize(d, name, n) == Grown(d, name, n, direct, indirect, Ptrs(d, d.fcbs[name]) + more, gained)
  {
    ListedIsPtrs(d, d.fcbs[name]);
  }

  lemma Regroup(direct: nat, list: seq<nat>, more: seq<nat>, indirect: nat)
    ensures [direct] + list + more + [indirect] == [direct] + (list + more) + [indirect]
    ensures indirect in [direct] + (list + more) + [indirect]
    ensures forall i :: 0 <= i < |list| + |more| + 2 ==>
              ([direct] + (list + more) + [indirect])[i] in [direct] + (list + more) + [indirect]
  {
  }

  lemma GrowKeeps(d: Disk, name: string, n: nat)
    requires Spreads(d, name, n) && ClearAreZero(d)
    requires CeilDiv(n, d.blockSize) - 1 > |Listed(d, d.fcbs[name])|
    ensures Keeps(d, Resize(d, name, n), name)
    ensures Data(d, d.fcbs[name]) <= Data(Resize(d, name, n), Resize(d, name, n).fcbs[name])
  {
    var f := d.fcbs[name];
    ListedIsPtrs(d, f);
    var gained := Fresh(d.bits, Demand(d, f, n, |Listed(d, f)|));
    var direct, indirect, more := Parts(d, f, n, gained);
    var ptrs := Ptrs(d, f) + more;
    var refs := [direct] + ptrs + [indirect];
    Regroup(direct, Ptrs(d, f), more, indirect);
    GrownTaken(d, f, gained, refs);
    UsableParts(d.(bits := Take(d.bits, gained)), direct, ptrs, indirect);
    if f.indirect.None? {
      TakenMeans(d, Refs(d, f), indirect);
      assert indirect in gained;
      FreshIsUnowned(d, name, indirect);
    }
    ListBefore(d, f, indirect);
    GrownDone(d, name, n, direct, indirect, more, gained);
  }

  lemma GrownDone(d: Disk, name: string, n: nat, direct: nat, indirect: nat, more: seq<nat>, gained: seq<nat>)
    requires Spreads(d, name, n)
    requires CeilDiv(n, d.blockSize) - 1 > |Listed(d, d.fcbs[name])| && Listed(d, d.fcbs[name]) == Ptrs(d, d.fcbs[name])
    requires gained == Fresh(d.bits, Demand(d, d.fcbs[name], n, |Listed(d, d.fcbs[name])|))
    requires var f := d.fcbs[name]; var rest := if f.direct.None? then gained[1..] else gained;
             && direct == (if f.direct.None? then gained[0] else f.direct.value)
             && indirect == (if f.indirect.None? then rest[0] else f.indirect.value)
             && more == if f.indirect.None? then rest[1..] else rest
    requires indirect < |d.blocks| && IsList(d.blocks[indirect], Ptrs(d, d.fcbs[name]))
    requires BlocksTaken(d.(bits := Take(d.bits, gained)), [direct] + (Ptrs(d, d.fcbs[name]) + more) + [indirect])
    requires forall b :: b in [direct] + (Ptrs(d, d.fcbs[name]) + more) + [indirect] <==>
             b in Refs(d, d.fcbs[name]) || b in gained
    ensures Keeps(d, Resize(d, name, n), name)
    ensures Data(d, d.fcbs[name]) <= Data(Resize(d, name, n), Resize(d, name, n).fcbs[name])
  {
    var f, ptrs := d.fcbs[name], Ptrs(d, d.fcbs[name]) + more;
    ListedIsPtrs(d, f);
    NeedFits(d.blockSize, n);
    UsableParts(d.(bits := Take(d.bits, gained)), direct, ptrs, indirect);
    assert |more| + |Ptrs(d, f)| + 1 == CeilDiv(n, d.blockSize);
    GrowIs(d, name, n, direct, indirect, more, gained);
    GrownFileOk(d, name, n, direct, indirect, ptrs, gained);
    var d' := Grown(d, name, n, direct, indirect, ptrs, gained);
    assert indirect in [direct] + ptrs + [indirect];
    GrownChanges(d, d', name, indirect, gained);
    assert Data(d', d'.fcbs[name]) == [direct] + ptrs;
    assert f.direct.None? ==> Ptrs(d, f) == [];
  }

  /** The disk after a file gave back the end of its list. */
  function Cut(d: Disk, name: string, n: nat, direct: nat, indirect: nat, list: seq<nat>, keep: nat): Disk
    requires indirect < |d.blocks| && keep <= |list| && CanList(d, list[..keep])
  {
    var r := Release(d, list[keep..]);
    r.(blocks := r.blocks[indirect := PutPtrs(Zeros(d.blockSize), list[..keep])],
      fcbs := d.fcbs[name := Fcb(n, Some(direct), Some(indirect))])
  }

  /** The blocks given back are those of the file that it does not keep. */
  lemma CutParts(direct: nat, list: seq<nat>, indirect: nat, keep: nat)
    requires Distinct([direct] + list + [indirect]) && keep <= |list|
    ensures Distinct([direct] + list[..keep] + [indirect])
    ensures forall b :: b in list[keep..] <==>
            b in [direct] + list + [indirect] && b !in [direct] + list[..keep] + [indirect]
  {
    assert [direct] + list + [indirect] == ([direct] + list[..keep]) + (list[keep..] + [indirect]);
    DistinctSplit([direct] + list[..keep], list[keep..] + [indirect]);
    DistinctSplit(list[keep..], [indirect]);
    assert indirect in [indirect] && indirect in list[keep..] + [indirect];
    assert list == list[..keep] + list[keep..];
    forall b
      ensures b in list[keep..] <==> b in [direct] + list + [indirect] && b !in [direct] + list[..keep] + [indirect] {
      assert b in list <==> b in list[..keep] || b in list[keep..];
    }
    DistinctJoin([direct] + list[..keep], [], [indirect]);
    assert [direct] + list[..keep] + [] + [indirect] == [direct] + list[..keep] + [indirect];
  }

  lemma CutFileOk(d: Disk, name: string, n: nat, direct: nat, indirect: nat, list: seq<nat>, keep: nat)
    requires ShapeOk(d) && name in d.fcbs && BlocksTaken(d, [direct] + list + [indirect])
    requires d.blockSize < n && keep + 1 == CeilDiv(n, d.blockSize) && keep <= |list| && 4 * keep <= d.blockSize
    ensures indirect < |d.blocks| && CanList(d, list[..keep])
    ensures var d' := Cut(d, name, n, direct, indirect, list, keep); var f' := d'.fcbs[name];
            ShapeSound(d') && FileOk(d', f') && Refs(d', f') == [direct] + list[..keep] + [indirect]
  {
    UsableParts(d, direct, list, indirect);
    var d' := Cut(d, name, n, direct, indirect, list, keep);
    CutParts(direct, list, indirect, keep);
    var all, refs := [direct] + list + [indirect], [direct] + list[..keep] + [indirect];
    forall i | 0 <= i < |refs| ensures 0 < refs[i] < |d.blocks| && d'.bits[refs[i]] {
      assert refs[i] in refs;
      assert refs[i] == all[if i <= keep then i else |list| + 1];
    }
    assert EncodeAll([]) + Zeros(d.blockSize) == Zeros(d.blockSize);
    PutGivesList(Zeros(d.blockSize), [], list[..keep]);
    ListedFileOk(d', n, direct, indirect, list[..keep]);
  }

  lemma CutChanges(d: Disk, name: string, n: nat, direct: nat, indirect: nat, list: seq<nat>, keep: nat)
    requires ShapeOk(d) && name in d.fcbs && keep <= |list| && indirect < |d.blocks| && CanList(d, list[..keep])
    requires BlocksTaken(d, [direct] + list + [indirect]) && Refs(d, d.fcbs[name]) == [direct] + list + [indirect]
    requires var d' := Cut(d, name, n, direct, indirect, list, keep);
             ShapeSound(d') && Refs(d', d'.fcbs[name]) == [direct] + list[..keep] + [indirect]
    ensures Changed(d, Cut(d, name, n, direct, indirect, list, keep), name)
  {
    CutParts(direct, list, indirect, keep);
    assert indirect in [direct] + list[..keep] + [indirect];
  }

  /** The number of blocks stays: only the size in the control block changes. */
  lemma SameCountSizes(d: Disk, name: string, n: nat)
    requires Spreads(d, name, n)
    requires CeilDiv(n, d.blockSize) - 1 == |Listed(d, d.fcbs[name])|
    ensures Resize(d, name, n) == Sized(d, name, n) && |Listed(d, d.fcbs[name])| == |Ptrs(d, d.fcbs[name])|
  {
    ListedIsPtrs(d, d.fcbs[name]);
    NeedFits(d.blockSize, n);
    SameCountSpreads(d, name, d.fcbs[name], n, Listed(d, d.fcbs[name]));
  }

  lemma SameCountSpreads(d: Disk, name: string, f: Fcb, n: nat, list: seq<nat>)
    requires |d.bits| == |d.blocks| < LIMIT && 0 < d.blockSize < n && n != f.size && f.direct.Some? && f.indirect.Some?
    requires f.indirect.value < |d.blocks| && forall b :: 0 <= b < |d.blocks| ==> |d.blocks[b]| == d.blockSize
    requires CeilDiv(n, d.blockSize) - 1 == |list| && 4 * |list| <= d.blockSize
    requires forall i :: 0 <= i < |list| ==> list[i] < LIMIT
    ensures Demand(d, f, n, |list|) == 0
    ensures Spread(d, name, f, n, list) == d.(fcbs := d.fcbs[name := Fcb(n, f.direct, f.indirect)])
  {
    assert Fresh(d.bits, 0) == [] && Take(d.bits, []) == d.bits;
  }

  function Sized(d: Disk, name: string, n: nat): Disk
    requires name in d.fcbs
  {
    d.(fcbs := d.fcbs[name := d.fcbs[name].(size := n)])
  }

  lemma SizedKeeps(d: Disk, name: string, n: nat)
    requires ShapeOk(d) && name in d.fcbs && FileOk(d, d.fcbs[name]) && n > d.blockSize
    requires CeilDiv(n, d.blockSize) - 1 == |Ptrs(d, d.fcbs[name])|
    ensures Keeps(d, Sized(d, name, n), name)
    ensures Data(Sized(d, name, n), Sized(d, name, n).fcbs[name]) == Data(d, d.fcbs[name])
  {
    CeilDivFacts(d.blockSize, n);
    var d' := Sized(d, name, n);
    assert Refs(d', d'.fcbs[name]) == Refs(d, d.fcbs[name]);
  }

  lemma SameCountKeeps(d: Disk, name: string, n: nat)
    requires Spreads(d, name, n)
    requires CeilDiv(n, d.blockSize) - 1 == |Listed(d, d.fcbs[name])|
    ensures Keeps(d, Resize(d, name, n), name)
    ensures Data(Resize(d, name, n), Resize(d, name, n).fcbs[name]) == Data(d, d.fcbs[name])
  {
    SameCountSizes(d, name, n);
    SizedKeeps(d, name, n);
  }

  lemma CutKeeps(d: Disk, name: string, n: nat)
    requires Spreads(d, name, n)
    requires CeilDiv(n, d.blockSize) - 1 < |Listed(d, d.fcbs[name])|
    ensures Keeps(d, Resize(d, name, n), name)
    ensures Data(Resize(d, name, n), Resize(d, name, n).fcbs[name]) <= Data(d, d.fcbs[name])
  {
    var f := d.fcbs[name];
    var list, keep := Ptrs(d, f), CeilDiv(n, d.blockSize) - 1;
    ListedIsPtrs(d, f);
    NeedFits(d.blockSize, n);
    CeilDivFacts(d.blockSize, n);
    var direct, indirect := f.direct.value, f.indirect.value;
    assert Refs(d, f) == [direct] + list + [indirect];
    assert Fresh(d.bits, 0) == [] && Take(d.bits, []) == d.bits;
    UsableParts(d, direct, list, indirect);
    CutFileOk(d, name, n, direct, indirect, list, keep);
    CutChanges(d, name, n, direct, indirect, list, keep);
    assert Resize(d, name, n) == Cut(d, name, n, direct, indirect, list, keep);
    CutData(d, name, n, direct, indirect, list, keep);
  }

  lemma CutData(d: Disk, name: string, n: nat, direct: nat, indirect: nat, list: seq<nat>, keep: nat)
    requires indirect < |d.blocks| && keep <= |list| && CanList(d, list[..keep])
    requires var d' := Cut(d, name, n, direct, indirect, list, keep);
             Refs(d', d'.fcbs[name]) == [direct] + list[..keep] + [indirect]
    ensures var d' := Cut(d, name, n, direct, indirect, list, keep); Data(d', d'.fcbs[name]) == [direct] + list[..keep]
  {
    var d' := Cut(d, name, n, direct, indirect, list, keep);
    var refs := Refs(d', d'.fcbs[name]);
    assert Data(d', d'.fcbs[name]) == refs[..|refs| - 1];
  }
}
