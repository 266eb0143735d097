/** The block file is one flat byte array; these are the facts about cutting it into blocks. */
module FlatFile {
  import opened Bytes
  import opened BlockPointers
  import opened Disk
  import opened DiskInvariant

  function Window(flat: seq<Byte>, at: nat, len: nat): seq<Byte> {
    if at + len <= |flat| then flat[at..at + len] else []
  }

  function Chop(flat: seq<Byte>, bs: nat, count: nat): seq<seq<Byte>> {
    seq(count, b requires 0 <= b < count => Window(flat, b * bs, bs))
  }

  lemma ProductIsNat(a: nat, b: nat)
    ensures a * b >= 0
  {
  }

  lemma BlockBounds(b: nat, bs: nat, count: nat)
    requires b < count
    ensures b * bs + bs <= count * bs
  {
    MulMonotone(bs, b + 1, count);
    assert (b + 1) * bs == b * bs + bs;
  }

  lemma BlocksApart(b: nat, c: nat, bs: nat)
    requires b != c
    ensures b * bs + bs <= c * bs || c * bs + bs <= b * bs
  {
    if b < c {
      BlockBounds(b, bs, c);
    } else {
      BlockBounds(c, bs, b);
    }
  }

  lemma ChopLengths(flat: seq<Byte>, bs: nat, count: nat)
    requires |flat| == count * bs
    ensures |Chop(flat, bs, count)| == count
    ensures forall b :: 0 <= b < count ==> |Chop(flat, bs, count)[b]| == bs
  {
    forall b | 0 <= b < count ensures |Chop(flat, bs, count)[b]| == bs {
      BlockBounds(b, bs, count);
    }
  }

  lemma OtherWindow(flat: seq<Byte>, flat': seq<Byte>, at: nat, other: nat, len: nat)
    requires |flat| == |flat'| && other + len <= |flat| && (other + len <= at || at + len <= other)
    requires forall a :: 0 <= a < |flat| && !(at <= a < at + len) ==> flat'[a] == flat[a]
    ensures Window(flat', other, len) == Window(flat, other, len)
  {
  }

  /** Changing bytes inside block `b` changes that block and no other. */
  lemma ChopChanged(flat: seq<Byte>, flat': seq<Byte>, bs: nat, count: nat, b: nat, block: seq<Byte>)
    requires |flat| == |flat'| == count * bs && b < count && |block| == bs
    requires forall a :: 0 <= a < |flat| && !(b * bs <= a < b * bs + bs) ==> flat'[a] == flat[a]
    requires Window(flat', b * bs, bs) == block
    ensures Chop(flat', bs, count) == Chop(flat, bs, count)[b := block]
  {
    var x, y := Chop(flat', bs, count), Chop(flat, bs, count)[b := block];
    ProductIsNat(b, bs);
    forall c | 0 <= c < count ensures x[c] == y[c] {
      if c != b {
        ProductIsNat(c, bs);
        BlockBounds(c, bs, count);
        BlocksApart(b, c, bs);
        OtherWindow(flat, flat', b * bs, c * bs, bs);
      }
    }
  }

  lemma ChopPut(flat: seq<Byte>, flat': seq<Byte>, bs: nat, count: nat, b: nat, o: nat, v: Byte)
    requires |flat| == count * bs && b < count && o < bs
    requires b * bs + o < |flat| && flat' == flat[b * bs + o := v]
    requires |Chop(flat, bs, count)[b]| == bs
    ensures Chop(flat', bs, count) == PutByte(Chop(flat, bs, count), b, o, v)
  {
    BlockBounds(b, bs, count);
    var block := Chop(flat, bs, count)[b][o := v];
    assert Window(flat', b * bs, bs) == block;
    ChopChanged(flat, flat', bs, count, b, block);
  }

  /** A position's cell, found the way the loops do: whole blocks passed, and what is left. */
  lemma {:induction false} CellIs(i: nat, o: nat, bs: nat)
    requires o < bs
    ensures Cell(i * bs + o, bs) == (i, o)
    decreases i
  {
    if i > 0 {
      CellIs(i - 1, o, bs);
      assert i * bs == (i - 1) * bs + bs;
    } else {
      assert i * bs == 0;
    }
  }

  lemma DivMod(k: nat, m: nat) returns (q: nat, r: nat)
    requires m > 0
    ensures q == k / m && r == k % m && r < m && k == q * m + r
  {
    q, r := k / m, k % m;
  }

  lemma Distribute(q: nat, need: nat, bs: nat)
    ensures (q + need + 1) * bs == q * bs + need * bs + bs
  {
  }

  /** A transfer of `size` bytes from `pos` on ends before the loops' last block does. */
  lemma BlocksSuffice(pos: nat, size: nat, done: nat, i: nat, o: nat, bs: nat)
    requires done < size && At(pos + done, i, o, bs)
    ensures i <= pos / bs + (size + bs - 1) / bs
  {
    var q, r := DivMod(pos, bs);
    var need, r' := DivMod(size + bs - 1, bs);
    Distribute(q, need, bs);
    AtMost(i, q + need, bs, pos + done);
  }

  lemma AtMost(i: nat, n: nat, bs: nat, k: nat)
    requires i * bs <= k < (n + 1) * bs
    ensures i <= n
  {
    if i > n {
      MulMonotone(bs, n + 1, i);
    }
  }

  /** Position `k` is at offset `o` of block `i`. */
  ghost predicate At(k: nat, i: nat, o: nat, bs: nat) {
    o < bs && k == i * bs + o
  }

  lemma CellAt(k: nat, i: nat, o: nat, bs: nat)
    requires At(k, i, o, bs)
    ensures Cell(k, bs) == (i, o)
  {
    CellIs(i, o, bs);
  }

  lemma NextBlock(k: nat, i: nat, o: nat, bs: nat, k': nat)
    requires At(k, i, o, bs) && k' == k + (bs - o)
    ensures At(k', i + 1, 0, bs)
  {
  }

  lemma FirstBlock(k: nat, bs: nat) returns (o: nat)
    requires bs > 0
    ensures k / bs >= 0 && At(k, k / bs, o, bs)
  {
    o := k % bs;
  }

  /** `list` holds the pointers of the slots before byte `k` of the window. */
  ghost predicate ReadUpTo(flat: seq<Byte>, at: nat, len: nat, k: nat, list: seq<nat>) {
    at + len <= |flat| && k <= len && list + GetPtrs(Window(flat, at, len)[k..]) == GetPtrs(Window(flat, at, len))
  }

  lemma ReadSlot(flat: seq<Byte>, at: nat, len: nat, k: nat, list: seq<nat>)
    requires ReadUpTo(flat, at, len, k, list) && k + 4 <= len
    ensures var n := Decode(flat[at + k..at + k + 4]);
            ReadUpTo(flat, at, len, k + 4, if n != 0 then list + [n] else list)
  {
    var rest := Window(flat, at, len)[k..];
    assert rest[..4] == flat[at + k..at + k + 4] && rest[4..] == Window(flat, at, len)[k + 4..];
  }

  lemma ReadEnds(flat: seq<Byte>, at: nat, len: nat, list: seq<nat>)
    requires at + len <= |flat|
    ensures ReadUpTo(flat, at, len, 0, [])
    ensures ReadUpTo(flat, at, len, len, list) <==> list == GetPtrs(Window(flat, at, len))
  {
    assert Window(flat, at, len)[0..] == Window(flat, at, len);
  }

  lemma SpliceOn(flat: seq<Byte>, at: nat, a: seq<Byte>, b: seq<Byte>)
    requires at + |a| + |b| <= |flat|
    ensures Splice(Splice(flat, at, a), at + |a|, b) == Splice(flat, at, a + b)
  {
  }

  lemma WindowOfSplice(flat: seq<Byte>, at: nat, len: nat, data: seq<Byte>)
    requires at + len <= |flat| && |data| <= len
    ensures Window(Splice(flat, at, data), at, len) == data + Window(flat, at, len)[|data|..]
  {
  }
}
