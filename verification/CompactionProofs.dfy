/** What compaction does to bytes, to free space and to the next create request. */
module CompactionProofs {
  import opened Bytes
  import opened Pieces
  import opened Layout
  import opened LayoutInvariant

  // ----- the overlapping, ascending copies

  lemma MoveKeeps(bytes: seq<Byte>, p: Piece, to: nat)
    requires p.End() <= |bytes| && to <= p.base
    ensures Slice(Move(bytes, p.base, to, p.len), p.(base := to)) == Slice(bytes, p)
  {
  }

  lemma MoveSpares(bytes: seq<Byte>, p: Piece, to: nat, q: Piece)
    requires p.End() <= |bytes| && to <= p.base
    requires q.End() <= to || (to + p.len <= q.base && q.End() <= |bytes|)
    ensures Slice(Move(bytes, p.base, to, p.len), q) == Slice(bytes, q)
  {
  }

  /** After n moves, the first n segments hold their bytes packed and the others are untouched. */
  lemma {:induction false} MoveDownKeeps(bytes: seq<Byte>, ps: seq<Piece>, n: nat, k: nat)
    requires 0 < n <= |ps| && k < |ps| && Ascending(ps) && AllNonEmpty(ps) && AllBelow(ps, |bytes|)
    ensures k < n ==> Slice(MoveDown(bytes, ps, n), Pack(ps)[k]) == Slice(bytes, ps[k])
    ensures k >= n ==> Slice(MoveDown(bytes, ps, n), ps[k]) == Slice(bytes, ps[k])
  {
    PackIsLower(ps, k);
    if n == 1 {
      assert k == 0 ==> Pack(ps)[0] == ps[0];
    } else {
      var before, to := MoveDown(bytes, ps, n - 1), Total(ps[..n - 1]);
      PackIsLower(ps, n - 1);
      MoveDownKeeps(bytes, ps, n - 1, k);
      if k < n - 1 {
        PrefixTotals(ps, k, n - 1);
        MoveSpares(before, ps[n - 1], to, Pack(ps)[k]);
      } else if k >= n {
        assert Precedes(ps[n - 1], ps[k]);
        MoveSpares(before, ps[n - 1], to, ps[k]);
      } else {
        MoveKeeps(before, ps[n - 1], to);
      }
    }
  }

  /** Every table entry holds the same bytes before and after, at its new place. */
  lemma CompactKeepsSlot(l: Layout, pid: int, i: nat)
    requires Inv(l) && pid in l.tables && i < |l.tables[pid]|
    ensures |Compact(l).tables[pid]| == |l.tables[pid]|
    ensures Slice(Compact(l).bytes, Compact(l).tables[pid][i]) == Slice(l.bytes, l.tables[pid][i])
    ensures Compact(l).tables[pid][i].id == l.tables[pid][i].id && Compact(l).tables[pid][i].len == l.tables[pid][i].len
  {
    SortIsAscending(l.ram, |l.bytes|);
    var k := RebaseAt(l, pid, i);
    var ps := SortByBase(l.ram);
    MoveDownKeeps(l.bytes, ps, |ps|, k);
  }

  /** Segments stay in address order, without gaps from segment zero on. */
  lemma CompactPacks(l: Layout)
    requires Inv(l)
    ensures var c, ps := Compact(l), SortByBase(l.ram);
            && multiset(ps) == multiset(l.ram) && InOrder(ps) && |c.ram| == |ps|
            && (forall k :: 0 <= k < |ps| ==> c.ram[k] == ps[k].(base := c.ram[k].base))
            && c.ram[0] == l.ram[0] && InOrder(c.ram)
            && (forall k :: 0 < k < |ps| ==> c.ram[k].base == c.ram[k - 1].End())
            && c.ram[|ps| - 1].End() == l.size - l.remaining
  {
    SortIsAscending(l.ram, |l.bytes|);
    SortKeepsElements(l.ram);
    PackFacts(SortByBase(l.ram));
  }

  // ----- tiling

  /** Each address of `[0, limit)` but those in `gaps` is in exactly one segment or hole. */
  ghost predicate TilesExcept(l: Layout, limit: nat, gaps: set<int>) {
    forall b :: 0 <= b < limit ==> (b in gaps <==> !SomeHolds(l.ram + l.holes, b))
  }

  lemma WholeApart(l: Layout)
    requires Inv(l)
    ensures AllApart(l.ram + l.holes) && AllBelow(l.ram + l.holes, l.size + 1)
    ensures Total(l.ram + l.holes) == l.size
  {
    var all, n := l.ram + l.holes, |l.ram|;
    TotalConcat(l.ram, l.holes);
    forall i, j | 0 <= i < j < |all| ensures Apart(all[i], all[j]) {
      assert j < n ==> Apart(l.ram[i], l.ram[j]);
      assert i >= n ==> Apart(l.holes[i - n], l.holes[j - n]);
      assert i < n <= j ==> Apart(l.ram[i], l.holes[j - n]);
    }
  }

  /**
   In every state, of the `size + 1` addresses that segments and holes may use exactly one
   is in neither, and no address is in two of them.
   */
  lemma OneByteUnheld(l: Layout) returns (gap: int)
    requires Inv(l)
    ensures 0 <= gap <= l.size && TilesExcept(l, l.size + 1, {gap})
    ensures AllApart(l.ram + l.holes)
  {
    var all := l.ram + l.holes;
    WholeApart(l);
    gap := SoleGap(all, l.size + 1);
    forall b | 0 <= b < l.size + 1 ensures b in {gap} <==> !SomeHolds(all, b) {}
  }

  lemma SoleGap(ps: seq<Piece>, limit: nat) returns (gap: int)
    requires AllApart(ps) && AllBelow(ps, limit) && Total(ps) + 1 == limit
    ensures 0 <= gap < limit
    ensures forall b :: 0 <= b < limit ==> (b == gap <==> !SomeHolds(ps, b))
  {
    Unheld(ps, limit);
    var all := Span(Piece(0, limit, 0));
    var free := all - Held(ps);
    gap :| gap in free;
    assert |free - {gap}| == 0;
    forall b | 0 <= b < limit ensures b == gap <==> !SomeHolds(ps, b) {
      HeldMeaning(ps, b);
      assert Holds(Piece(0, limit, 0), b);
      assert b in all;
      assert b in free ==> b == gap || b in free - {gap};
    }
  }

  /** Reserved memory is tiled exactly when nothing uses the byte after it. */
  lemma TilesReservedIff(l: Layout)
    requires Inv(l)
    ensures TilesExcept(l, l.size, {}) <==> !SomeHolds(l.ram + l.holes, l.size)
  {
    var gap := OneByteUnheld(l);
    assert gap < l.size ==> !SomeHolds(l.ram + l.holes, gap);
  }

  /**
   The off-by-one of the hole that compaction leaves: reserved memory is tiled afterwards
   if and only if no memory was free.
   */
  lemma CompactTilesIffFull(l: Layout)
    requires Inv(l)
    ensures Inv(Compact(l))
    ensures TilesExcept(Compact(l), l.size, {}) <==> l.remaining == 0
  {
    CompactInv(l);
    var c := Compact(l);
    TilesReservedIff(c);
    SortIsAscending(l.ram, |l.bytes|);
    SortKeepsElements(l.ram);
    PackFacts(SortByBase(l.ram));
    var all := c.ram + c.holes;
    assert forall k :: 0 <= k < |c.ram| ==> all[k] == c.ram[k] && !Holds(c.ram[k], l.size);
    assert all[|c.ram|] == c.holes[0];
    assert Holds(c.holes[0], l.size) <==> l.remaining > 0;
  }

  /** Without compaction nothing ever reaches past reserved memory. */
  lemma InsideTiles(l: Layout)
    requires Inv(l) && Inside(l)
    ensures TilesExcept(l, l.size, {})
  {
    TilesReservedIff(l);
    var all := l.ram + l.holes;
    forall k | 0 <= k < |all| ensures !Holds(all[k], l.size) {
      assert k < |l.ram| ==> all[k] == l.ram[k];
    }
  }

  // ----- the compaction protocol

  /** -2 exactly when too little is free in total; -1 exactly when enough is free but no hole has it. */
  lemma AnswerMeans(alg: Algorithm, l: Layout, pid: int, size: nat, id: int)
    requires Inv(l) && pid in l.tables && size > 0
    ensures var answer := AddSegment(alg, l, pid, size, id).1;
            && (answer == -2 <==> Total(l.holes) < size)
            && (answer == -1 <==> Total(l.holes) >= size && NoneFits(l.holes, size))
            && (answer >= 0 <==> exists k :: 0 <= k < |l.holes| && l.holes[k].len >= size)
            && (answer < 0 ==> AddSegment(alg, l, pid, size, id).0 == l)
  {
    var k := Pick(alg, l.holes, size);
    if exists j :: 0 <= j < |l.holes| && l.holes[j].len >= size {
      var j :| 0 <= j < |l.holes| && l.holes[j].len >= size;
      TotalAt(l.holes, j);
    }
  }

  /** The whole free memory is one hole, one byte after the packed end. */
  lemma CompactHole(l: Layout)
    requires Inv(l)
    ensures Compact(l).holes == [Piece(l.size - l.remaining + 1, l.remaining, 0)]
  {
    SortKeepsElements(l.ram);
  }

  /** Whatever the algorithm, a list of one large enough hole serves the request. */
  lemma OneHoleServes(alg: Algorithm, l: Layout, pid: int, size: nat, id: int)
    requires pid in l.tables && |l.holes| == 1 && 0 < size <= l.holes[0].len && l.remaining >= size
    ensures AddSegment(alg, l, pid, size, id) == (Place(l, pid, size, id, 0), l.holes[0].base)
  {
    assert Pick(alg, l.holes, size) == 0;
  }

  /**
   After "compact first", one compaction makes the retried create succeed, whatever the
   algorithm; the compaction itself needs a segment besides segment zero.
   */
  lemma RetrySucceeds(alg: Algorithm, l: Layout, pid: int, size: nat, id: int)
    requires Inv(l) && pid in l.tables && size > 0 && |l.ram| > 1
    requires AddSegment(alg, l, pid, size, id).1 == -1
    ensures Inv(Compact(l)) && pid in Compact(l).tables
    ensures AddSegment(alg, Compact(l), pid, size, id).1 == l.size - l.remaining + 1
  {
    CompactInv(l);
    CompactHole(l);
    OneHoleServes(alg, Compact(l), pid, size, id);
  }
}
