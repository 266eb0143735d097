/** Runs on which the memory server does not do what its requests promise. */
module MemoryExamples {
  import opened Bytes
  import opened Pieces
  import opened Layout
  import opened LayoutInvariant
  import opened CompactionProofs
  import opened ProcessView
  import opened MemoryRuns

  /**
   After any compaction that leaves memory free, asking for all of it succeeds with a
   segment whose last byte is the one after reserved memory.
   */
  lemma LastByteOutside(alg: Algorithm, l: Layout, pid: int, id: int)
    requires Inv(l) && pid in l.tables && l.remaining > 0
    ensures Inv(Compact(l)) && pid in Compact(l).tables
    ensures var (l', base) := AddSegment(alg, Compact(l), pid, l.remaining, id);
            base + l.remaining == l.size + 1 && Piece(base, l.remaining, id) in l'.ram
  {
    CompactInv(l);
    CompactHole(l);
    OneHoleServes(alg, Compact(l), pid, l.remaining, id);
  }

  /** A state with two neighbouring segments of process 1; the second starts with byte 65. */
  function Neighbours(): Layout {
    var a, b := Piece(2, 2, 1), Piece(4, 2, 2);
    Layout(6, [0, 0, 0, 0, 65, 65, 0, 0], [Piece(0, 2, 0), a, b], [], map[1 := [Piece(0, 2, 0), a, b]], 0)
  }

  lemma NeighboursInv()
    ensures Inv(Neighbours())
  {
    var l := Neighbours();
    assert Total(l.ram[1..]) == 4 && Total(l.ram[1..][1..]) == 2;
    assert IsOwn(l.tables, 1, 1) && IsOwn(l.tables, 1, 2);
    assert l.ram[1..] == [l.ram[1], l.ram[2]];
  }

  /** Filling the first segment exactly turns the first byte of the second into 0. */
  lemma FullWriteHitsNeighbour()
    ensures var l, w := Neighbours(), WriteAddress(1, 1, 0, [66, 66]);
            && Inv(l) && Legal(l, w) && Serve(First, l, w).1 == OkInstruction && Spills(l, w)
            && ContentOf(Abs(l), 1, 2) == Bytes([65, 65])
            && ContentOf(Abs(Serve(First, l, w).0), 1, 2) == Bytes([0, 65])
  {
    NeighboursInv();
    var l, w := Neighbours(), WriteAddress(1, 1, 0, [66, 66]);
    var t := l.tables[1];
    assert FindFrom(t, 1, 0) == 1 && FindFrom(t, 2, 0) == 2;
    assert Holds(l.ram[2], t[1].End());
    var l' := Serve(First, l, w).0;
    FindAgrees(l.bytes, t, 2, 0);
    FindAgrees(l'.bytes, t, 2, 0);
    assert Slice(l.bytes, t[2]) == [65, 65];
    assert Slice(l'.bytes, t[2]) == [0, 65];
  }

  const ZERO := Piece(0, 10, 0)
  const A := Piece(10, 10, 1)
  const B := Piece(20, 10, 2)

  function Start(): Layout {
    Initial(30, 10, seq(32, i => 0))
  }

  /** Process 1 with these segments; the rest of the 30 bytes are these holes. */
  function Stage(own: seq<Piece>, holes: seq<Piece>, free: nat): Layout {
    Start().(ram := [ZERO] + own, holes := holes, tables := map[1 := [ZERO] + own], remaining := free)
  }

  /** Two segments fill the memory and are deleted, the second first. */
  const ROUND := [InitProcess(1), CreateSegment(1, 1, 10), CreateSegment(1, 2, 10), RemoveSegment(1, 2),
    RemoveSegment(1, 1)]

  ghost predicate Reaches(start: Layout, n: nat, s: Layout)
    requires n <= |ROUND|
  {
    && Inv(start) && Inv(s)
    && Runs(First, start, ROUND[..n]) && After(First, start, ROUND[..n]) == s
  }

  lemma Extend(start: Layout, n: nat, s: Layout, s': Layout)
    requires n < |ROUND| && Reaches(start, n, s) && Legal(s, ROUND[n]) && Serve(First, s, ROUND[n]).0 == s'
    ensures Reaches(start, n + 1, s')
  {
    assert ROUND[..n + 1] == ROUND[..n] + [ROUND[n]];
    RunSnoc(First, start, ROUND[..n], ROUND[n]);
  }

  lemma Filling(s: Layout)
    requires Inv(s) && s == Stage([], [Piece(10, 20, 0)], 20)
    ensures Legal(s, CreateSegment(1, 1, 10)) &&
            Serve(First, s, CreateSegment(1, 1, 10)).0 == Stage([A], [Piece(20, 10, 0)], 10)
  {
    var h := Piece(20, 10, 0);
    assert Pick(First, s.holes, 10) == 0;
    assert s.holes[0 := h] == [h];
    assert s.ram + [A] == [ZERO] + [A] && s.tables[1 := s.tables[1] + [A]] == map[1 := [ZERO] + [A]];
  }

  lemma FillingUp(s: Layout)
    requires Inv(s) && s == Stage([A], [Piece(20, 10, 0)], 10)
    ensures Legal(s, CreateSegment(1, 2, 10)) && Serve(First, s, CreateSegment(1, 2, 10)).0 == Stage([A, B], [], 0)
  {
    assert Pick(First, s.holes, 10) == 0;
    assert TakeFromHole(s.holes, 0, 10) == [];
    assert s.ram + [B] == [ZERO] + [A, B] && s.tables[1 := s.tables[1] + [B]] == map[1 := [ZERO] + [A, B]];
  }

  lemma Deleting(s: Layout)
    requires Inv(s) && s == Stage([A, B], [], 0)
    ensures Legal(s, RemoveSegment(1, 2)) && Serve(First, s, RemoveSegment(1, 2)).0 == Stage([A], [B], 10)
  {
    assert FindFrom(s.tables[1], 2, 1) == 2 && FindBase(s.ram, 20, 1) == 2;
    assert RemoveAt(s.ram, 2) == [ZERO] + [A] && s.holes + [B] == [B];
    assert s.tables[1 := RemoveAt(s.tables[1], 2)] == map[1 := [ZERO] + [A]];
  }

  lemma DeletingAll(s: Layout)
    requires Inv(s) && s == Stage([A], [B], 10)
    ensures Legal(s, RemoveSegment(1, 1)) && Serve(First, s, RemoveSegment(1, 1)).0 == Stage([], [B, A], 20)
  {
    assert FindFrom(s.tables[1], 1, 1) == 1 && FindBase(s.ram, 10, 1) == 1;
    assert RemoveAt(s.ram, 1) == [ZERO] + [] && s.holes + [A] == [B, A];
    assert MergeFrom([B, A], 0) == [B, A];
    assert s.tables[1 := RemoveAt(s.tables[1], 1)] == map[1 := [ZERO] + []];
  }

  lemma Filled(start: Layout)
    requires start == Start()
    ensures Reaches(start, 3, Stage([A, B], [], 0))
  {
    InitialInv(30, 10, start.bytes);
    var s0, s1 := Stage([], [Piece(10, 20, 0)], 20), Stage([A], [Piece(20, 10, 0)], 10);
    assert [ZERO] + [] == [ZERO];
    assert s0 == CreateTable(start, 1);
    Extend(start, 0, start, s0);
    Filling(s0);
    Extend(start, 1, s0, s1);
    FillingUp(s1);
    Extend(start, 2, s1, Stage([A, B], [], 0));
  }

  lemma Emptied(start: Layout, s: Layout)
    requires Reaches(start, 3, s) && s == Stage([A, B], [], 0)
    ensures Reaches(start, 5, Stage([], [B, A], 20))
  {
    var s1 := Stage([A], [B], 10);
    Deleting(s);
    Extend(start, 3, s, s1);
    DeletingAll(s1);
    Extend(start, 4, s1, Stage([], [B, A], 20));
  }

  lemma Refused(s: Layout)
    requires Inv(s) && s == Stage([], [B, A], 20)
    ensures Legal(s, CreateSegment(1, 3, 20)) && Serve(First, s, CreateSegment(1, 3, 20)).1 == CompactRequest
    ensures !Legal(s, CompactAll)
  {
    assert s.holes[0].len < 20 && s.holes[1].len < 20;
    assert Pick(First, s.holes, 20) == -1;
    assert AddSegment(First, s, 1, 20, 3).1 == -1;
  }

  /** The server asks for a compaction that it cannot carry out. */
  ghost predicate Stuck(s: Layout) {
    Inv(s) && Legal(s, CreateSegment(1, 3, 20)) && Serve(First, s, CreateSegment(1, 3, 20)).1 == CompactRequest &&
      !Legal(s, CompactAll)
  }

  /**
   Deleted in this order, neighbouring holes stay apart: what is free cannot be given out
   as one segment, the server asks for a compaction, and with no segment left it cannot
   compact.
   */
  lemma CompactionImpossible() returns (start: Layout, s: Layout)
    ensures start == Initial(30, 10, seq(32, i => 0)) && Reaches(start, 5, s) && Stuck(s)
  {
    start, s := Start(), Stage([], [B, A], 20);
    Filled(start);
    Emptied(start, Stage([A, B], [], 0));
    Refused(s);
  }
}
