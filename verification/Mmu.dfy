/**
 The CPU's address translation as a client of the memory server. The CPU works on the copy
 of the process's table in its execution context: ids and sizes are current, bases may be
 from before a compaction.
 */
module Mmu {
  import opened Options
  import opened Bytes
  import opened Pieces
  import opened Layout
  import opened LayoutInvariant
  import opened CompactionProofs
  import opened ProcessView

  datatype PhysicalAddress = PhysicalAddress(segment: int, offset: int, address: int)

  method ListGetBySid(list: seq<Piece>, id: int) returns (k: int)
    ensures k == FindFrom(list, id, 0)
  {
    var i := 0;
    while i < |list|
      invariant 0 <= i <= |list| && forall j :: 0 <= j < i ==> list[j].id != id
    {
      if list[i].id == id {
        return i;
      }
      i := i + 1;
    }
    return -1;
  }

  /** C's division and remainder, which go towards zero. */
  function Quotient(a: int, m: nat): int
    requires m > 0
  {
    if a >= 0 then a / m else -(-a / m)
  }

  function Remainder(a: int, m: nat): int
    requires m > 0
  {
    if a >= 0 then a % m else -(-a % m)
  }

  /** Segment zero and the segment a logical address names are in the table; otherwise the code reads through NULL. */
  predicate Known(table: seq<Piece>, logical: int, max: nat)
    requires max > 0
  {
    FindFrom(table, 0, 0) != -1 && FindFrom(table, Quotient(logical, max), 0) != -1
  }

  function Translate(table: seq<Piece>, logical: int, size: int, max: nat): Option<PhysicalAddress>
    requires max > 0 && (0 < size <= max ==> Known(table, logical, max))
  {
    if size <= 0 || size > max then None
    else
      var segment, offset := Quotient(logical, max), Remainder(logical, max);
      var p := table[FindFrom(table, segment, 0)];
      if offset + size > p.len then None
      else Some(PhysicalAddress(segment, offset, p.base + offset - table[FindFrom(table, 0, 0)].base))
  }

  method TranslateAddress(table: seq<Piece>, logical: int, size: int, max: nat) returns (pa: Option<PhysicalAddress>)
    requires max > 0 && (0 < size <= max ==> Known(table, logical, max))
    ensures pa == Translate(table, logical, size, max)
  {
    if size <= 0 {
      return None;
    }
    if size > max {
      return None;
    }
    var segment, offset := Quotient(logical, max), Remainder(logical, max);
    var k := ListGetBySid(table, segment);
    var zero := ListGetBySid(table, 0);
    var address := table[k].base + offset - table[zero].base;
    if offset + size > table[k].len {
      return None;
    }
    return Some(PhysicalAddress(segment, offset, address));
  }

  /** The CPU's copy of a table has the ids and sizes of the memory server's, in the same order. */
  ghost predicate Agrees(copy: seq<Piece>, t: seq<Piece>) {
    |copy| == |t| && forall i :: 0 <= i < |t| ==> copy[i].id == t[i].id && copy[i].len == t[i].len
  }

  lemma AgreedFind(copy: seq<Piece>, t: seq<Piece>, id: int)
    requires Agrees(copy, t)
    ensures FindFrom(copy, id, 0) == FindFrom(t, id, 0)
  {
    var i, j := FindFrom(copy, id, 0), FindFrom(t, id, 0);
    if i != -1 { assert t[i].id == id; }
    if j != -1 { assert copy[j].id == id; }
  }

  /** Memory's bound check on the offset as it arrives, negative or not. */
  predicate Passes(t: seq<Piece>, id: int, offset: int, size: nat) {
    var k := FindFrom(t, id, 0);
    k != -1 && offset + size <= t[k].len
  }

  /** The segment and the offset a logical address names, in C's way: both have its sign, and they make it up. */
  ghost predicate Names(logical: int, max: nat, id: int, offset: int) {
    && logical == id * max + offset && offset < max && -offset < max
    && (logical >= 0 ==> offset >= 0) && (logical <= 0 ==> offset <= 0)
  }

  /** There is one such pair, C's quotient and remainder. */
  lemma NamesIff(logical: int, max: nat, id: int, offset: int)
    requires max > 0
    ensures Names(logical, max, id, offset) <==> id == Quotient(logical, max) && offset == Remainder(logical, max)
  {
    QuotientNames(logical, max);
    if Names(logical, max, id, offset) {
      SamePair(max, id, offset, Quotient(logical, max), Remainder(logical, max));
    }
  }

  lemma QuotientNames(logical: int, max: nat)
    requires max > 0
    ensures Names(logical, max, Quotient(logical, max), Remainder(logical, max))
  {
    if logical >= 0 {
      DividesTo(logical, max);
    } else {
      DividesTo(-logical, max);
      Negated(-logical / max, max);
    }
  }

  lemma DividesTo(a: int, m: int)
    requires a >= 0 && m > 0
    ensures a == (a / m) * m + a % m && 0 <= a % m < m
  {
  }

  lemma Negated(q: int, m: int)
    ensures (-q) * m == -(q * m)
  {
  }

  lemma Difference(p: int, q: int, m: int)
    ensures (p - q) * m == p * m - q * m
  {
  }

  lemma AtLeastOnce(d: int, m: int)
    requires d >= 1 && m >= 0
    ensures d * m >= m
  {
    Difference(d, 1, m);
    NotNegative(d - 1, m);
  }

  lemma NotNegative(d: int, m: int)
    requires d >= 0 && m >= 0
    ensures d * m >= 0
  {
  }

  lemma SamePair(m: int, q: int, r: int, q': int, r': int)
    requires m > 0 && q * m + r == q' * m + r'
    requires (0 <= r < m && 0 <= r' < m) || (-m < r <= 0 && -m < r' <= 0)
    ensures q == q' && r == r'
  {
    Difference(q, q', m);
    Difference(q', q, m);
    if q > q' {
      AtLeastOnce(q - q', m);
    } else if q < q' {
      AtLeastOnce(q' - q, m);
    }
  }

  /**
   The CPU accepts an access exactly when its size is allowed and memory's own bound check passes,
   and then gives the segment and the offset the address names.
   */
  lemma AcceptedIffMemoryAccepts(l: Layout, pid: int, copy: seq<Piece>, logical: int, size: int, max: nat,
    id: int, offset: int)
    requires Inv(l) && pid in l.tables && Agrees(copy, l.tables[pid]) && max > 0 && Names(logical, max, id, offset)
    requires FindFrom(copy, 0, 0) != -1 && FindFrom(copy, id, 0) != -1
    ensures Known(copy, logical, max)
    ensures var pa, k := Translate(copy, logical, size, max), FindFrom(l.tables[pid], id, 0);
            && k != -1
            && (pa.Some? <==> 0 < size <= max && offset + size <= l.tables[pid][k].len)
            && (pa.Some? ==> pa.value.segment == id && pa.value.offset == offset)
            && (pa.Some? && logical >= 0 ==> offset >= 0 && Access(l, pid, id, offset, size) == k)
  {
    NamesIff(logical, max, id, offset);
    AgreedFind(copy, l.tables[pid], id);
  }

  /**
   Neither check looks below: an access that passes both starts inside its segment exactly
   when its logical address is not negative or a multiple of the maximum.
   */
  lemma InsideIff(l: Layout, pid: int, logical: int, size: nat, max: nat)
    requires Inv(l) && pid in l.tables && 0 < size <= max && Known(l.tables[pid], logical, max)
    requires Translate(l.tables[pid], logical, size, max).Some?
    ensures var pa := Translate(l.tables[pid], logical, size, max).value;
            var p := l.tables[pid][FindFrom(l.tables[pid], pa.segment, 0)];
            p.base <= pa.address <==> logical >= 0 || -logical % max == 0
  {
    EntryIsLive(l, pid, 0);
    assert FindFrom(l.tables[pid], 0, 0) == 0;
  }

  /** The address before the first is accepted, in every state, and lies before the heap. */
  lemma MinusOneAccepted(l: Layout, pid: int, max: nat)
    requires Inv(l) && pid in l.tables && max > 1
    ensures Known(l.tables[pid], -1, max)
    ensures Translate(l.tables[pid], -1, 1, max) == Some(PhysicalAddress(0, -1, -1))
    ensures Passes(l.tables[pid], 0, -1, 1)
  {
    EntryIsLive(l, pid, 0);
    assert FindFrom(l.tables[pid], 0, 0) == 0;
    assert 1 / max == 0 && 1 % max == 1;
  }

  /** Where memory finds the first byte of an accepted access. */
  function Physical(l: Layout, pid: int, pa: PhysicalAddress): int
    requires pid in l.tables
  {
    var k := FindFrom(l.tables[pid], pa.segment, 0);
    if k == -1 then -1 else l.tables[pid][k].base + pa.offset
  }

  /** With current bases, the address the CPU reports is the physical one. */
  lemma AddressIsPhysical(l: Layout, pid: int, logical: nat, size: nat, max: nat)
    requires Inv(l) && pid in l.tables && 0 < size <= max && Known(l.tables[pid], logical, max)
    requires Translate(l.tables[pid], logical, size, max).Some?
    ensures var pa := Translate(l.tables[pid], logical, size, max).value; pa.address == Physical(l, pid, pa)
  {
    EntryIsLive(l, pid, 0);
    assert FindFrom(l.tables[pid], 0, 0) == 0;
  }

  lemma EntriesApart(l: Layout, pid: int, i: nat, j: nat)
    requires Inv(l) && pid in l.tables && i < |l.tables[pid]| && j < |l.tables[pid]| && i != j
    ensures Apart(l.tables[pid][i], l.tables[pid][j])
  {
    EntryIsLive(l, pid, i);
    EntryIsLive(l, pid, j);
    if l.tables[pid][i] == l.tables[pid][j] {
      SamePieceSameEntry(l, pid, i, pid, j);
    } else {
      LiveApart(l, l.tables[pid][i], l.tables[pid][j]);
    }
  }

  lemma SameQuotient(a: nat, b: nat, max: nat)
    requires max > 0 && a / max == b / max
    ensures b - a == b % max - a % max
  {
    assert a == (a / max) * max + a % max && b == (b / max) * max + b % max;
  }

  /** Accesses of one process that do not overlap logically do not overlap physically. */
  lemma DisjointAccesses(l: Layout, pid: int, copy: seq<Piece>, a: nat, n: nat, b: nat, m: nat, max: nat)
    requires Inv(l) && pid in l.tables && Agrees(copy, l.tables[pid])
    requires 0 < n <= max && Known(copy, a, max) && Translate(copy, a, n, max).Some?
    requires 0 < m <= max && Known(copy, b, max) && Translate(copy, b, m, max).Some?
    requires a + n <= b || b + m <= a
    ensures var x := Physical(l, pid, Translate(copy, a, n, max).value);
            var y := Physical(l, pid, Translate(copy, b, m, max).value);
            0 <= x && 0 <= y && (x + n <= y || y + m <= x)
  {
    AgreedFind(copy, l.tables[pid], a / max);
    AgreedFind(copy, l.tables[pid], b / max);
    var i, j := FindFrom(copy, a / max, 0), FindFrom(copy, b / max, 0);
    if a / max == b / max {
      SameQuotient(a, b, max);
    } else {
      EntriesApart(l, pid, i, j);
    }
  }

  /** Also after a compaction, with the same copy of the table in the CPU. */
  lemma DisjointAfterCompaction(l: Layout, pid: int, copy: seq<Piece>, a: nat, n: nat, b: nat, m: nat, max: nat)
    requires Inv(l) && pid in l.tables && Agrees(copy, l.tables[pid])
    requires 0 < n <= max && Known(copy, a, max) && Translate(copy, a, n, max).Some?
    requires 0 < m <= max && Known(copy, b, max) && Translate(copy, b, m, max).Some?
    requires a + n <= b || b + m <= a
    ensures Inv(Compact(l)) && pid in Compact(l).tables && Agrees(copy, Compact(l).tables[pid])
    ensures var x := Physical(Compact(l), pid, Translate(copy, a, n, max).value);
            var y := Physical(Compact(l), pid, Translate(copy, b, m, max).value);
            0 <= x && 0 <= y && (x + n <= y || y + m <= x)
  {
    CompactInv(l);
    forall i | 0 <= i < |l.tables[pid]|
      ensures copy[i].id == Compact(l).tables[pid][i].id && copy[i].len == Compact(l).tables[pid][i].len
    {
      CompactKeepsSlot(l, pid, i);
    }
    DisjointAccesses(Compact(l), pid, copy, a, n, b, m, max);
  }
}
