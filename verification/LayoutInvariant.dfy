/** Every request keeps the layout invariant; what compaction and tiling promise. */
module LayoutInvariant {
  import opened Bytes
  import opened Pieces
  import opened Layout

  function Initial(size: nat, zeroSize: nat, bytes: seq<Byte>): Layout
    requires zeroSize <= size
  {
    Layout(size, bytes, [Piece(0, zeroSize, 0)], [Piece(zeroSize, size - zeroSize, 0)], map[], size - zeroSize)
  }

  lemma InitialInv(size: nat, zeroSize: nat, bytes: seq<Byte>)
    requires 0 < zeroSize <= size && |bytes| == size + 2
    ensures Inv(Initial(size, zeroSize, bytes)) && Inside(Initial(size, zeroSize, bytes))
  {
    var l := Initial(size, zeroSize, bytes);
    assert Total(l.ram) == zeroSize && Total(l.holes) == size - zeroSize;
  }

  // ----- tables and the live segments

  lemma OwnerOf(tables: map<int, seq<Piece>>, p: Piece) returns (pid: int, i: nat)
    requires HasSegment(tables, p)
    ensures IsOwn(tables, pid, i) && tables[pid][i] == p
  {
    pid, i :| IsOwn(tables, pid, i) && tables[pid][i] == p;
  }

  /** An own segment is the entry of `ram` at some position after segment zero. */
  lemma LiveAt(ram: seq<Piece>, tables: map<int, seq<Piece>>, pid: int, i: nat) returns (k: nat)
    requires |ram| > 0 && OwnAreLive(ram, tables) && IsOwn(tables, pid, i)
    ensures 1 <= k < |ram| && ram[k] == tables[pid][i]
  {
    var j :| 0 <= j < |ram[1..]| && ram[1..][j] == tables[pid][i];
    k := j + 1;
  }

  lemma LivePiecesDiffer(ram: seq<Piece>, i: nat, j: nat)
    requires AllApart(ram) && AllNonEmpty(ram) && i < |ram| && j < |ram| && i != j
    ensures ram[i].base != ram[j].base
  {
    assert Apart(ram[if i < j then i else j], ram[if i < j then j else i]);
  }

  lemma CreateTableInv(l: Layout, pid: int)
    requires Inv(l) && pid !in l.tables
    ensures Inv(CreateTable(l, pid))
  {
    var tables := CreateTable(l, pid).tables;
    forall q, i | IsOwn(tables, q, i) ensures IsOwn(l.tables, q, i) && tables[q][i] == l.tables[q][i] {}
    forall k | 1 <= k < |l.ram| ensures HasSegment(tables, l.ram[k]) {
      var q, i := OwnerOf(l.tables, l.ram[k]);
      assert IsOwn(tables, q, i);
    }
  }

  // ----- creating

  lemma {:induction false} DropFirstEmptyIs(hs: seq<Piece>) returns (e: nat)
    requires exists j :: 0 <= j < |hs| && hs[j].len == 0
    ensures e < |hs| && hs[e].len == 0 && DropFirstEmpty(hs) == RemoveAt(hs, e)
  {
    if hs[0].len == 0 {
      e := 0;
    } else {
      var j :| 0 <= j < |hs| && hs[j].len == 0;
      assert hs[1..][j - 1].len == 0;
      e := DropFirstEmptyIs(hs[1..]);
      e := e + 1;
    }
  }

  /** The hole list after taking the front of hole `k`: the cut list, less one empty hole if any. */
  lemma TakeFromHoleIs(hs: seq<Piece>, k: nat, len: nat) returns (cut: seq<Piece>, e: nat)
    requires k < |hs| && len <= hs[k].len
    ensures cut == hs[k := Piece(hs[k].base + len, hs[k].len - len, hs[k].id)]
    ensures e <= |cut|
    ensures e == |cut| ==> TakeFromHole(hs, k, len) == cut
    ensures e < |cut| ==> cut[e].len == 0 && TakeFromHole(hs, k, len) == RemoveAt(cut, e)
  {
    cut := hs[k := Piece(hs[k].base + len, hs[k].len - len, hs[k].id)];
    e := |cut|;
    if cut[k].len == 0 {
      e := DropFirstEmptyIs(cut);
    }
  }

  lemma TakeKeepsApart(hs: seq<Piece>, k: nat, len: nat)
    requires AllApart(hs) && k < |hs| && len <= hs[k].len
    ensures AllApart(TakeFromHole(hs, k, len))
    ensures Total(TakeFromHole(hs, k, len)) == Total(hs) - len
  {
    var cut, e := TakeFromHoleIs(hs, k, len);
    ShrinkApart(hs, k, cut[k]);
    TotalUpdate(hs, k, cut[k]);
    if e < |cut| {
      RemoveApart(cut, e);
      TotalAt(cut, e);
    }
  }

  lemma TakeKeepsCross(ps: seq<Piece>, hs: seq<Piece>, k: nat, len: nat, limit: int)
    requires CrossApart(ps, hs) && AllBelow(hs, limit) && k < |hs| && len <= hs[k].len
    ensures CrossApart(ps, TakeFromHole(hs, k, len)) && AllBelow(TakeFromHole(hs, k, len), limit)
  {
    var cut, e := TakeFromHoleIs(hs, k, len);
    ShrinkCross(ps, hs, k, cut[k]);
    if e < |cut| {
      RemoveCross(ps, cut, e);
    }
  }

  lemma TakenIsApart(hs: seq<Piece>, k: nat, p: Piece)
    requires AllApart(hs) && k < |hs| && p.base == hs[k].base && p.len <= hs[k].len
    ensures CrossApart([p], TakeFromHole(hs, k, p.len))
  {
    var cut, e := TakeFromHoleIs(hs, k, p.len);
    forall j | 0 <= j < |cut| ensures Apart(p, cut[j]) {
      assert j != k ==> Apart(hs[if j < k then j else k], hs[if j < k then k else j]);
    }
    assert CrossApart([p], cut);
    if e < |cut| {
      RemoveCross([p], cut, e);
    }
  }

  lemma PlaceSpaceOk(size: nat, ram: seq<Piece>, hs: seq<Piece>, k: nat, p: Piece)
    requires SpaceOk(size, ram, hs)
    requires k < |hs| && 0 < p.len <= hs[k].len && p.base == hs[k].base
    ensures SpaceOk(size, ram + [p], TakeFromHole(hs, k, p.len))
    ensures Total(TakeFromHole(hs, k, p.len)) == Total(hs) - p.len
  {
    TakeKeepsApart(hs, k, p.len);
    TakeKeepsCross(ram, hs, k, p.len, size + 1);
    TakenIsApart(hs, k, p);
    var rest := TakeFromHole(hs, k, p.len);
    TotalAppend(ram, p);
    forall i | 0 <= i < |ram| ensures Apart(ram[i], p) {
      assert Apart(ram[i], hs[k]);
    }
    AppendApart(ram, p);
    forall j | 0 <= j < |rest| ensures Apart(rest[j], p) {
      assert Apart([p][0], rest[j]);
    }
    CrossSwap(ram, rest);
    AppendCross(rest, ram, p);
    CrossSwap(rest, ram + [p]);
  }

  lemma PlaceTablesOk(ram: seq<Piece>, tables: map<int, seq<Piece>>, pid: int, p: Piece)
    requires |ram| > 0 && TablesOk(ram, tables) && pid in tables
    requires p !in ram
    ensures TablesOk(ram + [p], tables[pid := tables[pid] + [p]])
  {
    var ram', tables' := ram + [p], tables[pid := tables[pid] + [p]];
    var n := |tables[pid]|;
    assert ram'[1..] == ram[1..] + [p];
    forall q, i | IsOwn(tables', q, i)
      ensures (q == pid && i == n && tables'[q][i] == p)
        || (IsOwn(tables, q, i) && tables'[q][i] == tables[q][i] && tables[q][i] in ram[1..])
    {
      assert q != pid || i < n ==> IsOwn(tables, q, i);
    }
    forall k | 1 <= k < |ram'| ensures HasSegment(tables', ram'[k]) {
      if k == |ram| {
        assert IsOwn(tables', pid, n);
      } else {
        assert ram'[k] == ram[k];
        var q, i := OwnerOf(tables, ram[k]);
        assert IsOwn(tables', q, i);
      }
    }
  }

  lemma PlaceInv(l: Layout, pid: int, size: nat, id: int, k: nat)
    requires Inv(l) && pid in l.tables && k < |l.holes| && 0 < size <= l.holes[k].len
    ensures Inv(Place(l, pid, size, id, k))
  {
    var p := Piece(l.holes[k].base, size, id);
    PlaceSpaceOk(l.size, l.ram, l.holes, k, p);
    forall i | 0 <= i < |l.ram| ensures l.ram[i] != p {
      assert Apart(l.ram[i], l.holes[k]);
    }
    PlaceTablesOk(l.ram, l.tables, pid, p);
  }

  // ----- deleting

  /** The base tells live segments apart, so the scan of `ram` meets the segment itself. */
  lemma FindBaseIs(ram: seq<Piece>, m: nat)
    requires AllApart(ram) && AllNonEmpty(ram) && 1 <= m < |ram|
    ensures FindBase(ram, ram[m].base, 1) == m
  {
    var k := FindBase(ram, ram[m].base, 1);
    assert k != -1;
    if k != m {
      LivePiecesDiffer(ram, k, m);
    }
  }

  lemma DeleteSpaceOk(size: nat, ram: seq<Piece>, hs: seq<Piece>, k: nat)
    requires SpaceOk(size, ram, hs) && 1 <= k < |ram|
    ensures SpaceOk(size, RemoveAt(ram, k), MergeFrom(hs + [ram[k]], 0))
    ensures Total(MergeFrom(hs + [ram[k]], 0)) == Total(hs) + ram[k].len
  {
    var p, ram', hs' := ram[k], RemoveAt(ram, k), hs + [ram[k]];
    TotalAt(ram, k);
    TotalAppend(hs, p);
    RemoveApart(ram, k);
    CrossSwap(ram, hs);
    RemoveCross(hs, ram, k);
    CrossSwap(hs, ram');
    forall j | 0 <= j < |ram'| ensures Apart(ram'[j], p) {
      var n := if j < k then j else j + 1;
      assert Apart(ram[if n < k then n else k], ram[if n < k then k else n]);
    }
    forall j | 0 <= j < |hs| ensures Apart(hs[j], p) {
      assert Apart(hs[j], ram[k]);
    }
    AppendApart(hs, p);
    AppendCross(ram', hs, p);
    MergeKeepsFree(hs', 0, ram', size + 1);
  }

  lemma DeleteTablesOk(ram: seq<Piece>, tables: map<int, seq<Piece>>, pid: int, i: nat, k: nat)
    requires |ram| > 0 && TablesOk(ram, tables) && AllApart(ram) && AllNonEmpty(ram)
    requires IsOwn(tables, pid, i) && 1 <= k < |ram| && ram[k] == tables[pid][i]
    ensures TablesOk(RemoveAt(ram, k), tables[pid := RemoveAt(tables[pid], i)])
  {
    var ram', tables' := RemoveAt(ram, k), tables[pid := RemoveAt(tables[pid], i)];
    var was := (q: int, j: int) => if q == pid && j >= i then j + 1 else j;
    forall q, j | IsOwn(tables', q, j)
      ensures IsOwn(tables, q, was(q, j)) && tables'[q][j] == tables[q][was(q, j)] && tables'[q][j] in ram'[1..]
    {
      assert IsOwn(tables, q, was(q, j));
      var m := LiveAt(ram, tables, q, was(q, j));
      assert m != k;
      assert ram'[1..][(if m < k then m else m - 1) - 1] == ram[m];
    }
    forall m | 1 <= m < |ram'| ensures HasSegment(tables', ram'[m]) {
      var n := if m < k then m else m + 1;
      var q, j := OwnerOf(tables, ram[n]);
      LivePiecesDiffer(ram, n, k);
      var j' := if q == pid && j > i then j - 1 else j;
      assert IsOwn(tables', q, j') && tables'[q][j'] == ram'[m];
    }
  }

  lemma DeleteInv(l: Layout, pid: int, i: nat)
    requires Inv(l) && IsOwn(l.tables, pid, i)
    ensures Inv(DeleteAt(l, pid, i))
    ensures var k := FindBase(l.ram, l.tables[pid][i].base, 1);
            1 <= k < |l.ram| && l.ram[k] == l.tables[pid][i] && DeleteAt(l, pid, i).ram == RemoveAt(l.ram, k)
  {
    var k := LiveAt(l.ram, l.tables, pid, i);
    FindBaseIs(l.ram, k);
    DeleteSpaceOk(l.size, l.ram, l.holes, k);
    DeleteTablesOk(l.ram, l.tables, pid, i, k);
  }

  /** The id of the last segment leads to some own segment, though not always the last. */
  lemma LastIdFound(t: seq<Piece>)
    requires |t| > 1
    ensures FindFrom(t, t[|t| - 1].id, 1) >= 1
  {
  }

  lemma DeleteFrame(l: Layout, pid: int, i: nat)
    requires Inv(l) && IsOwn(l.tables, pid, i)
    ensures var d := DeleteAt(l, pid, i);
            && d.tables == l.tables[pid := RemoveAt(l.tables[pid], i)]
            && d.bytes == l.bytes && d.size == l.size && |d.ram| > 0 && d.ram[0] == l.ram[0]
            && |d.tables[pid]| == |l.tables[pid]| - 1
  {
    DeleteInv(l, pid, i);
  }

  ghost predicate OnlyHeadLeft(l: Layout, pid: int, c: Layout)
    requires |l.ram| > 0
  {
    && c.tables == l.tables[pid := [l.ram[0]]]
    && c.bytes == l.bytes && c.size == l.size && |c.ram| > 0 && c.ram[0] == l.ram[0]
  }

  lemma ClearUnfold(l: Layout, pid: int)
    requires pid in l.tables && |l.tables[pid]| > 1
    ensures var t := l.tables[pid]; var i := FindFrom(t, t[|t| - 1].id, 1);
            IsOwn(l.tables, pid, i) && ClearTable(l, pid) == ClearTable(DeleteAt(l, pid, i), pid)
  {
    LastIdFound(l.tables[pid]);
  }

  lemma ClearStep(l: Layout, pid: int) returns (d: Layout)
    requires Inv(l) && pid in l.tables && |l.tables[pid]| > 1
    ensures Inv(d) && pid in d.tables && |d.tables[pid]| == |l.tables[pid]| - 1
    ensures ClearTable(l, pid) == ClearTable(d, pid)
    ensures d.tables == l.tables[pid := d.tables[pid]] && d.bytes == l.bytes && d.size == l.size && d.ram[0] == l.ram[0]
  {
    ClearUnfold(l, pid);
    var t := l.tables[pid];
    var i := FindFrom(t, t[|t| - 1].id, 1);
    DeleteInv(l, pid, i);
    DeleteFrame(l, pid, i);
    d := DeleteAt(l, pid, i);
  }

  lemma {:induction false} ClearTableInv(l: Layout, pid: int)
    requires Inv(l) && pid in l.tables
    ensures Inv(ClearTable(l, pid)) && OnlyHeadLeft(l, pid, ClearTable(l, pid))
    decreases |l.tables[pid]|
  {
    var t := l.tables[pid];
    if |t| == 1 {
      HeadLeft(l, pid);
    } else {
      var d := ClearStep(l, pid);
      ClearTableInv(d, pid);
      assert d.tables[pid := [l.ram[0]]] == l.tables[pid := [l.ram[0]]];
    }
  }

  lemma HeadLeft(l: Layout, pid: int)
    requires pid in l.tables && |l.ram| > 0 && HeadsOk(l.ram[0], l.tables) && |l.tables[pid]| == 1
    ensures OnlyHeadLeft(l, pid, ClearTable(l, pid)) && ClearTable(l, pid) == l
  {
    assert l.tables[pid] == [l.ram[0]];
    assert l.tables == l.tables[pid := l.tables[pid]];
  }

  /** Ending a process leaves the other tables as they were and keeps the invariant. */
  lemma RemoveTableInv(l: Layout, pid: int)
    requires Inv(l) && pid in l.tables
    ensures Inv(RemoveTable(l, pid)) && RemoveTable(l, pid).tables == l.tables - {pid}
    ensures RemoveTable(l, pid).bytes == l.bytes && RemoveTable(l, pid).ram[0] == l.ram[0]
  {
    ClearTableInv(l, pid);
    var c, tables := ClearTable(l, pid), l.tables - {pid};
    assert c.tables - {pid} == tables;
    forall q, j | IsOwn(tables, q, j) ensures IsOwn(c.tables, q, j) && tables[q][j] == c.tables[q][j] {}
    forall k | 1 <= k < |c.ram| ensures HasSegment(tables, c.ram[k]) {
      var q, j := OwnerOf(c.tables, c.ram[k]);
      assert IsOwn(tables, q, j);
    }
  }

  // ----- compaction

  lemma {:induction false} PackTotal(ps: seq<Piece>, n: nat)
    requires n <= |ps|
    ensures Total(Pack(ps)[..n]) == Total(ps[..n])
  {
    if n > 0 {
      PackTotal(ps, n - 1);
      TotalSnoc(ps, n - 1);
      TotalSnoc(Pack(ps), n - 1);
    }
  }

  lemma {:induction false} PrefixTotals(ps: seq<Piece>, i: nat, j: nat)
    requires i < j <= |ps|
    ensures Total(ps[..i]) + ps[i].len <= Total(ps[..j])
    decreases j
  {
    TotalSnoc(ps, j - 1);
    if i < j - 1 {
      PrefixTotals(ps, i, j - 1);
    }
  }

  lemma PackInOrder(ps: seq<Piece>)
    requires |ps| > 0
    ensures Ascending(Pack(ps)) && AllBelow(Pack(ps), Total(ps))
  {
    var qs := Pack(ps);
    forall i, j | 0 <= i < j < |qs| ensures Precedes(qs[i], qs[j]) {
      PrefixTotals(ps, i, j);
    }
    assert ps[..|ps|] == ps;
    forall i | 0 <= i < |qs| ensures qs[i].End() <= Total(ps) {
      PrefixTotals(ps, i, |ps|);
    }
  }

  lemma PackIsContiguous(ps: seq<Piece>)
    requires |ps| > 0
    ensures Pack(ps)[|ps| - 1].End() == Total(ps)
    ensures forall k :: 0 < k < |ps| ==> Pack(ps)[k].base == Pack(ps)[k - 1].End()
  {
    forall k | 0 < k < |ps| ensures Pack(ps)[k].base == Pack(ps)[k - 1].End() {
      TotalSnoc(ps, k - 1);
    }
    TotalSnoc(ps, |ps| - 1);
    assert ps[..|ps|] == ps;
  }

  /** Packed segments keep their order, follow each other without gap and end at their total. */
  lemma PackFacts(ps: seq<Piece>)
    requires |ps| > 0 && AllNonEmpty(ps)
    ensures AllNonEmpty(Pack(ps)) && Ascending(Pack(ps)) && AllBelow(Pack(ps), Total(ps))
    ensures Total(Pack(ps)) == Total(ps) && Pack(ps)[|ps| - 1].End() == Total(ps)
    ensures forall k :: 0 < k < |ps| ==> Pack(ps)[k].base == Pack(ps)[k - 1].End()
  {
    PackInOrder(ps);
    PackIsContiguous(ps);
    PackTotal(ps, |ps|);
    assert ps[..|ps|] == ps && Pack(ps)[..|ps|] == Pack(ps);
  }

  lemma AscendingApart(ps: seq<Piece>)
    requires Ascending(ps)
    ensures AllApart(ps)
  {
    forall i, j | 0 <= i < j < |ps| ensures Apart(ps[i], ps[j]) {
      assert Precedes(ps[i], ps[j]);
    }
  }

  /** A segment's old base leads to its packed one. */
  lemma {:induction false} NewBaseIs(ps: seq<Piece>, k: nat)
    requires k < |ps| && AllNonEmpty(ps) && InOrder(ps)
    ensures NewBase(ps, ps[k].base) == Total(ps[..k])
  {
    if k > 0 {
      assert Precedes(ps[0], ps[k]);
      var rest := ps[1..];
      forall i, j | 0 <= i < j < |rest| ensures Precedes(rest[i], rest[j]) {
        assert Precedes(ps[i + 1], ps[j + 1]);
      }
      NewBaseIs(rest, k - 1);
      assert ps[..k][1..] == rest[..k - 1];
    }
  }

  lemma AscendingDiffer(ps: seq<Piece>, i: nat, j: nat)
    requires Ascending(ps) && AllNonEmpty(ps) && i < |ps| && j < |ps| && i != j
    ensures ps[i].base != ps[j].base
  {
    assert Precedes(ps[if i < j then i else j], ps[if i < j then j else i]);
  }

  /** `list_sort` reaches every live segment and only those. */
  lemma SortedAt(l: Layout, p: Piece) returns (k: nat)
    requires Inv(l) && p in l.ram
    ensures k < |SortByBase(l.ram)| && SortByBase(l.ram)[k] == p && (k == 0 <==> p == l.ram[0])
  {
    SortIsAscending(l.ram, l.size + 1);
    SortMembers(l.ram);
    var ps := SortByBase(l.ram);
    assert p in ps;
    k :| 0 <= k < |ps| && ps[k] == p;
    if k > 0 {
      AscendingDiffer(ps, k, 0);
    }
  }

  /** Where a table's segment went: the same index of the sorted and the packed list. */
  lemma RebaseAt(l: Layout, pid: int, i: nat) returns (k: nat)
    requires Inv(l) && pid in l.tables && i < |l.tables[pid]|
    ensures k < |SortByBase(l.ram)| && SortByBase(l.ram)[k] == l.tables[pid][i] && (i == 0 <==> k == 0)
    ensures Rebase(SortByBase(l.ram), l.tables[pid])[i] == Pack(SortByBase(l.ram))[k]
  {
    SortIsAscending(l.ram, l.size + 1);
    if i > 0 {
      assert IsOwn(l.tables, pid, i);
      var m := LiveAt(l.ram, l.tables, pid, i);
      LivePiecesDiffer(l.ram, 0, m);
    }
    k := SortedAt(l, l.tables[pid][i]);
    NewBaseIs(SortByBase(l.ram), k);
  }

  lemma CompactOwnAreLive(l: Layout)
    requires Inv(l)
    ensures |Compact(l).ram| > 0
    ensures HeadsOk(Compact(l).ram[0], Compact(l).tables) && OwnAreLive(Compact(l).ram, Compact(l).tables)
  {
    SortIsAscending(l.ram, l.size + 1);
    var c := Compact(l);
    forall pid, i | IsOwn(c.tables, pid, i) ensures c.tables[pid][i] in c.ram[1..] {
      var k := RebaseAt(l, pid, i);
      assert c.ram[1..][k - 1] == c.tables[pid][i];
    }
    forall pid | pid in c.tables ensures |c.tables[pid]| > 0 && c.tables[pid][0] == c.ram[0] {
      var k := RebaseAt(l, pid, 0);
    }
  }

  lemma CompactOwnAreDistinct(l: Layout)
    requires Inv(l)
    ensures OwnAreDistinct(Compact(l).tables)
  {
    SortIsAscending(l.ram, l.size + 1);
    var ps, c := SortByBase(l.ram), Compact(l);
    PackFacts(ps);
    forall pid, i, pid', j | IsOwn(c.tables, pid, i) && IsOwn(c.tables, pid', j) &&
      c.tables[pid][i] == c.tables[pid'][j]
      ensures pid == pid' && i == j
    {
      var k := RebaseAt(l, pid, i);
      var k' := RebaseAt(l, pid', j);
      if k != k' {
        AscendingDiffer(Pack(ps), k, k');
      }
      assert IsOwn(l.tables, pid, i) && IsOwn(l.tables, pid', j);
    }
  }

  lemma CompactLiveAreOwned(l: Layout)
    requires Inv(l)
    ensures LiveAreOwned(Compact(l).ram, Compact(l).tables)
  {
    SortIsAscending(l.ram, l.size + 1);
    SortMembers(l.ram);
    var ps, c := SortByBase(l.ram), Compact(l);
    forall k | 1 <= k < |c.ram| ensures HasSegment(c.tables, c.ram[k]) {
      assert ps[k] in l.ram;
      var m :| 0 <= m < |l.ram| && l.ram[m] == ps[k];
      AscendingDiffer(ps, k, 0);
      var q, j := OwnerOf(l.tables, l.ram[m]);
      var k' := RebaseAt(l, q, j);
      if k != k' {
        AscendingDiffer(ps, k, k');
      }
      assert IsOwn(c.tables, q, j);
    }
  }

  lemma CompactInv(l: Layout)
    requires Inv(l)
    ensures Inv(Compact(l))
  {
    SortIsAscending(l.ram, l.size + 1);
    SortKeepsElements(l.ram);
    var ps, c := SortByBase(l.ram), Compact(l);
    PackFacts(ps);
    AscendingApart(c.ram);
    assert Total(c.holes) == l.remaining;
    CompactOwnAreLive(l);
    CompactOwnAreDistinct(l);
    CompactLiveAreOwned(l);
  }
}
