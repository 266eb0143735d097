/**
 The memory server's state by value, and what each request does to it.

 `bytes` is the memory the server reserves (`size` bytes) followed by the two bytes that
 the code can also reach: the hole left by a compaction ends one byte too late, and a
 write copies a terminator that can land one byte after its segment.
 */
module Layout {
  import opened Bytes
  import opened Pieces

  datatype Algorithm = First | Best | Worst

  datatype Layout = Layout(
    size: nat,                    // memory_size
    bytes: seq<Byte>,
    ram: seq<Piece>,              // segment zero, then every live segment
    holes: seq<Piece>,
    tables: map<int, seq<Piece>>, // per process: segment zero, then its own segments
    remaining: int)               // config_memory.remaining_memory

  // ----- the invariant

  /** Entry `i` of the table of `pid` is one of the process's own segments. */
  predicate IsOwn(tables: map<int, seq<Piece>>, pid: int, i: int) {
    pid in tables && 1 <= i < |tables[pid]|
  }

  ghost predicate HasSegment(tables: map<int, seq<Piece>>, p: Piece) {
    exists pid, i {:trigger IsOwn(tables, pid, i)} :: IsOwn(tables, pid, i) && tables[pid][i] == p
  }

  ghost predicate HeadsOk(zero: Piece, tables: map<int, seq<Piece>>) {
    forall pid :: pid in tables ==> |tables[pid]| > 0 && tables[pid][0] == zero
  }

  ghost predicate OwnAreLive(ram: seq<Piece>, tables: map<int, seq<Piece>>)
    requires |ram| > 0
  {
    forall pid, i {:trigger IsOwn(tables, pid, i)} :: IsOwn(tables, pid, i) ==> tables[pid][i] in ram[1..]
  }

  ghost predicate OwnAreDistinct(tables: map<int, seq<Piece>>) {
    forall pid, i, pid', j {:trigger IsOwn(tables, pid, i), IsOwn(tables, pid', j)} ::
      IsOwn(tables, pid, i) && IsOwn(tables, pid', j) && tables[pid][i] == tables[pid'][j] ==> pid == pid' && i == j
  }

  ghost predicate LiveAreOwned(ram: seq<Piece>, tables: map<int, seq<Piece>>) {
    forall k :: 1 <= k < |ram| ==> HasSegment(tables, ram[k])
  }

  /** `ram` is segment zero plus exactly the tails of all process tables, each segment once. */
  ghost predicate TablesOk(ram: seq<Piece>, tables: map<int, seq<Piece>>)
    requires |ram| > 0
  {
    && HeadsOk(ram[0], tables)
    && OwnAreLive(ram, tables)
    && OwnAreDistinct(tables)
    && LiveAreOwned(ram, tables)
  }

  ghost predicate SpaceOk(size: nat, ram: seq<Piece>, holes: seq<Piece>) {
    && AllNonEmpty(ram)
    && AllApart(ram) && AllApart(holes) && CrossApart(ram, holes)
    && AllBelow(ram, size + 1) && AllBelow(holes, size + 1)
    && Total(ram) + Total(holes) == size
  }

  ghost predicate Inv(l: Layout) {
    && |l.bytes| == l.size + 2
    && |l.ram| > 0 && l.ram[0].base == 0 && l.ram[0].id == 0
    && SpaceOk(l.size, l.ram, l.holes)
    && l.remaining == Total(l.holes)
    && TablesOk(l.ram, l.tables)
  }

  /** Everything lies in the memory the server reserved. */
  ghost predicate Inside(l: Layout) {
    AllBelow(l.ram, l.size) && AllBelow(l.holes, l.size)
  }

  // ----- requests on tables

  /** Position of the first segment of `t` from `from` on whose id is `id`, or -1. */
  function FindFrom(t: seq<Piece>, id: int, from: nat): (k: int)
    ensures k == -1 || from <= k < |t|
    ensures k != -1 ==> t[k].id == id && forall j :: from <= j < k ==> t[j].id != id
    ensures k == -1 ==> forall j :: from <= j < |t| ==> t[j].id != id
    decreases |t| - from
  {
    if from >= |t| then -1
    else if t[from].id == id then from
    else FindFrom(t, id, from + 1)
  }

  function CreateTable(l: Layout, pid: int): Layout
    requires |l.ram| > 0
  {
    l.(tables := l.tables[pid := [l.ram[0]]])
  }

  // ----- creating a segment

  /** With equal sizes, and for first fit always, the earlier hole wins. */
  predicate Prefers(alg: Algorithm, hs: seq<Piece>, k: nat, j: nat)
    requires k < |hs| && j < |hs|
  {
    match alg
    case First => k < j
    case Best => hs[k].len < hs[j].len || (hs[k].len == hs[j].len && k < j)
    case Worst => hs[k].len > hs[j].len || (hs[k].len == hs[j].len && k < j)
  }

  /** Hole `k` is large enough and preferred to every other hole that is. */
  ghost predicate Chosen(alg: Algorithm, hs: seq<Piece>, size: nat, k: int) {
    && 0 <= k < |hs| && hs[k].len >= size
    && forall j :: 0 <= j < |hs| && j != k && hs[j].len >= size ==> Prefers(alg, hs, k, j)
  }

  ghost predicate NoneFits(hs: seq<Piece>, size: nat) {
    forall j :: 0 <= j < |hs| ==> hs[j].len < size
  }

  /** The hole the scan ends with: the last one replaces the choice so far when it is better. */
  function Pick(alg: Algorithm, hs: seq<Piece>, size: nat): (k: int)
    ensures k == -1 <==> NoneFits(hs, size)
    ensures k != -1 ==> Chosen(alg, hs, size, k)
  {
    if hs == [] then -1
    else
      var n := |hs| - 1;
      var k := Pick(alg, hs[..n], size);
      assert k != -1 ==> forall j :: 0 <= j < n ==> hs[..n][j] == hs[j];
      if hs[n].len < size then k
      else if k == -1 then n
      else if Prefers(alg, hs, n, k) then n
      else k
  }

  /** `list_remove_by_condition(hole_list, is_hole_empty)` drops the first empty hole. */
  function DropFirstEmpty(hs: seq<Piece>): seq<Piece> {
    if hs == [] then [] else if hs[0].len == 0 then hs[1..] else [hs[0]] + DropFirstEmpty(hs[1..])
  }

  function TakeFromHole(hs: seq<Piece>, k: nat, size: nat): seq<Piece>
    requires k < |hs| && size <= hs[k].len
  {
    var rest := Piece(hs[k].base + size, hs[k].len - size, hs[k].id);
    if rest.len == 0 then DropFirstEmpty(hs[k := rest]) else hs[k := rest]
  }

  function Place(l: Layout, pid: int, size: nat, id: int, k: nat): Layout
    requires pid in l.tables && k < |l.holes| && size <= l.holes[k].len
  {
    var segment := Piece(l.holes[k].base, size, id);
    l.(ram := l.ram + [segment],
       holes := TakeFromHole(l.holes, k, size),
       tables := l.tables[pid := l.tables[pid] + [segment]],
       remaining := l.remaining - size)
  }

  /** The new layout and the answer: the segment's base, -1 (compact first) or -2 (no room). */
  function AddSegment(alg: Algorithm, l: Layout, pid: int, size: nat, id: int): (r: (Layout, int))
    requires pid in l.tables
  {
    if l.remaining < size then (l, -2 as int)
    else
      var k := Pick(alg, l.holes, size);
      if k == -1 then (l, -1) else (Place(l, pid, size, id, k), l.holes[k].base)
  }

  // ----- deleting a segment

  /** The first entry of `ram` after segment zero with this base, or -1. */
  function FindBase(ram: seq<Piece>, base: nat, from: nat): (k: int)
    ensures k == -1 || from <= k < |ram|
    ensures k != -1 ==> ram[k].base == base && forall j :: from <= j < k ==> ram[j].base != base
    ensures k == -1 ==> forall j :: from <= j < |ram| ==> ram[j].base != base
    decreases |ram| - from
  {
    if from >= |ram| then -1
    else if ram[from].base == base then from
    else FindBase(ram, base, from + 1)
  }

  function DeleteAt(l: Layout, pid: int, i: nat): Layout
    requires pid in l.tables && i < |l.tables[pid]|
  {
    var segment := l.tables[pid][i];
    var k := FindBase(l.ram, segment.base, 1);
    l.(ram := if k == -1 then l.ram else RemoveAt(l.ram, k),
       holes := MergeFrom(l.holes + [segment], 0),
       tables := l.tables[pid := RemoveAt(l.tables[pid], i)],
       remaining := l.remaining + segment.len)
  }

  function DeleteSegment(l: Layout, pid: int, id: int): Layout
    requires pid in l.tables && FindFrom(l.tables[pid], id, 1) != -1
  {
    DeleteAt(l, pid, FindFrom(l.tables[pid], id, 1))
  }

  /** Deletes by the id of the last segment while the table has more than segment zero. */
  function ClearTable(l: Layout, pid: int): (r: Layout)
    requires pid in l.tables && |l.tables[pid]| > 0
    ensures pid in r.tables && |r.tables[pid]| == 1
    decreases |l.tables[pid]|
  {
    var t := l.tables[pid];
    if |t| == 1 then l
    else
      assert FindFrom(t, t[|t| - 1].id, 1) != -1;
      ClearTable(DeleteSegment(l, pid, t[|t| - 1].id), pid)
  }

  function RemoveTable(l: Layout, pid: int): Layout
    requires pid in l.tables && |l.tables[pid]| > 0
  {
    var cleared := ClearTable(l, pid);
    cleared.(tables := cleared.tables - {pid})
  }

  // ----- compaction

  function Insert(p: Piece, ps: seq<Piece>): seq<Piece> {
    if ps == [] || p.base <= ps[0].base then [p] + ps else [ps[0]] + Insert(p, ps[1..])
  }

  function SortByBase(ps: seq<Piece>): seq<Piece> {
    if ps == [] then [] else Insert(ps[0], SortByBase(ps[1..]))
  }

  /** Every piece starts where the previous one ends, the first at 0. */
  function Pack(ps: seq<Piece>): seq<Piece> {
    seq(|ps|, k requires 0 <= k < |ps| => ps[k].(base := Total(ps[..k])))
  }

  function Move(bytes: seq<Byte>, from: nat, to: nat, len: nat): seq<Byte>
    requires from + len <= |bytes| && to + len <= |bytes|
    ensures |Move(bytes, from, to, len)| == |bytes|
  {
    bytes[..to] + bytes[from..from + len] + bytes[to + len..]
  }

  predicate Precedes(p: Piece, q: Piece) {
    p.End() <= q.base
  }

  ghost predicate InOrder(ps: seq<Piece>) {
    forall i, j {:trigger Precedes(ps[i], ps[j])} :: 0 <= i < j < |ps| ==> Precedes(ps[i], ps[j])
  }

  /** Address-ordered pieces that do not overlap, the first at 0. */
  ghost predicate Ascending(ps: seq<Piece>) {
    (|ps| > 0 ==> ps[0].base == 0) && InOrder(ps)
  }

  /** The bytes after pieces 1 .. n-1 of `ps` were copied down, one after the other. */
  ghost function MoveDown(bytes: seq<Byte>, ps: seq<Piece>, n: nat): (r: seq<Byte>)
    requires n <= |ps| && Ascending(ps) && AllBelow(ps, |bytes|)
    ensures |r| == |bytes|
  {
    if n <= 1 then bytes
    else
      PackIsLower(ps, n - 1);
      Move(MoveDown(bytes, ps, n - 1), ps[n - 1].base, Total(ps[..n - 1]), ps[n - 1].len)
  }

  /** Where a segment that started at `base` starts after packing `ps`. */
  function NewBase(ps: seq<Piece>, base: nat): nat {
    if ps == [] || ps[0].base >= base then 0 else ps[0].len + NewBase(ps[1..], base)
  }

  function Rebase(ps: seq<Piece>, t: seq<Piece>): seq<Piece> {
    seq(|t|, i requires 0 <= i < |t| => t[i].(base := NewBase(ps, t[i].base)))
  }

  /** The single hole starts one byte after the packed end. */
  ghost function Compact(l: Layout): Layout
    requires Inv(l)
  {
    SortIsAscending(l.ram, |l.bytes|);
    var ps := SortByBase(l.ram);
    l.(bytes := MoveDown(l.bytes, ps, |ps|),
       ram := Pack(ps),
       holes := [Piece(Total(ps) + 1, l.remaining, 0)],
       tables := map pid | pid in l.tables :: Rebase(ps, l.tables[pid]))
  }

  // ----- reading and writing

  /** The bytes a piece occupies. */
  function Slice(bytes: seq<Byte>, p: Piece): seq<Byte> {
    if p.End() <= |bytes| then bytes[p.base..p.End()] else []
  }

  /** The piece `(pid, id)` names and whether `[offset, offset + size)` passes the bound check. */
  function Access(l: Layout, pid: int, id: int, offset: nat, size: nat): (k: int)
    requires pid in l.tables
    ensures k == -1 || (0 <= k < |l.tables[pid]| && offset + size <= l.tables[pid][k].len)
  {
    var k := FindFrom(l.tables[pid], id, 0);
    if k == -1 || offset + size > l.tables[pid][k].len then -1 else k
  }

  // ----- lemmas: sorting and packing

  lemma {:induction false} TotalSnoc(ps: seq<Piece>, k: nat)
    requires k < |ps|
    ensures Total(ps[..k + 1]) == Total(ps[..k]) + ps[k].len
  {
    assert ps[..k + 1] == ps[..k] + [ps[k]];
    TotalAppend(ps[..k], ps[k]);
  }

  lemma {:induction false} PackIsLower(ps: seq<Piece>, k: nat)
    requires k < |ps| && Ascending(ps)
    ensures Total(ps[..k]) <= ps[k].base
  {
    if k > 0 {
      PackIsLower(ps, k - 1);
      TotalSnoc(ps, k - 1);
      assert Precedes(ps[k - 1], ps[k]);
    }
  }

  ghost predicate Ordered(ps: seq<Piece>) {
    forall i, j :: 0 <= i < j < |ps| ==> ps[i].base <= ps[j].base
  }

  lemma {:induction false} InsertKeepsElements(p: Piece, ps: seq<Piece>)
    ensures |Insert(p, ps)| == |ps| + 1
    ensures multiset(Insert(p, ps)) == multiset([p]) + multiset(ps)
    ensures Total(Insert(p, ps)) == p.len + Total(ps)
  {
    if ps == [] || p.base <= ps[0].base {
      assert ([p] + ps)[1..] == ps;
    } else {
      InsertKeepsElements(p, ps[1..]);
      assert ps == [ps[0]] + ps[1..];
      assert ([ps[0]] + Insert(p, ps[1..]))[1..] == Insert(p, ps[1..]);
    }
  }

  lemma {:induction false} InsertKeepsOrder(p: Piece, ps: seq<Piece>)
    requires Ordered(ps)
    ensures Ordered(Insert(p, ps))
  {
    if ps == [] || p.base <= ps[0].base {
    } else {
      var rest := Insert(p, ps[1..]);
      InsertKeepsOrder(p, ps[1..]);
      InsertKeepsElements(p, ps[1..]);
      forall j | 0 <= j < |rest| ensures ps[0].base <= rest[j].base {
        assert rest[j] in multiset(rest);
        assert rest[j] == p || rest[j] in ps[1..];
      }
    }
  }

  lemma {:induction false} InsertKeepsApart(p: Piece, ps: seq<Piece>)
    requires AllApart(ps) && forall j :: 0 <= j < |ps| ==> Apart(p, ps[j])
    ensures AllApart(Insert(p, ps))
  {
    if ps == [] || p.base <= ps[0].base {
    } else {
      var rest := Insert(p, ps[1..]);
      InsertKeepsApart(p, ps[1..]);
      InsertKeepsElements(p, ps[1..]);
      forall j | 0 <= j < |rest| ensures Apart(ps[0], rest[j]) {
        assert rest[j] in multiset(rest);
        assert rest[j] == p || rest[j] in ps[1..];
      }
    }
  }

  lemma {:induction false} SortKeepsElements(ps: seq<Piece>)
    ensures |SortByBase(ps)| == |ps|
    ensures multiset(SortByBase(ps)) == multiset(ps)
    ensures Total(SortByBase(ps)) == Total(ps)
  {
    if ps != [] {
      SortKeepsElements(ps[1..]);
      InsertKeepsElements(ps[0], SortByBase(ps[1..]));
      assert ps == [ps[0]] + ps[1..];
    }
  }

  lemma {:induction false} SortOrders(ps: seq<Piece>)
    ensures Ordered(SortByBase(ps))
  {
    if ps != [] {
      SortOrders(ps[1..]);
      InsertKeepsOrder(ps[0], SortByBase(ps[1..]));
    }
  }

  lemma {:induction false} SortKeepsApart(ps: seq<Piece>)
    requires AllApart(ps)
    ensures AllApart(SortByBase(ps))
  {
    if ps != [] {
      var rest := SortByBase(ps[1..]);
      SortKeepsApart(ps[1..]);
      SortKeepsElements(ps[1..]);
      forall j | 0 <= j < |rest| ensures Apart(ps[0], rest[j]) {
        assert rest[j] in multiset(rest);
        assert rest[j] in ps[1..];
      }
      InsertKeepsApart(ps[0], rest);
    }
  }

  lemma SortMembers(ps: seq<Piece>)
    ensures forall p :: p in SortByBase(ps) <==> p in ps
  {
    SortKeepsElements(ps);
    forall p ensures p in SortByBase(ps) <==> p in ps {
      assert p in multiset(SortByBase(ps)) <==> p in multiset(ps);
    }
  }

  /** `more_close_to_heap` orders live segments without ties; segment zero stays first. */
  lemma SortIsAscending(ps: seq<Piece>, limit: int)
    requires |ps| > 0 && ps[0].base == 0 && AllNonEmpty(ps) && AllApart(ps) && AllBelow(ps, limit)
    ensures |SortByBase(ps)| == |ps| && SortByBase(ps)[0] == ps[0]
    ensures Ascending(SortByBase(ps))
    ensures AllNonEmpty(SortByBase(ps)) && AllBelow(SortByBase(ps), limit)
  {
    var ss := SortByBase(ps);
    SortKeepsElements(ps);
    SortOrders(ps);
    SortKeepsApart(ps);
    forall k | 0 <= k < |ss| ensures ss[k].len > 0 && ss[k].End() <= limit {
      SortMembers(ps);
      assert ss[k] in ps;
    }
    forall i, j | 0 <= i < j < |ss| ensures Precedes(ss[i], ss[j]) {
      assert Apart(ss[i], ss[j]);
    }
  }
}
