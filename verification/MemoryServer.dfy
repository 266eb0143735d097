/**
 The memory server as the source has it: segment objects shared between `ram` and the
 process tables, a hole list, and raw bytes changed in place. Each method is proved to do
 to the state's value (`View`) what the layout function of the same request does.
 */
module MemoryServer {
  import opened Options
  import opened Bytes
  import opened Pieces
  import opened Layout
  import Ops = Layout
  import opened LayoutInvariant
  import opened CompactionProofs
  import opened ProcessView
  import opened MemoryRuns

  /** `t_segment`, also used for holes. */
  class Segment {
    var base: nat
    var offset: nat
    var sId: int

    constructor (base: nat, offset: nat, sId: int)
      ensures Val(this) == Piece(base, offset, sId)
    {
      this.base, this.offset, this.sId := base, offset, sId;
    }
  }

  function Val(s: Segment): Piece
    reads s
  {
    Piece(s.base, s.offset, s.sId)
  }

  function Vals(ss: seq<Segment>): seq<Piece>
    reads ss
  {
    seq(|ss|, i requires 0 <= i < |ss| reads ss => Val(ss[i]))
  }

  ghost predicate NoRepeats(ss: seq<Segment>) {
    forall i, j :: 0 <= i < j < |ss| ==> ss[i] != ss[j]
  }

  lemma ValsRemove(ss: seq<Segment>, e: nat)
    requires e < |ss|
    ensures Vals(RemoveAt(ss, e)) == RemoveAt(Vals(ss), e)
    ensures NoRepeats(ss) ==> NoRepeats(RemoveAt(ss, e))
    ensures forall s :: s in RemoveAt(ss, e) ==> s in ss
  {
  }

  lemma ValsAppend(ss: seq<Segment>, s: Segment)
    ensures Vals(ss + [s]) == Vals(ss) + [Val(s)]
    ensures NoRepeats(ss) && s !in ss ==> NoRepeats(ss + [s])
  {
  }

  /** Segments whose fields did not change have the values they had. */
  twostate lemma ValsSame(ss: seq<Segment>)
    requires forall s :: s in ss ==> Val(s) == old(Val(s))
    ensures Vals(ss) == old(Vals(ss))
  {
  }

  lemma ChosenIsPick(alg: Algorithm, hs: seq<Piece>, size: nat, k: int)
    requires (k == -1 && NoneFits(hs, size)) || Chosen(alg, hs, size, k)
    ensures k == Pick(alg, hs, size)
  {
  }

  lemma {:induction false} DropFirstEmptyAt(hs: seq<Piece>, e: nat)
    requires e < |hs| && hs[e].len == 0 && forall j :: 0 <= j < e ==> hs[j].len != 0
    ensures DropFirstEmpty(hs) == RemoveAt(hs, e)
  {
    if e > 0 {
      DropFirstEmptyAt(hs[1..], e - 1);
    }
  }

  // ----- list_sort with more_close_to_heap

  lemma {:induction false} InsertIs(p: Piece, ps: seq<Piece>, at: nat)
    requires at <= |ps| && (at < |ps| ==> p.base <= ps[at].base)
    requires forall j :: 0 <= j < at ==> ps[j].base < p.base
    ensures Insert(p, ps) == ps[..at] + [p] + ps[at..]
  {
    if at > 0 {
      InsertIs(p, ps[1..], at - 1);
    }
  }

  lemma InsertNoRepeats(ss: seq<Segment>, s: Segment, at: nat)
    requires NoRepeats(ss) && s !in ss && at <= |ss|
    ensures NoRepeats(ss[..at] + [s] + ss[at..])
    ensures forall x :: x in ss[..at] + [s] + ss[at..] <==> x == s || x in ss
  {
    var r := ss[..at] + [s] + ss[at..];
    forall i, j | 0 <= i < j < |r| ensures r[i] != r[j] {
      if i == at {
        assert r[j] == ss[j - 1];
      } else if j == at {
        assert r[i] == ss[i];
      } else {
        assert r[i] == ss[if i < at then i else i - 1] && r[j] == ss[if j < at then j else j - 1];
      }
    }
    forall x | x in ss ensures x in r {
      var k :| 0 <= k < |ss| && ss[k] == x;
      assert r[if k < at then k else k + 1] == x;
    }
  }

  /** `s` put before the first segment that does not start below it. */
  method InsertSegment(s: Segment, ss: seq<Segment>) returns (r: seq<Segment>)
    requires NoRepeats(ss) && s !in ss
    ensures Vals(r) == Insert(Val(s), Vals(ss))
    ensures NoRepeats(r) && forall x :: x in r <==> x == s || x in ss
  {
    var at := 0;
    while at < |ss| && ss[at].base < s.base
      invariant 0 <= at <= |ss| && forall j :: 0 <= j < at ==> ss[j].base < s.base
    {
      at := at + 1;
    }
    InsertIs(Val(s), Vals(ss), at);
    r := ss[..at] + [s] + ss[at..];
    assert Vals(r) == Vals(ss)[..at] + [Val(s)] + Vals(ss)[at..];
    InsertNoRepeats(ss, s, at);
  }

  method SortSegments(ss: seq<Segment>) returns (r: seq<Segment>)
    requires NoRepeats(ss)
    ensures Vals(r) == SortByBase(Vals(ss))
    ensures NoRepeats(r) && forall s :: s in r <==> s in ss
  {
    r := [];
    var i := |ss|;
    while i > 0
      invariant 0 <= i <= |ss|
      invariant Vals(r) == SortByBase(Vals(ss)[i..])
      invariant NoRepeats(r) && forall s :: s in r <==> s in ss[i..]
    {
      i := i - 1;
      assert ss[i] !in ss[i + 1..];
      assert Vals(ss)[i..][1..] == Vals(ss)[i + 1..];
      assert ss[i..] == [ss[i]] + ss[i + 1..];
      r := InsertSegment(ss[i], r);
    }
  }

  lemma Separated(ram: seq<Segment>, holes: seq<Segment>, k: nat)
    requires NoRepeats(ram) && NoRepeats(holes) && k < |ram| && forall s :: s in ram ==> s !in holes
    ensures forall s :: s in RemoveAt(ram, k) ==> s !in holes + [ram[k]]
    ensures NoRepeats(holes + [ram[k]])
  {
    forall s | s in RemoveAt(ram, k) ensures s !in holes + [ram[k]] {
      var i :| 0 <= i < |RemoveAt(ram, k)| && RemoveAt(ram, k)[i] == s;
      assert s == ram[if i < k then i else i + 1];
    }
    assert ram[k] in ram;
  }

  /** The values in `l` are those the objects of `ram` and `tables` had: same object, same value. */
  ghost predicate Linked(l: Layout, ram: seq<Segment>, tables: map<int, seq<Segment>>) {
    && |l.ram| == |ram| && l.tables.Keys == tables.Keys
    && (forall q :: q in tables ==> |l.tables[q]| == |tables[q]|)
    && (forall q, j :: q in tables && 0 <= j < |tables[q]| ==> tables[q][j] in ram)
    && (forall q, j, m | q in tables && 0 <= j < |tables[q]| && 0 <= m < |ram| && tables[q][j] == ram[m] ::
          l.tables[q][j] == l.ram[m])
  }

  class MemoryServer {
    const memorySize: nat
    const algorithm: Algorithm
    const heap: array<Byte>
    const segmentZero: Segment
    var ram: seq<Segment>
    var holes: seq<Segment>
    var tables: map<int, seq<Segment>>
    var remaining: int

    /** Which objects are shared, and which are not. */
    ghost predicate Wired()
      reads this
    {
      && |ram| > 0 && ram[0] == segmentZero
      && NoRepeats(ram) && NoRepeats(holes)
      && (forall s :: s in ram ==> s !in holes)
      && (forall pid, i :: pid in tables && 0 <= i < |tables[pid]| ==> tables[pid][i] in ram)
    }

    ghost function View(): Layout
      requires Wired()
      reads this, heap, ram, holes
    {
      Layout(memorySize, heap[..], Vals(ram), Vals(holes), map pid | pid in tables :: Vals(tables[pid]), remaining)
    }

    ghost predicate Valid()
      reads this, heap, ram, holes
    {
      Wired() && Inv(View())
    }

    /** The segment objects in use. */
    ghost function Used(): set<Segment>
      reads this
    {
      (set s | s in ram) + (set s | s in holes)
    }

    lemma ViewIs(l: Layout)
      requires Wired() && l.size == memorySize && l.bytes == heap[..] && l.remaining == remaining
      requires l.ram == Vals(ram) && l.holes == Vals(holes)
      requires l.tables.Keys == tables.Keys && forall pid :: pid in tables ==> l.tables[pid] == Vals(tables[pid])
      ensures View() == l
    {
      var v := View().tables;
      assert v.Keys == l.tables.Keys;
      forall pid | pid in tables ensures v[pid] == l.tables[pid] {
        assert v[pid] == Vals(tables[pid]);
      }
      assert v == l.tables;
    }

    constructor (memorySize: nat, zeroSize: nat, algorithm: Algorithm)
      requires 0 < zeroSize <= memorySize
      ensures Valid() && fresh(heap) && fresh(Used())
      ensures this.memorySize == memorySize && this.algorithm == algorithm
      ensures View() == Initial(memorySize, zeroSize, heap[..])
    {
      this.memorySize, this.algorithm := memorySize, algorithm;
      heap := new Byte[memorySize + 2];
      var zero := new Segment(0, zeroSize, 0);
      var hole := new Segment(zeroSize, memorySize - zeroSize, 0);
      segmentZero := zero;
      ram, holes, tables, remaining := [zero], [hole], map[], memorySize - zeroSize;
      new;
      InitialInv(memorySize, zeroSize, heap[..]);
      assert Vals(ram) == [Piece(0, zeroSize, 0)];
      assert Vals(holes) == [Piece(zeroSize, memorySize - zeroSize, 0)];
      assert View() == Initial(memorySize, zeroSize, heap[..]);
    }

    // ----- process tables

    method CreateSgTable(pid: int) returns (table: seq<Segment>)
      requires Valid() && pid !in tables
      modifies this`tables
      ensures Valid() && View() == CreateTable(old(View()), pid)
      ensures Vals(table) == [old(View()).ram[0]]
    {
      ghost var l := View();
      CreateTableInv(l, pid);
      table := [segmentZero];
      tables := tables[pid := table];
      ViewIs(CreateTable(l, pid));
    }

    // ----- creating a segment

    /** Drops the first empty hole of the list. */
    method RemoveEmptyHole(ghost k: nat)
      requires k < |holes| && holes[k].offset == 0 && NoRepeats(holes)
      modifies this`holes
      ensures NoRepeats(holes) && forall s :: s in holes ==> s in old(holes)
      ensures Vals(holes) == DropFirstEmpty(old(Vals(holes)))
    {
      var e := 0;
      while holes[e].offset != 0
        invariant e <= k
        invariant forall j :: 0 <= j < e ==> holes[j].offset != 0
        decreases k - e
      {
        e := e + 1;
      }
      DropFirstEmptyAt(Vals(holes), e);
      ValsRemove(holes, e);
      holes := RemoveAt(holes, e);
    }

    /** Cuts `size` bytes off the front of hole `k`, and drops an empty hole if that used it up. */
    method TakeHole(k: nat, size: nat)
      requires k < |holes| && size <= holes[k].offset && NoRepeats(holes)
      modifies this`holes, holes[k]
      ensures NoRepeats(holes) && forall s :: s in holes ==> s in old(holes)
      ensures Vals(holes) == TakeFromHole(old(Vals(holes)), k, size)
    {
      ghost var hs := Vals(holes);
      holes[k].base := holes[k].base + size;
      holes[k].offset := holes[k].offset - size;
      assert Vals(holes) == hs[k := Piece(hs[k].base + size, hs[k].len - size, hs[k].id)];
      if holes[k].offset == 0 {
        RemoveEmptyHole(k);
      }
    }

    /** What the three algorithms do once they have a hole: a segment at its front. */
    method PlaceIn(pid: int, size: nat, sId: int, k: nat) returns (segment: Segment)
      requires Wired() && pid in tables && k < |holes| && 0 < size <= holes[k].offset
      modifies this`ram, this`holes, this`tables, holes[k]
      ensures Wired() && fresh(segment) && ram == old(ram) + [segment]
      ensures forall s :: s in holes ==> s in old(holes)
      ensures View() == Place(old(View()), pid, size, sId, k).(remaining := remaining)
      ensures segment.base == old(holes[k].base)
    {
      ghost var l := View();
      var hole := holes[k];
      segment := new Segment(hole.base, size, sId);
      tables := tables[pid := tables[pid] + [segment]];
      ram := ram + [segment];
      TakeHole(k, size);
      assert forall s :: s in old(ram) ==> s != hole && Val(s) == old(Val(s));
      ValsSame(old(ram));
      ValsAppend(old(ram), segment);
      forall q | q in old(tables) ensures Vals(old(tables)[q]) == l.tables[q] {
        ValsSame(old(tables)[q]);
      }
      ValsAppend(old(tables)[pid], segment);
      ViewIs(Place(l, pid, size, sId, k).(remaining := remaining));
    }

    method FirstFit(pid: int, size: nat, sId: int) returns (segment: Segment?)
      requires Valid() && pid in tables && size > 0
      modifies this`ram, this`holes, this`tables, holes
      ensures Wired() && FitResult(First, old(View()), pid, size, sId, segment, View())
      ensures segment == null ==> ram == old(ram)
      ensures segment != null ==> fresh(segment) && ram == old(ram) + [segment]
      ensures forall s :: s in holes ==> s in old(holes)
    {
      var i := 0;
      while i < |holes|
        invariant 0 <= i <= |holes|
        invariant forall j :: 0 <= j < i ==> holes[j].offset < size
      {
        if holes[i].offset >= size {
          ChosenIsPick(First, Vals(holes), size, i);
          segment := PlaceIn(pid, size, sId, i);
          return;
        }
        i := i + 1;
      }
      ChosenIsPick(First, Vals(holes), size, -1);
      segment := null;
    }

    method BestFit(pid: int, size: nat, sId: int) returns (segment: Segment?)
      requires Valid() && pid in tables && size > 0
      modifies this`ram, this`holes, this`tables, holes
      ensures Wired() && FitResult(Best, old(View()), pid, size, sId, segment, View())
      ensures segment == null ==> ram == old(ram)
      ensures segment != null ==> fresh(segment) && ram == old(ram) + [segment]
      ensures forall s :: s in holes ==> s in old(holes)
    {
      var best := -1;
      for i := 0 to |holes|
        invariant best == -1 ==> NoneFits(Vals(holes)[..i], size)
        invariant best != -1 ==> best < i && Chosen(Best, Vals(holes)[..i], size, best)
      {
        assert Vals(holes)[..i + 1] == Vals(holes)[..i] + [Val(holes[i])];
        if holes[i].offset >= size {
          if best == -1 || holes[i].offset < holes[best].offset {
            best := i;
          }
        }
      }
      assert Vals(holes)[..|holes|] == Vals(holes);
      ChosenIsPick(Best, Vals(holes), size, best);
      if best != -1 {
        segment := PlaceIn(pid, size, sId, best);
      } else {
        segment := null;
      }
    }

    method WorstFit(pid: int, size: nat, sId: int) returns (segment: Segment?)
      requires Valid() && pid in tables && size > 0
      modifies this`ram, this`holes, this`tables, holes
      ensures Wired() && FitResult(Worst, old(View()), pid, size, sId, segment, View())
      ensures segment == null ==> ram == old(ram)
      ensures segment != null ==> fresh(segment) && ram == old(ram) + [segment]
      ensures forall s :: s in holes ==> s in old(holes)
    {
      var worst := -1;
      for i := 0 to |holes|
        invariant worst == -1 ==> NoneFits(Vals(holes)[..i], size)
        invariant worst != -1 ==> worst < i && Chosen(Worst, Vals(holes)[..i], size, worst)
      {
        assert Vals(holes)[..i + 1] == Vals(holes)[..i] + [Val(holes[i])];
        if holes[i].offset >= size {
          if worst == -1 || holes[i].offset > holes[worst].offset {
            worst := i;
          }
        }
      }
      assert Vals(holes)[..|holes|] == Vals(holes);
      ChosenIsPick(Worst, Vals(holes), size, worst);
      if worst != -1 {
        segment := PlaceIn(pid, size, sId, worst);
      } else {
        segment := null;
      }
    }

    /** A fit takes the hole its algorithm picks, or none; the counter is the caller's to update. */
    ghost predicate FitResult(alg: Algorithm, l: Layout, pid: int, size: nat, sId: int, segment: Segment?, l': Layout)
      requires pid in l.tables
      reads segment
    {
      var k := Pick(alg, l.holes, size);
      && (k == -1 ==> segment == null && l' == l)
      && (k != -1 ==> segment != null && segment.base == l.holes[k].base)
      && (k != -1 ==> l' == Place(l, pid, size, sId, k).(remaining := l.remaining))
    }

    /** Runs the configured algorithm. */
    method Fit(pid: int, size: nat, sId: int) returns (segment: Segment?)
      requires Valid() && pid in tables && size > 0
      modifies this`ram, this`holes, this`tables, holes
      ensures Wired() && FitResult(algorithm, old(View()), pid, size, sId, segment, View())
      ensures segment == null ==> ram == old(ram)
      ensures segment != null ==> fresh(segment) && ram == old(ram) + [segment]
      ensures forall s :: s in holes ==> s in old(holes)
    {
      match algorithm {
        case Best => segment := BestFit(pid, size, sId);
        case First => segment := FirstFit(pid, size, sId);
        case Worst => segment := WorstFit(pid, size, sId);
      }
    }

    /** The counter follows once the segment is in place. */
    method Reserve(size: nat, ghost l: Layout)
      requires Wired() && Inv(l) && View() == l.(remaining := l.remaining + size)
      modifies this`remaining
      ensures Valid() && View() == l
    {
      remaining := remaining - size;
      ViewIs(l);
    }

    method AddSegment(pid: int, size: nat, sId: int) returns (answer: int)
      requires Valid() && pid in tables && size > 0
      modifies this`ram, this`holes, this`tables, this`remaining, holes
      ensures Valid() && fresh(Used() - old(Used()))
      ensures (View(), answer) == Ops.AddSegment(algorithm, old(View()), pid, size, sId)
    {
      ghost var l := View();
      if remaining >= size {
        var segment := Fit(pid, size, sId);
        if segment != null {
          ghost var k := Pick(algorithm, l.holes, size);
          PlaceInv(l, pid, size, sId, k);
          answer := segment.base;
          Reserve(size, Place(l, pid, size, sId, k));
        } else {
          answer := -1;
        }
      } else {
        answer := -2;
      }
    }

    // ----- deleting

    method CompactHoleList()
      requires NoRepeats(holes)
      modifies this`holes, holes
      ensures NoRepeats(holes) && forall s :: s in holes ==> s in old(holes)
      ensures Vals(holes) == MergeFrom(old(Vals(holes)), 0)
    {
      if |holes| != 1 {
        var i := 0;
        while i < |holes|
          invariant 0 <= i <= |holes| + 1
          invariant NoRepeats(holes) && forall s :: s in holes ==> s in old(holes)
          invariant MergeFrom(Vals(holes), i) == MergeFrom(old(Vals(holes)), 0)
          decreases |holes| - i
        {
          if i < |holes| - 1 {
            var current, next := holes[i], holes[i + 1];
            if current.base + current.offset == next.base {
              ghost var hs := Vals(holes);
              assert current in holes;
              current.offset := current.offset + next.offset;
              assert Vals(holes) == hs[i := hs[i].(len := hs[i].len + hs[i + 1].len)];
              ValsRemove(holes, i + 1);
              holes := RemoveAt(holes, i + 1);
              i := i + 1;
            }
          }
          i := i + 1;
        }
      }
    }

    /** The object behind a table entry is the one at the position of `ram` with its value. */
    lemma ObjectAt(pid: int, i: nat, k: nat)
      requires Valid() && pid in tables && i < |tables[pid]|
      requires k < |ram| && View().ram[k] == View().tables[pid][i]
      ensures tables[pid][i] == ram[k]
    {
      var l := View();
      var m :| 0 <= m < |ram| && ram[m] == tables[pid][i];
      assert l.ram[m] == Val(ram[m]) && l.tables[pid][i] == Val(tables[pid][i]);
      if m != k {
        LivePiecesDiffer(l.ram, m, k);
      }
    }

    /** Distinct entries of the tables are distinct objects, but for segment zero. */
    lemma EntriesDiffer(pid: int, i: nat, q: int, j: nat)
      requires Valid() && IsOwn(View().tables, pid, i) && q in tables && j < |tables[q]|
      requires pid != q || i != j
      ensures tables[pid][i] != tables[q][j]
    {
      var l := View();
      assert l.tables[pid][i] == Val(tables[pid][i]) && l.tables[q][j] == Val(tables[q][j]);
      if l.tables[pid][i] == l.tables[q][j] {
        SamePieceSameEntry(l, pid, i, q, j);
      }
    }

    lemma LinkedNow()
      requires Valid()
      ensures Linked(View(), ram, tables)
    {
      var l := View();
      forall q, j, m | q in tables && 0 <= j < |tables[q]| && 0 <= m < |ram| && tables[q][j] == ram[m]
        ensures l.tables[q][j] == l.ram[m]
      {
        assert l.tables[q][j] == Val(tables[q][j]) && l.ram[m] == Val(ram[m]);
      }
    }

    /** What deleting entry `i` of a table will meet. */
    lemma DeletePlan(pid: int, i: nat) returns (k: nat)
      requires Valid() && IsOwn(View().tables, pid, i)
      ensures Inv(DeleteAt(View(), pid, i))
      ensures 1 <= k < |ram| && k == FindBase(View().ram, View().tables[pid][i].base, 1) && ram[k] == tables[pid][i]
      ensures forall q, j :: q in tables && 0 <= j < |tables[q]| && (q != pid || j != i) ==> tables[q][j] != ram[k]
    {
      var l := View();
      DeleteInv(l, pid, i);
      k := FindBase(l.ram, l.tables[pid][i].base, 1);
      ObjectAt(pid, i, k);
      forall q, j | q in tables && 0 <= j < |tables[q]| && (q != pid || j != i) ensures tables[q][j] != ram[k] {
        EntriesDiffer(pid, i, q, j);
      }
    }

    /** Without the object at `k` in `ram` and in its table, everything is wired as before. */
    lemma DeletedView(l: Layout, ram0: seq<Segment>, tables0: map<int, seq<Segment>>, pid: int, i: nat, k: nat)
      requires Linked(l, ram0, tables0) && pid in tables0 && 1 <= i < |tables0[pid]|
      requires 1 <= k < |ram0| && ram0[0] == segmentZero && NoRepeats(ram0) &&
               k == FindBase(l.ram, l.tables[pid][i].base, 1)
      requires forall q, j :: q in tables0 && 0 <= j < |tables0[q]| && (q != pid || j != i) ==> tables0[q][j] != ram0[k]
      requires ram == RemoveAt(ram0, k) && tables == tables0[pid := RemoveAt(tables0[pid], i)]
      requires NoRepeats(holes) && forall s :: s in ram ==> s !in holes
      requires Vals(ram) == RemoveAt(l.ram, k)
      requires Vals(holes) == MergeFrom(l.holes + [l.tables[pid][i]], 0)
      requires heap[..] == l.bytes && memorySize == l.size && remaining == l.remaining + l.tables[pid][i].len
      ensures Wired() && View() == DeleteAt(l, pid, i)
    {
      ValsRemove(ram0, k);
      forall q, j | q in tables && 0 <= j < |tables[q]|
        ensures tables[q][j] in ram && Val(tables[q][j]) == DeleteAt(l, pid, i).tables[q][j]
      {
        var j' := if q == pid && j >= i then j + 1 else j;
        assert tables[q][j] == tables0[q][j'];
        StaysInRam(l, ram0, tables0, k, q, j');
      }
      ViewIs(DeleteAt(l, pid, i));
    }

    /** An entry that is not the object removed from `ram` is still there, with its value. */
    lemma StaysInRam(l: Layout, ram0: seq<Segment>, tables0: map<int, seq<Segment>>, k: nat, q: int, j: nat)
      requires Linked(l, ram0, tables0) && k < |ram0| && q in tables0 && j < |tables0[q]| && tables0[q][j] != ram0[k]
      requires ram == RemoveAt(ram0, k) && Vals(ram) == RemoveAt(l.ram, k)
      ensures tables0[q][j] in ram && Val(tables0[q][j]) == l.tables[q][j]
    {
      var m :| 0 <= m < |ram0| && ram0[m] == tables0[q][j];
      var m' := if m < k then m else m - 1;
      assert ram[m'] == ram0[m] && Vals(ram)[m'] == Val(ram[m']);
    }

    /** Takes the first own segment with this id out of its table and out of `ram`; it becomes a hole. */
    method Unlink(pid: int, sId: int, ghost i: nat, ghost k: nat) returns (segment: Segment)
      requires Wired() && pid in tables && i == FindFrom(Vals(tables[pid]), sId, 1) < |tables[pid]|
      requires 1 <= k < |ram| && k == FindBase(Vals(ram), tables[pid][i].base, 1) && ram[k] == tables[pid][i]
      modifies this`ram, this`holes, this`tables, this`remaining
      ensures ram == RemoveAt(old(ram), k) && Vals(ram) == RemoveAt(old(Vals(ram)), k)
      ensures tables == old(tables)[pid := RemoveAt(old(tables)[pid], i)]
      ensures Vals(holes) == old(Vals(holes)) + [Val(old(ram)[k])] && remaining == old(remaining) + old(ram)[k].offset
      ensures NoRepeats(holes) && forall s :: s in ram ==> s !in holes
      ensures holes == old(holes) + [old(ram)[k]]
    {
      var table, at := tables[pid], 1;
      while table[at].sId != sId
        invariant 1 <= at <= i
        decreases i - at
      {
        assert Vals(table)[at].id != sId;
        at := at + 1;
      }
      assert Vals(table)[at].id == sId;
      segment := table[at];
      ValsRemove(ram, k);
      ValsAppend(holes, segment);
      Separated(ram, holes, k);
      remaining := remaining + segment.offset;
      holes := holes + [segment];
      tables := tables[pid := RemoveAt(table, at)];
      var j := 1;
      while j < |ram|
        invariant 1 <= j <= k && ram == old(ram)
      {
        if ram[j].base == segment.base {
          assert Vals(ram)[j].base == segment.base;
          ram := RemoveAt(ram, j);
          break;
        }
        assert Vals(ram)[j].base != segment.base;
        j := j + 1;
      }
    }

    /** The holes are consolidated; nothing else changes. */
    method Settle(ghost l: Layout, ghost ram0: seq<Segment>, ghost tables0: map<int, seq<Segment>>, ghost pid: int,
      ghost i: nat, ghost k: nat)
      requires Linked(l, ram0, tables0) && pid in tables0 && 1 <= i < |tables0[pid]|
      requires 1 <= k < |ram0| && ram0[0] == segmentZero && NoRepeats(ram0) &&
               k == FindBase(l.ram, l.tables[pid][i].base, 1)
      requires forall q, j :: q in tables0 && 0 <= j < |tables0[q]| && (q != pid || j != i) ==> tables0[q][j] != ram0[k]
      requires ram == RemoveAt(ram0, k) && tables == tables0[pid := RemoveAt(tables0[pid], i)]
      requires NoRepeats(holes) && forall s :: s in ram ==> s !in holes
      requires Vals(ram) == RemoveAt(l.ram, k) && Vals(holes) == l.holes + [l.tables[pid][i]]
      requires heap[..] == l.bytes && memorySize == l.size && remaining == l.remaining + l.tables[pid][i].len
      modifies this`holes, holes
      ensures Wired() && View() == DeleteAt(l, pid, i)
      ensures forall s :: s in holes ==> s in old(holes)
    {
      CompactHoleList();
      ValsSame(ram);
      DeletedView(l, ram0, tables0, pid, i, k);
    }

    /** Unlinks entry `i` and consolidates the holes. */
    method Release(pid: int, sId: int, ghost l: Layout, ghost i: nat, ghost k: nat)
      requires Wired() && l == View() && Linked(l, ram, tables)
      requires pid in tables && i == FindFrom(l.tables[pid], sId, 1) < |tables[pid]|
      requires 1 <= k < |ram| && ram[k] == tables[pid][i] && k == FindBase(l.ram, l.tables[pid][i].base, 1)
      requires forall q, j :: q in tables && 0 <= j < |tables[q]| && (q != pid || j != i) ==> tables[q][j] != ram[k]
      modifies this`ram, this`holes, this`tables, this`remaining, Used()
      ensures Wired() && View() == DeleteAt(l, pid, i)
      ensures Used() <= old(Used())
    {
      assert Val(ram[k]) == l.tables[pid][i];
      var segment := Unlink(pid, sId, i, k);
      Settle(l, old(ram), old(tables), pid, i, k);
    }

    method DeleteSegment(pid: int, sId: int)
      requires Valid() && pid in tables && FindFrom(View().tables[pid], sId, 1) != -1
      modifies this`ram, this`holes, this`tables, this`remaining, Used()
      ensures Valid() && View() == Ops.DeleteSegment(old(View()), pid, sId)
      ensures Used() <= old(Used())
    {
      ghost var l := View();
      ghost var i := FindFrom(l.tables[pid], sId, 1);
      assert IsOwn(l.tables, pid, i);
      ghost var k := DeletePlan(pid, i);
      LinkedNow();
      Release(pid, sId, l, i, k);
    }

    /** One round of the removal: deletes by the id of the last segment of the table. */
    method DeleteLast(pid: int, i: nat)
      requires Valid() && pid in tables && i == |tables[pid]| - 1 && i > 0
      modifies this`ram, this`holes, this`tables, this`remaining, Used()
      ensures Valid() && pid in tables && |tables[pid]| == i
      ensures ClearTable(View(), pid) == ClearTable(old(View()), pid)
      ensures Used() <= old(Used())
    {
      ghost var l := View();
      assert l.tables[pid] == Vals(tables[pid]);
      ClearUnfold(l, pid);
      DeleteSegment(pid, tables[pid][i].sId);
      assert View().tables[pid] == Vals(tables[pid]);
      assert |View().tables[pid]| == i;
    }

    method DropTable(pid: int, ghost l: Layout)
      requires Wired() && Inv(l) && pid in l.tables && View() == ClearTable(l, pid)
      modifies this`tables
      ensures Valid() && View() == RemoveTable(l, pid)
    {
      RemoveTableInv(l, pid);
      tables := tables - {pid};
      ViewIs(RemoveTable(l, pid));
    }

    method RemoveSgTable(pid: int)
      requires Valid() && pid in tables
      modifies this`ram, this`holes, this`tables, this`remaining, Used()
      ensures Valid() && View() == RemoveTable(old(View()), pid)
      ensures Used() <= old(Used())
    {
      ghost var l := View();
      var i := |tables[pid]| - 1;
      assert |View().tables[pid]| == |tables[pid]|;
      while |tables[pid]| > 1
        invariant Valid() && pid in tables && i == |tables[pid]| - 1 && i >= 0
        invariant ClearTable(View(), pid) == ClearTable(l, pid)
        invariant Used() <= old(Used())
        decreases |tables[pid]|
      {
        DeleteLast(pid, i);
        i := i - 1;
      }
      assert |View().tables[pid]| == 1;
      DropTable(pid, l);
    }

    // ----- compaction

    method CopyIn(at: nat, data: seq<Byte>)
      requires at + |data| <= heap.Length
      modifies heap
      ensures heap[..] == Splice(old(heap[..]), at, data)
    {
      forall i | 0 <= i < |data| {
        heap[at + i] := data[i];
      }
    }

    /** Copies a segment's bytes out, moves its base and copies them back in. */
    method MoveSegment(s: Segment, to: nat)
      requires s.base + s.offset <= heap.Length && to + s.offset <= heap.Length
      modifies heap, s`base
      ensures s.base == to && heap[..] == Move(old(heap[..]), old(s.base), to, s.offset)
    {
      var buffer := heap[s.base..s.base + s.offset];
      s.base := to;
      CopyIn(to, buffer);
    }

    /** The value of one slide: where entry `i` ends, entry `i + 1` is to start. */
    lemma SlideValues(ps: seq<Piece>, bytes: seq<Byte>, i: nat)
      requires i + 1 < |ps| && Ascending(ps) && AllBelow(ps, |bytes|)
      ensures Pack(ps)[i].End() == Total(ps[..i + 1]) <= ps[i + 1].base && ps[i + 1].End() <= |bytes|
      ensures Pack(ps)[i + 1] == ps[i + 1].(base := Total(ps[..i + 1]))
      ensures MoveDown(bytes, ps, i + 2)
              == Move(MoveDown(bytes, ps, i + 1), ps[i + 1].base, Total(ps[..i + 1]), ps[i + 1].len)
      ensures (Pack(ps)[..i + 1] + ps[i + 1..])[i + 1 := Pack(ps)[i + 1]] == Pack(ps)[..i + 2] + ps[i + 2..]
    {
      PackIsLower(ps, i + 1);
      TotalSnoc(ps, i);
    }

    /** Entry `i + 1` of the sorted `ram` slides down to the end of entry `i`. */
    method SlideNext(ghost ps: seq<Piece>, ghost bytes: seq<Byte>, i: nat)
      requires i + 1 < |ram| && NoRepeats(ram) && |ps| == |ram| && Ascending(ps) && AllBelow(ps, |bytes|)
      requires Vals(ram) == Pack(ps)[..i + 1] + ps[i + 1..] && heap[..] == MoveDown(bytes, ps, i + 1)
      modifies heap, ram[i + 1]
      ensures Vals(ram) == Pack(ps)[..i + 2] + ps[i + 2..] && heap[..] == MoveDown(bytes, ps, i + 2)
    {
      ghost var before := Vals(ram);
      SlideValues(ps, bytes, i);
      var current, next := ram[i], ram[i + 1];
      assert Val(current) == before[i] == Pack(ps)[i] && Val(next) == before[i + 1] == ps[i + 1];
      MoveSegment(next, current.base + current.offset);
      assert forall k :: 0 <= k < |ram| && k != i + 1 ==> ram[k] != next;
      assert Vals(ram) == before[i + 1 := Pack(ps)[i + 1]];
    }

    /** The segments of the sorted `ram` slide down one after the other. */
    method SlideDown(ghost ps: seq<Piece>, ghost bytes: seq<Byte>)
      requires |ram| > 1 && NoRepeats(ram) && Vals(ram) == ps && heap[..] == bytes
      requires Ascending(ps) && AllBelow(ps, |bytes|)
      modifies heap, ram
      ensures Vals(ram) == Pack(ps) && heap[..] == MoveDown(bytes, ps, |ps|)
    {
      assert Pack(ps)[..1] + ps[1..] == ps;
      SlideNext(ps, bytes, 0);
      var i := 1;
      while i < |ram| - 1
        invariant 1 <= i < |ram|
        invariant Vals(ram) == Pack(ps)[..i + 1] + ps[i + 1..] && heap[..] == MoveDown(bytes, ps, i + 1)
      {
        SlideNext(ps, bytes, i);
        i := i + 1;
      }
      assert Pack(ps)[..|ps|] + ps[|ps|..] == Pack(ps);
    }

    /** The objects of the sorted `ram` and the values their tables expect. */
    lemma LinkedAfterSort(l: Layout, ram0: seq<Segment>, ps: seq<Piece>)
      requires Inv(l) && Linked(l, ram0, tables) && Vals(ram0) == l.ram && NoRepeats(ram0)
      requires ps == SortByBase(l.ram) && Vals(ram) == ps && |ram| == |ram0|
      requires forall s :: s in ram <==> s in ram0
      ensures Linked(l.(ram := ps), ram, tables)
    {
      forall q, j, m | q in tables && 0 <= j < |tables[q]| && 0 <= m < |ram| && tables[q][j] == ram[m]
        ensures l.tables[q][j] == ps[m]
      {
        assert ram[m] in ram0;
        var n :| 0 <= n < |ram0| && ram0[n] == ram[m];
        assert l.tables[q][j] == l.ram[n] == Val(ram0[n]) == ps[m];
      }
    }

    /** Segment zero is still the first object of `ram`. */
    lemma ZeroStaysFirst(l: Layout, ram0: seq<Segment>)
      requires Inv(l) && Vals(ram0) == l.ram && |ram0| > 0
      requires Vals(ram) == SortByBase(l.ram) && ram0[0] in ram
      ensures |ram| > 0 && ram[0] == ram0[0]
    {
      SortIsAscending(l.ram, l.size + 1);
      var m :| 0 <= m < |ram| && ram[m] == ram0[0];
      assert Vals(ram)[m] == Val(ram0[0]) == l.ram[0];
      if m > 0 {
        AscendingDiffer(Vals(ram), m, 0);
      }
    }

    lemma CompactFields(l: Layout)
      requires Inv(l)
      ensures var c, ps := Compact(l), SortByBase(l.ram);
              && c == l.(bytes := c.bytes, ram := c.ram, holes := c.holes, tables := c.tables)
              && Ascending(ps) && AllBelow(ps, |l.bytes|) && c.bytes == MoveDown(l.bytes, ps, |ps|)
              && c.ram == Pack(ps) && c.holes == [Piece(Total(ps) + 1, l.remaining, 0)]
              && c.tables.Keys == l.tables.Keys && forall q :: q in l.tables ==> c.tables[q] == Rebase(ps, l.tables[q])
    {
      SortIsAscending(l.ram, |l.bytes|);
    }

    lemma CompactedHole(l: Layout)
      requires Inv(l) && |holes| == 1 && Val(holes[0]) == Piece(Total(SortByBase(l.ram)) + 1, l.remaining, 0)
      ensures Vals(holes) == Compact(l).holes
    {
    }

    /** Sliding moved each table's segment where packing says. */
    lemma CompactedView(l: Layout, ps: seq<Piece>)
      requires Inv(l) && ps == SortByBase(l.ram) && Linked(l.(ram := ps), ram, tables)
      requires Wired() && Vals(ram) == Pack(ps) && |ram| == |ps|
      requires Ascending(ps) && AllBelow(ps, |l.bytes|) && heap[..] == MoveDown(l.bytes, ps, |ps|)
      requires |holes| == 1 && Val(holes[0]) == Piece(Total(ps) + 1, l.remaining, 0)
      requires memorySize == l.size && remaining == l.remaining
      ensures View() == Compact(l)
    {
      SortIsAscending(l.ram, l.size + 1);
      CompactFields(l);
      CompactedHole(l);
      forall q | q in tables ensures Compact(l).tables[q] == Vals(tables[q]) {
        forall j | 0 <= j < |tables[q]| ensures Rebase(ps, l.tables[q])[j] == Val(tables[q][j]) {
          var m :| 0 <= m < |ram| && ram[m] == tables[q][j];
          var k := RebaseAt(l, q, j);
          if k != m {
            AscendingDiffer(ps, k, m);
          }
          assert Vals(ram)[m] == Val(ram[m]);
        }
      }
      ViewIs(Compact(l));
    }

    method SortRam(ghost l: Layout)
      requires Valid() && l == View()
      modifies this`ram
      ensures Wired() && Vals(ram) == SortByBase(l.ram) && |ram| == |l.ram|
      ensures Linked(l.(ram := SortByBase(l.ram)), ram, tables)
      ensures Used() == old(Used()) && heap[..] == l.bytes
    {
      LinkedNow();
      SortKeepsElements(l.ram);
      ram := SortSegments(ram);
      ZeroStaysFirst(l, old(ram));
      LinkedAfterSort(l, old(ram), SortByBase(l.ram));
    }

    /** The sorted segments slide down; one hole replaces all others. */
    method Repack(ghost l: Layout, ghost ps: seq<Piece>)
      requires Wired() && Vals(ram) == ps && |ram| > 1 && heap[..] == l.bytes && remaining == l.remaining >= 0
      requires Ascending(ps) && AllBelow(ps, |l.bytes|) && AllNonEmpty(ps)
      modifies this`holes, heap, ram
      ensures Wired() && Vals(ram) == Pack(ps) && heap[..] == MoveDown(l.bytes, ps, |ps|)
      ensures |holes| == 1 && Val(holes[0]) == Piece(Total(ps) + 1, l.remaining, 0)
      ensures remaining == old(remaining) && fresh(Used() - old(Used()))
    {
      SlideDown(ps, l.bytes);
      PackFacts(ps);
      var last := ram[|ram| - 1];
      assert Val(last) == Pack(ps)[|ps| - 1];
      var hole := new Segment(last.base + last.offset + 1, remaining, 0);
      holes := [hole];
    }

    method RepackSorted(ghost l: Layout)
      requires Wired() && Inv(l) && |ram| > 1 && Vals(ram) == SortByBase(l.ram)
      requires Linked(l.(ram := SortByBase(l.ram)), ram, tables)
      requires heap[..] == l.bytes && memorySize == l.size && remaining == l.remaining
      modifies this`holes, heap, ram
      ensures Wired() && View() == Compact(l) && fresh(Used() - old(Used()))
    {
      ghost var ps := SortByBase(l.ram);
      SortIsAscending(l.ram, |l.bytes|);
      Repack(l, ps);
      CompactedView(l, ps);
    }

    method CompactMemory()
      requires Valid() && |ram| > 1
      modifies this`ram, this`holes, heap, Used()
      ensures Valid() && View() == Compact(old(View())) && fresh(Used() - old(Used()))
    {
      ghost var l := View();
      SortRam(l);
      RepackSorted(l);
      CompactInv(l);
    }

    // ----- reading and writing

    method GetSegmentById(sId: int, pid: int) returns (segment: Segment?, ghost k: int)
      requires Valid() && pid in tables
      ensures k == FindFrom(View().tables[pid], sId, 0)
      ensures if k == -1 then segment == null else k < |tables[pid]| && segment == tables[pid][k]
    {
      var table := tables[pid];
      assert View().tables[pid] == Vals(table);
      var i := 0;
      while i < |table|
        invariant 0 <= i <= |table|
        invariant forall j :: 0 <= j < i ==> Vals(table)[j].id != sId
      {
        segment := table[i];
        if segment.sId == sId {
          assert Vals(table)[i].id == sId;
          k := i;
          return;
        }
        i := i + 1;
      }
      segment, k := null, -1;
    }

    /** One lookup and bound check: where the bytes are, if they may be accessed. */
    method Locate(sId: int, offset: nat, size: nat, pid: int) returns (at: Option<nat>)
      requires Valid() && pid in tables
      ensures var k := Access(View(), pid, sId, offset, size);
              if k == -1 then at == None
              else at == Some(View().tables[pid][k].base + offset) && at.value + size < heap.Length
    {
      var segment, k := GetSegmentById(sId, pid);
      if segment == null {
        return None;
      }
      assert View().tables[pid][k] == Val(segment);
      if segment.base + offset + size > segment.base + segment.offset {
        return None;
      }
      EntryIsLive(View(), pid, k);
      return Some(segment.base + offset);
    }

    /** One round of the read: a fresh lookup and at most 16 bytes. */
    method ReadChunk(sId: int, offset: nat, size: nat, pid: int, done: nat) returns (chunk: Option<seq<Byte>>)
      requires Valid() && pid in tables && done < size
      ensures var whole := ReadAt(View(), pid, sId, offset, size);
              var end := if size - done < 16 then size else done + 16;
              if whole == None then chunk == None else |whole.value| == size && chunk == Some(whole.value[done..end])
    {
      var at := Locate(sId, offset, size, pid);
      if at == None {
        return None;
      }
      var end := if size - done < 16 then size else done + 16;
      SliceOfSlice(heap[..], at.value, size, done, end);
      return Some(heap[..][at.value + done..at.value + end]);
    }

    /** Copies in pieces of at most 16 bytes, looking the segment up again for each. */
    method ReadMemory(sId: int, offset: nat, size: nat, pid: int) returns (buffer: Option<seq<Byte>>)
      requires Valid() && pid in tables && size > 0
      ensures buffer == ReadAt(View(), pid, sId, offset, size)
    {
      ghost var whole := ReadAt(View(), pid, sId, offset, size);
      var sizeRest, count, copied := size, 0, [];
      while sizeRest > 0
        invariant 0 <= sizeRest <= size && |copied| == size - sizeRest
        invariant sizeRest > 0 ==> |copied| == count * 16
        invariant sizeRest < size ==> whole.Some? && |whole.value| == size && copied == whole.value[..|copied|]
        decreases sizeRest
      {
        var chunk := ReadChunk(sId, offset, size, pid, count * 16);
        if chunk == None {
          return None;
        }
        copied := copied + chunk.value;
        sizeRest := sizeRest - |chunk.value|;
        count := count + 1;
      }
      assert copied == whole.value;
      return Some(copied);
    }

    /** Copies the text and the terminator that follows it. */
    method WriteMemory(sId: int, offset: nat, text: seq<Byte>, pid: int) returns (ok: bool)
      requires Valid() && pid in tables
      modifies heap
      ensures Valid() && ok == (Access(old(View()), pid, sId, offset, |text|) != -1)
      ensures ok ==> var p := old(View()).tables[pid][Access(old(View()), pid, sId, offset, |text|)];
                     p.base + offset + |text| < heap.Length && View() == WriteAt(old(View()), p, offset, text)
      ensures !ok ==> View() == old(View())
    {
      ghost var l := View();
      var at := Locate(sId, offset, |text|, pid);
      if at == None {
        return false;
      }
      CopyIn(at.value, text + [0]);
      ViewIs(WriteAt(l, l.tables[pid][Access(l, pid, sId, offset, |text|)], offset, text));
      return true;
    }

    // ----- the dispatcher

    /** `Legal` of the current state. */
    predicate Accepts(req: Request)
      requires Wired()
      reads this, ram, holes, heap
      ensures Accepts(req) == Legal(View(), req)
    {
      assert forall pid :: pid in tables ==> View().tables[pid] == Vals(tables[pid]);
      match req
      case InitProcess(pid) => pid !in tables
      case EndProcess(pid) => pid in tables
      case ReadAddress(pid, _, _, size) => pid in tables && size > 0
      case WriteAddress(pid, _, _, text) => pid in tables && 0 !in text
      case CreateSegment(pid, _, size) => pid in tables && size > 0
      case RemoveSegment(pid, id) => pid in tables && FindFrom(Vals(tables[pid]), id, 1) != -1
      case CompactAll => |ram| > 1
    }

    method Handle(req: Request) returns (reply: Reply)
      requires Valid() && Legal(View(), req)
      modifies this`ram, this`holes, this`tables, this`remaining, heap, Used()
      ensures Valid() && (View(), reply) == Serve(algorithm, old(View()), req)
      ensures fresh(Used() - old(Used()))
    {
      ghost var l := View();
      match req {
        case InitProcess(pid) =>
          var table := CreateSgTable(pid);
          reply := SegmentsTable(Vals(table));
        case EndProcess(pid) =>
          RemoveSgTable(pid);
          reply := OkInstruction;
        case ReadAddress(pid, id, offset, size) =>
          var buffer := ReadMemory(id, offset, size, pid);
          reply := if buffer == None then SegFault else Message(CString(buffer.value));
        case WriteAddress(pid, id, offset, text) =>
          var ok := WriteMemory(id, offset, text, pid);
          reply := if ok then OkInstruction else SegFault;
        case CreateSegment(pid, id, size) =>
          var answer := AddSegment(pid, size, id);
          reply := if answer == -1 then CompactRequest else if answer == -2 then OutOfMemory else Created(answer);
        case RemoveSegment(pid, id) =>
          DeleteSegment(pid, id);
          reply := OkInstruction;
        case CompactAll =>
          CompactMemory();
          reply := AllSegmentsTables(map pid | pid in tables :: Vals(tables[pid]));
          assert reply.tables == View().tables;
      }
    }

    /** The state and the replies so far are those of the run `done` from `l`. */
    ghost predicate Served(l: Layout, done: seq<Request>, replies: seq<Reply>)
      reads this, ram, holes, heap
    {
      && Valid() && Inv(l) && Runs(algorithm, l, done)
      && View() == After(algorithm, l, done) && replies == RepliesOf(algorithm, l, done)
    }

    /** Serves the next request, if the code can carry it out. */
    method HandleNext(ghost l: Layout, reqs: seq<Request>, replies: seq<Reply>)
      returns (going: bool, replies': seq<Reply>)
      requires |replies| < |reqs| && Served(l, reqs[..|replies|], replies)
      modifies this`ram, this`holes, this`tables, this`remaining, heap, Used()
      ensures |replies'| <= |reqs| && Served(l, reqs[..|replies'|], replies') && fresh(Used() - old(Used()))
      ensures |replies'| == if going then |replies| + 1 else |replies|
      ensures !going ==> !Legal(View(), reqs[|replies'|])
    {
      going, replies' := Accepts(reqs[|replies|]), replies;
      if going {
        RunSnoc(algorithm, l, reqs[..|replies|], reqs[|replies|]);
        assert reqs[..|replies| + 1] == reqs[..|replies|] + [reqs[|replies|]];
        var reply := Handle(reqs[|replies|]);
        replies' := replies + [reply];
      }
    }

    /** Serves requests until one that the code cannot carry out. */
    method HandleModules(reqs: seq<Request>) returns (replies: seq<Reply>)
      requires Valid()
      modifies this`ram, this`holes, this`tables, this`remaining, heap, Used()
      ensures |replies| <= |reqs| && Served(old(View()), reqs[..|replies|], replies)
      ensures |replies| < |reqs| ==> !Legal(View(), reqs[|replies|])
    {
      ghost var l := View();
      var going := true;
      replies := [];
      while going && |replies| < |reqs|
        invariant |replies| <= |reqs| && Served(l, reqs[..|replies|], replies)
        invariant !going ==> |replies| < |reqs| && !Legal(View(), reqs[|replies|])
        invariant fresh(Used() - old(Used()))
        decreases |reqs| - |replies|, going
      {
        going, replies := HandleNext(l, reqs, replies);
      }
    }
  }
}
