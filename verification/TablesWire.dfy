/** All segment tables in one reply: the sender finds the processes by trying one number after the other. */
module TablesWire {
  import opened Options
  import opened Bytes
  import opened Pieces
  import opened Packages
  import opened Decimal
  import opened Wire

  type Tables = map<int, seq<Segment>>

  /** The dictionary has one key more than there are processes, from when the memory was set up. */
  function DictionarySize(tables: Tables): nat {
    |tables| + 1
  }

  /** The processes found below `n`, in the order they are found. */
  function Found(tables: Tables, n: nat): (s: seq<int>)
    ensures forall i :: 0 <= i < |s| ==> s[i] in tables && 0 <= s[i] < n
  {
    if n == 0 then [] else Found(tables, n - 1) + if n - 1 in tables then [n - 1] else []
  }

  lemma {:induction false} FoundIs(tables: Tables, n: nat)
    ensures forall pid :: pid in Found(tables, n) <==> pid in tables && 0 <= pid < n
    ensures forall i, j :: 0 <= i < j < |Found(tables, n)| ==> Found(tables, n)[i] < Found(tables, n)[j]
  {
    if n > 0 {
      FoundIs(tables, n - 1);
    }
  }

  function AsSet(s: seq<int>): set<int> {
    set x | x in s
  }

  lemma {:induction false} SeqAsSet(s: seq<int>)
    requires forall i, j :: 0 <= i < j < |s| ==> s[i] < s[j]
    ensures |AsSet(s)| == |s|
  {
    if s == [] {
      assert AsSet(s) == {};
    } else {
      var n := |s| - 1;
      SeqAsSet(s[..n]);
      assert s == s[..n] + [s[n]];
      assert AsSet(s) == AsSet(s[..n]) + {s[n]};
    }
  }

  /** Everybody below `n` is found: as many as the dictionary has iff there is nobody else. */
  lemma FoundAllIff(tables: Tables, n: nat)
    ensures |Found(tables, n)| <= |tables|
    ensures |Found(tables, n)| == |tables| <==> forall pid :: pid in tables ==> 0 <= pid < n
    ensures |Found(tables, n)| == |tables| ==> AsSet(Found(tables, n)) == tables.Keys
  {
    FoundIs(tables, n);
    SeqAsSet(Found(tables, n));
    var found := AsSet(Found(tables, n));
    assert found <= tables.Keys;
    SubsetSize(found, tables.Keys);
    if forall pid :: pid in tables ==> 0 <= pid < n {
      assert found == tables.Keys;
    }
    if |found| == |tables.Keys| {
      SameSize(found, tables.Keys);
    }
  }

  lemma {:induction false} SubsetSize<T>(a: set<T>, b: set<T>)
    requires a <= b
    ensures |a| <= |b|
  {
    if |a| > 0 {
      var x :| x in a;
      SubsetSize(a - {x}, b - {x});
    }
  }

  lemma SameSize<T>(a: set<T>, b: set<T>)
    requires a <= b && |a| == |b|
    ensures a == b
  {
    if x :| x in b && x !in a {
      SubsetSize(a, b - {x});
    }
  }

  lemma Pick<T>(s: set<T>) returns (x: T)
    requires |s| > 0
    ensures x in s
  {
    x :| x in s;
  }

  lemma {:induction false} Bound(keys: set<int>) returns (b: nat)
    ensures forall x :: x in keys ==> x < b
  {
    b := 0;
    if |keys| > 0 {
      var x := Pick(keys);
      var c := Bound(keys - {x});
      b := if x < c then c else if x < 0 then 0 else x + 1;
      assert forall y :: y in keys ==> y == x || y in keys - {x};
    }
  }

  /** The search ends, for some number it gets to, exactly when no process number is negative. */
  lemma SearchEndsIff(tables: Tables)
    ensures (exists n: nat :: 1 + |Found(tables, n)| >= DictionarySize(tables)) <==>
            forall pid :: pid in tables ==> pid >= 0
  {
    if forall pid :: pid in tables ==> pid >= 0 {
      var b := Bound(tables.Keys);
      FoundAllIff(tables, b);
      assert 1 + |Found(tables, b)| >= DictionarySize(tables);
    }
    if n: nat :| 1 + |Found(tables, n)| >= DictionarySize(tables) {
      FoundAllIff(tables, n);
    }
  }

  function PutTables(tables: Tables, pids: seq<int>, heap: int): (r: seq<Package>)
    requires forall i :: 0 <= i < |pids| ==> pids[i] in tables
    ensures |r| == |pids| && forall i :: 0 <= i < |r| ==> r[i] == PutTable(tables[pids[i]], pids[i], heap)
  {
    seq(|pids|, i requires 0 <= i < |pids| => PutTable(tables[pids[i]], pids[i], heap))
  }

  /** The reply of a search that got to `n`. */
  function PutAllTables(tables: Tables, n: nat, heap: int): Package {
    Package(ALL_SEGMENTS_TABLES, Nested(PutTables(tables, Found(tables, n), heap)))
  }

  /** The dictionary the receiver fills. */
  function GetTables(packages: seq<Package>): Option<Tables> {
    if packages == [] then Some(map[])
    else
      var n := |packages| - 1;
      var before, last := GetTables(packages[..n]), GetTable(packages[n]);
      if before.None? || last.None? then None else Some(before.value[packages[n].kind := last.value])
  }

  function GetAllTables(p: Package): Option<Tables> {
    var packages := ReadPackages(p.buffer, 0);
    if packages.None? then None else GetTables(packages.value)
  }

  function MovedTables(tables: Tables, heap: int): Tables {
    MovedOf(tables, tables.Keys, heap)
  }

  predicate TablesFit(tables: Tables, heap: int) {
    forall pid :: pid in tables ==> IsInt32(pid) && |PutTable(tables[pid], pid, heap).buffer| < U64
  }

  function MovedOf(tables: Tables, pids: set<int>, heap: int): Tables
    requires pids <= tables.Keys
  {
    map pid | pid in pids :: MovedAll(tables[pid], heap)
  }

  lemma MovedSnoc(tables: Tables, pids: seq<int>, heap: int)
    requires pids != [] && forall i :: 0 <= i < |pids| ==> pids[i] in tables
    ensures var n := |pids| - 1;
            MovedOf(tables, AsSet(pids), heap)
              == MovedOf(tables, AsSet(pids[..n]), heap)[pids[n] := MovedAll(tables[pids[n]], heap)]
  {
    var n := |pids| - 1;
    assert pids == pids[..n] + [pids[n]];
  }

  lemma {:induction false} GetOfPutTables(tables: Tables, pids: seq<int>, heap: int)
    requires TablesFit(tables, heap) && forall i :: 0 <= i < |pids| ==> pids[i] in tables
    ensures AllSound(PutTables(tables, pids, heap))
    ensures GetTables(PutTables(tables, pids, heap)) == Some(MovedOf(tables, AsSet(pids), heap))
  {
    if pids == [] {
      assert MovedOf(tables, AsSet(pids), heap) == map[];
    } else {
      var n := |pids| - 1;
      GetOfPutTables(tables, pids[..n], heap);
      TableArrives(tables[pids[n]], pids[n], heap);
      var packages := PutTables(tables, pids, heap);
      assert packages[..n] == PutTables(tables, pids[..n], heap);
      SoundSnoc(packages);
      MovedSnoc(tables, pids, heap);
    }
  }

  lemma SoundSnoc(packages: seq<Package>)
    requires packages != [] && AllSound(packages[..|packages| - 1]) && Sound(packages[|packages| - 1])
    ensures AllSound(packages)
  {
    forall i | 0 <= i < |packages| ensures Sound(packages[i]) {
      if i < |packages| - 1 {
        assert packages[..|packages| - 1][i] == packages[i];
      }
    }
  }

  /** Each process is found once, and the receiver's dictionary is the sender's, with bases relative to the heap. */
  lemma TablesArrive(tables: Tables, n: nat, heap: int)
    requires TablesFit(tables, heap) && 1 + |Found(tables, n)| >= DictionarySize(tables)
    ensures GetAllTables(PutAllTables(tables, n, heap)) == Some(MovedTables(tables, heap))
  {
    var packages := PutTables(tables, Found(tables, n), heap);
    GetOfPutTables(tables, Found(tables, n), heap);
    FoundAllIff(tables, n);
    NestedIff(Nested(packages), packages);
  }

  // ----- with the memory's own tables

  function AsSegments(table: seq<Piece>, heap: int): (r: seq<Segment>)
    ensures |r| == |table| && forall i :: 0 <= i < |r| ==>
            r[i] == Segment(heap + table[i].base, table[i].len, table[i].id)
  {
    seq(|table|, i requires 0 <= i < |table| => Segment(heap + table[i].base, table[i].len, table[i].id))
  }

  predicate BasesFit(table: seq<Piece>) {
    forall i :: 0 <= i < |table| ==> IsInt32(table[i].base)
  }

  /** A table of the memory arrives as it is, wherever the heap lies, if its segments lie in the first 2 GiB of it. */
  lemma PiecesArrive(table: seq<Piece>, kind: int, heap: int)
    requires IsInt32(kind) && |PutTable(AsSegments(table, heap), kind, heap).buffer| < U64
    requires BasesFit(table)
    ensures GetTable(PutTable(AsSegments(table, heap), kind, heap)) == Some(AsSegments(table, 0))
  {
    TableArrives(AsSegments(table, heap), kind, heap);
    PiecesMove(table, heap);
  }

  lemma PiecesMove(table: seq<Piece>, heap: int)
    requires BasesFit(table)
    ensures MovedAll(AsSegments(table, heap), heap) == AsSegments(table, 0)
  {
    var moved := MovedAll(AsSegments(table, heap), heap);
    forall i | 0 <= i < |table| ensures moved[i] == AsSegments(table, 0)[i] {
      ToInt32Keeps(table[i].base);
    }
  }

  function AsTables(tables: map<int, seq<Piece>>, heap: int): Tables {
    map pid | pid in tables :: AsSegments(tables[pid], heap)
  }

  /**
   The memory's reply after a compaction: the kernel gets each process's table, bases counted from
   the heap's start.
   */
  lemma MemoryTablesArrive(tables: map<int, seq<Piece>>, n: nat, heap: int)
    requires TablesFit(AsTables(tables, heap), heap) &&
             1 + |Found(AsTables(tables, heap), n)| >= DictionarySize(AsTables(tables, heap))
    requires forall pid :: pid in tables ==> BasesFit(tables[pid])
    ensures var r := GetAllTables(PutAllTables(AsTables(tables, heap), n, heap));
            && r.Some? && (forall pid :: pid in r.value <==> pid in tables)
            && forall pid :: pid in tables ==> r.value[pid] == AsSegments(tables[pid], 0)
  {
    TablesArrive(AsTables(tables, heap), n, heap);
    forall pid | pid in tables ensures MovedAll(AsTables(tables, heap)[pid], heap) == AsSegments(tables[pid], 0) {
      PiecesMove(tables[pid], heap);
    }
  }
}
