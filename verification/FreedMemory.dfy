/** Which bytes become free when segments are deleted and processes end. */
module FreedMemory {
  import opened Bytes
  import opened Pieces
  import opened Layout
  import opened LayoutInvariant

  /** Some segment of the process's own holds the byte. */
  ghost predicate OwnHolds(tables: map<int, seq<Piece>>, pid: int, b: int) {
    exists i {:trigger IsOwn(tables, pid, i)} :: IsOwn(tables, pid, i) && Holds(tables[pid][i], b)
  }

  lemma {:induction false} AppendHolds(hs: seq<Piece>, p: Piece, b: int)
    ensures SomeHolds(hs + [p], b) <==> SomeHolds(hs, b) || Holds(p, b)
  {
    var all := hs + [p];
    if SomeHolds(hs, b) {
      var i :| 0 <= i < |hs| && Holds(hs[i], b);
      assert Holds(all[i], b);
    }
    if Holds(p, b) {
      assert Holds(all[|hs|], b);
    }
  }

  /** Deleting a segment keeps the invariant and adds exactly its bytes to the free ones. */
  lemma DeleteFrees(l: Layout, pid: int, i: nat)
    requires Inv(l) && IsOwn(l.tables, pid, i)
    ensures Inv(DeleteAt(l, pid, i))
    ensures forall b :: SomeHolds(DeleteAt(l, pid, i).holes, b)
                   <==> SomeHolds(l.holes, b) || Holds(l.tables[pid][i], b)
  {
    DeleteInv(l, pid, i);
    var k := FindBase(l.ram, l.tables[pid][i].base, 1);
    DeletedHoles(l.size, l.ram, l.holes, k);
  }

  lemma DeletedHoles(size: nat, ram: seq<Piece>, hs: seq<Piece>, k: nat)
    requires SpaceOk(size, ram, hs) && 1 <= k < |ram|
    ensures forall b :: SomeHolds(MergeFrom(hs + [ram[k]], 0), b) <==> SomeHolds(hs, b) || Holds(ram[k], b)
  {
    var p := ram[k];
    forall j | 0 <= j < |hs| ensures Apart(hs[j], p) {
      assert Apart(ram[k], hs[j]);
    }
    AppendApart(hs, p);
    MergeKeepsFree(hs + [p], 0, [], size + 1);
    forall b ensures SomeHolds(hs + [p], b) <==> SomeHolds(hs, b) || Holds(p, b) {
      AppendHolds(hs, p, b);
    }
  }

  lemma OwnAfterDelete(tables: map<int, seq<Piece>>, pid: int, i: nat, b: int)
    requires IsOwn(tables, pid, i)
    ensures OwnHolds(tables, pid, b)
       <==> Holds(tables[pid][i], b) || OwnHolds(tables[pid := RemoveAt(tables[pid], i)], pid, b)
  {
    var tables' := tables[pid := RemoveAt(tables[pid], i)];
    if OwnHolds(tables, pid, b) && !Holds(tables[pid][i], b) {
      var j :| IsOwn(tables, pid, j) && Holds(tables[pid][j], b);
      assert IsOwn(tables', pid, if j < i then j else j - 1);
    }
    if OwnHolds(tables', pid, b) {
      var j :| IsOwn(tables', pid, j) && Holds(tables'[pid][j], b);
      assert IsOwn(tables, pid, if j < i then j else j + 1);
    }
  }

  /** Removing a process's segments one by one adds exactly all their bytes to the free ones. */
  lemma {:induction false} ClearTableFrees(l: Layout, pid: int)
    requires Inv(l) && pid in l.tables
    ensures Inv(ClearTable(l, pid)) && OnlyHeadLeft(l, pid, ClearTable(l, pid))
    ensures forall b :: SomeHolds(ClearTable(l, pid).holes, b) <==> SomeHolds(l.holes, b) || OwnHolds(l.tables, pid, b)
    decreases |l.tables[pid]|
  {
    ClearTableInv(l, pid);
    if |l.tables[pid]| == 1 {
      HeadLeft(l, pid);
    } else {
      var t := l.tables[pid];
      var i := FindFrom(t, t[|t| - 1].id, 1);
      ClearUnfold(l, pid);
      DeleteFrees(l, pid, i);
      DeleteFrame(l, pid, i);
      ClearTableFrees(DeleteAt(l, pid, i), pid);
      forall b ensures OwnHolds(l.tables, pid, b) <==> Holds(t[i], b) || OwnHolds(DeleteAt(l, pid, i).tables, pid, b) {
        OwnAfterDelete(l.tables, pid, i, b);
      }
    }
  }

  /** Ending a process removes its table and no other, and frees exactly the bytes of its own segments. */
  lemma RemoveTableFrees(l: Layout, pid: int)
    requires Inv(l) && pid in l.tables
    ensures Inv(RemoveTable(l, pid)) && RemoveTable(l, pid).tables == l.tables - {pid}
    ensures forall b :: SomeHolds(RemoveTable(l, pid).holes, b) <==> SomeHolds(l.holes, b) || OwnHolds(l.tables, pid, b)
  {
    RemoveTableInv(l, pid);
    ClearTableFrees(l, pid);
  }
}
