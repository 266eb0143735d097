/** What the replies of the memory server say about the state they leave, and what arrives of them. */
module MemoryReplies {
  import opened Bytes
  import opened Pieces
  import opened Layout
  import opened LayoutInvariant
  import opened CompactionProofs
  import opened ProcessView
  import opened Options
  import opened Packages
  import opened Wire
  import opened TablesWire
  import L = Layout

  // ----- a new segment

  /**
   The answer to a create is where the segment is: the last entry of the process's table and of the
   list of segments, and it was the front of a hole with room for it.
   */
  lemma AnswerIsPlace(alg: Algorithm, l: Layout, pid: int, size: nat, id: int)
    requires Inv(l) && pid in l.tables && size > 0
    ensures var (l', answer) := AddSegment(alg, l, pid, size, id);
            answer >= 0 ==>
              && pid in l'.tables && l'.tables == l.tables[pid := l.tables[pid] + [Piece(answer, size, id)]]
              && l'.ram == l.ram + [Piece(answer, size, id)]
              && exists k :: 0 <= k < |l.holes| && l.holes[k].base == answer && l.holes[k].len >= size
  {
    var k := L.Pick(alg, l.holes, size);
    if l.remaining >= size && k != -1 {
      assert l.holes[k].base == AddSegment(alg, l, pid, size, id).1;
    }
  }

  /** So is the reply of the server. */
  lemma CreatedIsPlace(alg: Algorithm, l: Layout, pid: int, id: int, size: nat)
    requires Inv(l) && Legal(l, CreateSegment(pid, id, size))
    ensures var (l', reply) := Serve(alg, l, CreateSegment(pid, id, size));
            reply.Created? ==>
              && reply.base >= 0 && pid in l'.tables
              && l'.tables == l.tables[pid := l.tables[pid] + [Piece(reply.base, size, id)]]
              && l'.ram == l.ram + [Piece(reply.base, size, id)]
              && exists k :: 0 <= k < |l.holes| && l.holes[k].base == reply.base && l.holes[k].len >= size
  {
    CreateServed(alg, l, pid, id, size);
    AnswerIsPlace(alg, l, pid, size, id);
  }

  /**
   The hole loses its front. If nothing is left of it an empty hole goes from the list, the first
   there is (`e`): this one, if no other is empty.
   */
  lemma HolesAfter(l: Layout, pid: int, size: nat, id: int, k: nat) returns (e: nat)
    requires pid in l.tables && k < |l.holes| && 0 < size <= l.holes[k].len
    ensures e <= k
    ensures var rest := Piece(l.holes[k].base + size, l.holes[k].len - size, l.holes[k].id);
            var cut := l.holes[k := rest];
            if rest.len > 0 then Place(l, pid, size, id, k).holes == cut
            else
              && cut[e].len == 0 && (forall j :: 0 <= j < e ==> cut[j].len > 0)
              && Place(l, pid, size, id, k).holes == cut[..e] + cut[e + 1..]
  {
    e := k;
    var rest := Piece(l.holes[k].base + size, l.holes[k].len - size, l.holes[k].id);
    if rest.len == 0 {
      e := DropsAt(l.holes[k := rest], k);
    }
  }

  lemma {:induction false} DropsAt(hs: seq<Piece>, k: nat) returns (e: nat)
    requires k < |hs| && hs[k].len == 0
    ensures e <= k && (forall j :: 0 <= j < e ==> hs[j].len > 0) && hs[e].len == 0
    ensures DropFirstEmpty(hs) == hs[..e] + hs[e + 1..]
  {
    if hs[0].len == 0 {
      e := 0;
    } else {
      var e1 := DropsAt(hs[1..], k - 1);
      e := e1 + 1;
      assert hs[..e] == [hs[0]] + hs[1..][..e1];
    }
  }

  // ----- tables

  /** A new process is told the table it has. */
  lemma InitReply(alg: Algorithm, l: Layout, pid: int)
    requires Inv(l) && Legal(l, InitProcess(pid))
    ensures var (l', reply) := Serve(alg, l, InitProcess(pid));
            pid in l'.tables && |l'.tables[pid]| == 1 && l'.tables[pid][0] == l.ram[0]
            && reply == SegmentsTable(l'.tables[pid])
  {
  }

  /** Tables with the pids, ids and sizes of others, whose bases lead to the same bytes. */
  ghost predicate SameThrough(bytes: seq<Byte>, tables: map<int, seq<Piece>>,
    bytes': seq<Byte>, tables': map<int, seq<Piece>>)
  {
    && (forall pid :: pid in tables' <==> pid in tables)
    && (forall pid :: pid in tables ==> |tables'[pid]| == |tables[pid]|)
    && forall pid, i :: pid in tables && 0 <= i < |tables[pid]| ==>
         SameSegment(bytes, tables[pid][i], bytes', tables'[pid][i])
  }

  ghost predicate SameSegment(bytes: seq<Byte>, p: Piece, bytes': seq<Byte>, p': Piece) {
    && p'.id == p.id && p'.len == p.len && p.base + p.len <= |bytes| && p'.base + p'.len <= |bytes'|
    && bytes'[p'.base..p'.base + p'.len] == bytes[p.base..p.base + p.len]
  }

  /**
   The tables in the reply to a compaction are those of the state it leaves, with the pids, ids and
   sizes there were, and lead in the new memory to the bytes the old ones led to in the old.
   */
  lemma CompactReply(alg: Algorithm, l: Layout)
    requires Inv(l) && Legal(l, CompactAll)
    ensures var (l', reply) := Serve(alg, l, CompactAll);
            && Inv(l') && reply == AllSegmentsTables(l'.tables)
            && SameThrough(l.bytes, l.tables, l'.bytes, l'.tables)
  {
    CompactInv(l);
    var l' := Compact(l);
    forall pid | pid in l.tables ensures pid in l'.tables && |l'.tables[pid]| == |l.tables[pid]| {
      CompactKeepsSlot(l, pid, 0);
    }
    forall pid, i | pid in l.tables && 0 <= i < |l.tables[pid]|
      ensures SameSegment(l.bytes, l.tables[pid][i], l'.bytes, l'.tables[pid][i])
    {
      CompactKeepsSlot(l, pid, i);
      EntryIsLive(l, pid, i);
      EntryIsLive(l', pid, i);
    }
  }

  /** What of a segment's place the kernel has: id, size, and where from the heap's start it is. */
  ghost predicate LeadsTo(s: Segment, bytes': seq<Byte>, bytes: seq<Byte>, p: Piece) {
    && s.id == p.id && s.size == p.len && p.base + p.len <= |bytes|
    && 0 <= s.base && s.base + s.size <= |bytes'|
    && bytes'[s.base..s.base + s.size] == bytes[p.base..p.base + p.len]
  }

  ghost predicate AllLead(received: Tables, bytes': seq<Byte>, bytes: seq<Byte>, tables: map<int, seq<Piece>>) {
    && (forall pid :: pid in received <==> pid in tables)
    && (forall pid :: pid in tables ==> |received[pid]| == |tables[pid]|)
    && forall pid, i :: pid in tables && 0 <= i < |tables[pid]| ==>
         LeadsTo(received[pid][i], bytes', bytes, tables[pid][i])
  }

  /** The tables can be sent: they fit their packages, and the search for pids gets as far as it must. */
  ghost predicate CanSend(tables: map<int, seq<Piece>>, n: nat, heap: int) {
    && TablesFit(AsTables(tables, heap), heap) && (forall pid :: pid in tables ==> BasesFit(tables[pid]))
    && 1 + |Found(AsTables(tables, heap), n)| >= DictionarySize(AsTables(tables, heap))
  }

  lemma TablesLead(bytes: seq<Byte>, tables: map<int, seq<Piece>>, bytes': seq<Byte>, tables': map<int, seq<Piece>>,
    n: nat, heap: int)
    requires SameThrough(bytes, tables, bytes', tables') && CanSend(tables', n, heap)
    ensures var r := GetAllTables(PutAllTables(AsTables(tables', heap), n, heap));
            r.Some? && AllLead(r.value, bytes', bytes, tables)
  {
    MemoryTablesArrive(tables', n, heap);
    forall pid, i | pid in tables && 0 <= i < |tables[pid]|
      ensures LeadsTo(AsSegments(tables'[pid], 0)[i], bytes', bytes, tables[pid][i])
    {
      assert SameSegment(bytes, tables[pid][i], bytes', tables'[pid][i]);
    }
  }

  /**
   What the kernel reads from the reply to a compaction leads in the new memory to the bytes each
   segment had in the old.
   */
  lemma CompactReplyArrives(alg: Algorithm, l: Layout, n: nat, heap: int)
    requires Inv(l) && Legal(l, CompactAll) && Serve(alg, l, CompactAll).1.AllSegmentsTables?
    requires CanSend(Serve(alg, l, CompactAll).1.tables, n, heap)
    ensures var (l', reply) := Serve(alg, l, CompactAll);
            var r := GetAllTables(PutAllTables(AsTables(reply.tables, heap), n, heap));
            r.Some? && AllLead(r.value, l'.bytes, l.bytes, l.tables)
  {
    CompactReply(alg, l);
    var (l', reply) := Serve(alg, l, CompactAll);
    TablesLead(l.bytes, l.tables, l'.bytes, reply.tables, n, heap);
  }

  /** And a new process's table arrives as the state has it. */
  lemma InitReplyArrives(alg: Algorithm, l: Layout, pid: int, kind: int, heap: int)
    requires Inv(l) && Legal(l, InitProcess(pid)) && Serve(alg, l, InitProcess(pid)).1.SegmentsTable?
    requires var table := Serve(alg, l, InitProcess(pid)).1.table;
             IsInt32(kind) && |PutTable(AsSegments(table, heap), kind, heap).buffer| < U64 && BasesFit(table)
    ensures var (l', reply) := Serve(alg, l, InitProcess(pid));
            && pid in l'.tables
            && GetTable(PutTable(AsSegments(reply.table, heap), kind, heap)) == Some(AsSegments(l'.tables[pid], 0))
  {
    InitReply(alg, l, pid);
    PiecesArrive(Serve(alg, l, InitProcess(pid)).1.table, kind, heap);
  }
}
