/** The kernel's request for a segment, with the memory server at the other end. */
module SegmentCreation {
  import opened Options
  import opened Scheduling
  import opened Pieces
  import opened Layout
  import opened LayoutInvariant
  import opened CompactionProofs
  import Memory = ProcessView
  import MemoryRuns
  import MemoryRoom
  import Kernel = KernelState
  import KernelInvariant

  function AsAnswer(reply: Memory.Reply): Kernel.Answer {
    match reply
    case Created(_) => Kernel.Made
    case OutOfMemory => Kernel.OutOfMemory
    case CompactRequest => Kernel.CompactRequest
    case _ => Kernel.Unknown
  }

  /**
   Too little is free, or a hole has room, or, when the compaction comes, there is a segment for it
   to move. `l1` is the memory then: other threads may have sent requests since the question.
   */
  ghost predicate CanAnswer(l: Layout, size: nat, l1: Layout) {
    || Total(l.holes) < size
    || MemoryRoom.HasRoom(l.holes, size)
    || exists pid, i :: IsOwn(l1.tables, pid, i)
  }

  /** Requests of other threads between the question and the compaction. */
  ghost predicate Before(alg: Algorithm, l: Layout, pid: int, before: seq<Memory.Request>)
    requires Inv(l)
  {
    MemoryRuns.Runs(alg, l, before) && MemoryRoom.AllByOthers(before, pid)
  }

  /**
   The compaction the memory may ask for can be carried out exactly in these states; in others the
   code reads through NULL.
   */
  lemma GoesThroughIff(alg: Algorithm, l: Layout, pid: int, id: int, size: nat, before: seq<Memory.Request>)
    requires Inv(l) && pid in l.tables && size > 0 && Before(alg, l, pid, before)
    ensures (Memory.Serve(alg, l, Memory.CreateSegment(pid, id, size)).1 == Memory.CompactRequest ==>
            Memory.Legal(MemoryRuns.After(alg, l, before), Memory.CompactAll))
       <==> CanAnswer(l, size, MemoryRuns.After(alg, l, before))
  {
    AnswerMeans(alg, l, pid, size, id);
    MemoryRuns.CompactionPossibleIff(MemoryRuns.After(alg, l, before));
  }

  /** A process that has a segment need not fear that the others end meanwhile. */
  lemma OwnerGoesThrough(alg: Algorithm, l: Layout, pid: int, size: nat, before: seq<Memory.Request>)
    requires Inv(l) && pid in l.tables && |l.tables[pid]| > 1 && Before(alg, l, pid, before)
    ensures CanAnswer(l, size, MemoryRuns.After(alg, l, before))
  {
    MemoryRoom.CompactionStaysPossible(alg, l, before, pid);
    MemoryRuns.CompactionPossibleIff(MemoryRuns.After(alg, l, before));
  }

  /**
   Requests of other threads before the compaction and between it and the retry, if there is one;
   and it can be carried out.
   */
  ghost predicate Meanwhile(alg: Algorithm, l: Layout, pid: int, id: int, size: nat,
    before: seq<Memory.Request>, between: seq<Memory.Request>)
    requires Inv(l) && pid in l.tables && size > 0
  {
    && Before(alg, l, pid, before) && CanAnswer(l, size, MemoryRuns.After(alg, l, before))
    && var l1 := MemoryRuns.After(alg, l, before);
      Memory.Serve(alg, l, Memory.CreateSegment(pid, id, size)).1 == Memory.CompactRequest ==>
        (CompactInv(l1); Before(alg, Compact(l1), pid, between))
  }

  /**
   The exchange: create; if told to compact, compact and create once more. The second answer is then
   the one that counts.
   */
  ghost function Exchange(alg: Algorithm, l: Layout, pid: int, id: int, size: nat,
    before: seq<Memory.Request>, between: seq<Memory.Request>): (Layout, Kernel.Answer, Kernel.Answer)
    requires Inv(l) && pid in l.tables && size > 0 && Meanwhile(alg, l, pid, id, size, before, between)
  {
    var create := Memory.CreateSegment(pid, id, size);
    var (l0, reply) := Memory.Serve(alg, l, create);
    if reply == Memory.CompactRequest then
      RetryReply(alg, l, pid, id, size, before, between);
      var l1 := MemoryRuns.After(alg, l, before);
      var l2 := MemoryRuns.After(alg, Compact(l1), between);
      var (l3, reply2) := Memory.Serve(alg, l2, create);
      (l3, AsAnswer(reply), AsAnswer(reply2))
    else (l0, AsAnswer(reply), Kernel.Unknown)
  }

  function Final(first: Kernel.Answer, second: Kernel.Answer): Kernel.Answer {
    if first == Kernel.CompactRequest then second else first
  }

  lemma CreateReply(alg: Algorithm, l: Layout, pid: int, id: int, size: nat)
    requires Inv(l) && pid in l.tables && size > 0
    ensures var (l', reply) := Memory.Serve(alg, l, Memory.CreateSegment(pid, id, size));
            && Inv(l') && (reply == Memory.OutOfMemory <==> Total(l.holes) < size)
            && (reply == Memory.OutOfMemory || reply == Memory.CompactRequest || reply.Created?)
            && (reply == Memory.CompactRequest ==> l' == l)
  {
    AnswerMeans(alg, l, pid, size, id);
    Memory.ServeRefines(alg, l, Memory.CreateSegment(pid, id, size));
  }

  lemma RetryReply(alg: Algorithm, l: Layout, pid: int, id: int, size: nat,
    before: seq<Memory.Request>, between: seq<Memory.Request>)
    requires Inv(l) && pid in l.tables && size > 0 && Meanwhile(alg, l, pid, id, size, before, between)
    requires Memory.Serve(alg, l, Memory.CreateSegment(pid, id, size)).1 == Memory.CompactRequest
    ensures Inv(Compact(MemoryRuns.After(alg, l, before)))
    ensures Before(alg, Compact(MemoryRuns.After(alg, l, before)), pid, between)
    ensures var l2 := MemoryRuns.After(alg, Compact(MemoryRuns.After(alg, l, before)), between);
            && Memory.Legal(l2, Memory.CreateSegment(pid, id, size))
            && var (l', reply) := Memory.Serve(alg, l2, Memory.CreateSegment(pid, id, size)); Inv(l') && reply.Created?
  {
    GoesThroughIff(alg, l, pid, id, size, before);
    CompactInv(MemoryRuns.After(alg, l, before));
    MemoryRoom.RetryAfterOthers(alg, l, pid, id, size, before, between);
    var l2 := MemoryRuns.After(alg, Compact(MemoryRuns.After(alg, l, before)), between);
    CreateReply(alg, l2, pid, id, size);
  }

  /**
   Whatever other threads do meanwhile, the exchange ends in a segment exactly when memory is free
   for it, in "out of memory" otherwise, never in a second "compact".
   */
  lemma ExchangeEnds(alg: Algorithm, l: Layout, pid: int, id: int, size: nat,
    before: seq<Memory.Request>, between: seq<Memory.Request>)
    requires Inv(l) && pid in l.tables && size > 0 && Meanwhile(alg, l, pid, id, size, before, between)
    ensures var (l', first, second) := Exchange(alg, l, pid, id, size, before, between);
            && Inv(l')
            && Final(first, second) == if Total(l.holes) < size then Kernel.OutOfMemory else Kernel.Made
  {
    CreateReply(alg, l, pid, id, size);
    if Memory.Serve(alg, l, Memory.CreateSegment(pid, id, size)).1 == Memory.CompactRequest {
      RetryReply(alg, l, pid, id, size, before, between);
    }
  }

  /** So the process that asked goes on exactly when free memory suffices, however it is scattered. */
  lemma AskerSurvivesIff<P>(k: Kernel.Kernel<P>, alg: Algorithm, l: Layout, pid: int, id: int, size: nat,
    before: seq<Memory.Request>, between: seq<Memory.Request>)
    requires KernelInvariant.Core(k) && k.running.Some?
    requires Inv(l) && pid in l.tables && size > 0 && Meanwhile(alg, l, pid, id, size, before, between)
    ensures var (l', first, second) := Exchange(alg, l, pid, id, size, before, between);
            var k' := Kernel.Do(k, Kernel.Serve(Kernel.CreateSegment(first, second)));
            Kernel.StateOf(k', k.running.value) == if Total(l.holes) < size then Exit else Ready
  {
    ExchangeEnds(alg, l, pid, id, size, before, between);
  }
}
