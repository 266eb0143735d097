/** What the modules send each other, as packages: instructions, registers, segment tables, execution contexts. */
module Wire {
  import opened Options
  import opened Bytes
  import opened Packages
  import opened Decimal

  // ----- the values sent

  datatype Instruction = Instruction(opCode: int, args: seq<seq<Byte>>)

  /** A segment as a table lists it; the base is an address. */
  datatype Segment = Segment(base: int, size: int, id: int)

  /** AX to DX, then EAX to EDX, then RAX to RDX. */
  datatype Registers = Registers(ax: seq<Byte>, bx: seq<Byte>, cx: seq<Byte>, dx: seq<Byte>,
                                 eax: seq<Byte>, ebx: seq<Byte>, ecx: seq<Byte>, edx: seq<Byte>,
                                 rax: seq<Byte>, rbx: seq<Byte>, rcx: seq<Byte>, rdx: seq<Byte>)

  datatype Context = Context(instructions: seq<Instruction>, programCounter: nat, lastBurst: int, pid: nat,
                             registers: Registers, segments: seq<Segment>, request: Option<Instruction>)

  const SEGMENT := 4
  const INSTRUCTIONS := 4
  const EXECUTION_CONTEXT := 5
  const EC_INSTRUCTIONS := 0
  const PROGRAM_COUNTER := 1
  const LAST_BURST_TIME := 2
  const PROCESS_PID := 3
  const CPU_REGISTERS := 4
  const SEGMENTS_TABLE := 5
  const ALL_SEGMENTS_TABLES := 6
  const KERNEL_REQUEST := 7

  // ----- instructions

  /** Each text with its terminator. */
  function Terminated(texts: seq<seq<Byte>>): (r: seq<seq<Byte>>)
    ensures |r| == |texts| && forall i :: 0 <= i < |r| ==> r[i] == texts[i] + [0]
  {
    seq(|texts|, i requires 0 <= i < |texts| => texts[i] + [0])
  }

  /** Each value up to its first zero byte. */
  function Texts(values: seq<seq<Byte>>): seq<seq<Byte>> {
    seq(|values|, i requires 0 <= i < |values| => CString(values[i]))
  }

  function PutInstruction(i: Instruction): Package {
    Package(i.opCode, Fields(Terminated(i.args)))
  }

  function GetInstruction(p: Package): Option<Instruction> {
    var values := ReadFields(p.buffer, 0);
    if values.None? then None else Some(Instruction(p.kind, Texts(values.value)))
  }

  /** Arguments are C strings, and everything fits the lengths of the format. */
  predicate Sendable(i: Instruction) {
    IsInt32(i.opCode) && |PutInstruction(i).buffer| < U64 && forall k :: 0 <= k < |i.args| ==> 0 !in i.args[k]
  }

  lemma {:induction false} FieldFits(values: seq<seq<Byte>>, k: nat)
    requires k < |values|
    ensures |values[k]| < |Fields(values)|
  {
    if k > 0 {
      FieldFits(values[1..], k - 1);
    }
  }

  lemma TextsOfTerminated(texts: seq<seq<Byte>>)
    requires forall k :: 0 <= k < |texts| ==> 0 !in texts[k]
    ensures Texts(Terminated(texts)) == texts
  {
    forall k | 0 <= k < |texts| ensures Texts(Terminated(texts))[k] == texts[k] {
      CStringOfTerminated(texts[k]);
    }
  }

  /** An instruction arrives as it was sent, with any number of arguments of any length. */
  lemma InstructionArrives(i: Instruction)
    requires Sendable(i)
    ensures Sound(PutInstruction(i)) && GetInstruction(PutInstruction(i)) == Some(i)
  {
    var values := Terminated(i.args);
    forall k | 0 <= k < |values| ensures |values[k]| < U64 {
      FieldFits(values, k);
    }
    FieldsIff(Fields(values), values);
    TextsOfTerminated(i.args);
  }

  // ----- lists of instructions

  function PutAll(list: seq<Instruction>): (r: seq<Package>)
    ensures |r| == |list| && forall k :: 0 <= k < |r| ==> r[k] == PutInstruction(list[k])
  {
    seq(|list|, k requires 0 <= k < |list| => PutInstruction(list[k]))
  }

  function GetAll(packages: seq<Package>): Option<seq<Instruction>> {
    if packages == [] then Some([])
    else
      var first, rest := GetInstruction(packages[0]), GetAll(packages[1..]);
      if first.None? || rest.None? then None else Some([first.value] + rest.value)
  }

  function PutInstructions(list: seq<Instruction>, kind: int): Package {
    Package(kind, Nested(PutAll(list)))
  }

  function GetInstructions(p: Package): Option<seq<Instruction>> {
    var packages := ReadPackages(p.buffer, 0);
    if packages.None? then None else GetAll(packages.value)
  }

  predicate AllSendable(list: seq<Instruction>) {
    forall k :: 0 <= k < |list| ==> Sendable(list[k])
  }

  lemma {:induction false} GetAllOfPutAll(list: seq<Instruction>)
    requires AllSendable(list)
    ensures AllSound(PutAll(list)) && GetAll(PutAll(list)) == Some(list)
  {
    if list != [] {
      InstructionArrives(list[0]);
      assert PutAll(list)[1..] == PutAll(list[1..]);
      GetAllOfPutAll(list[1..]);
      assert AllSound(PutAll(list)[1..]);
      assert list == [list[0]] + list[1..];
      forall k | 0 <= k < |list| ensures Sound(PutAll(list)[k]) {
        if k > 0 {
          assert PutAll(list)[k] == PutAll(list[1..])[k - 1];
        }
      }
    }
  }

  lemma InstructionsArrive(list: seq<Instruction>, kind: int)
    requires AllSendable(list)
    ensures GetInstructions(PutInstructions(list, kind)) == Some(list)
  {
    GetAllOfPutAll(list);
    NestedIff(Nested(PutAll(list)), PutAll(list));
  }

  // ----- segments

  /** A difference of addresses becomes an int on its way into text. */
  function ToInt32(n: int): int {
    Signed(Unsigned(n, U32), U32)
  }

  lemma ToInt32Keeps(n: int)
    requires IsInt32(n)
    ensures ToInt32(n) == n
  {
    SignedOfUnsigned(n, U32);
  }

  function SegmentInstruction(s: Segment, heap: int): Instruction {
    Instruction(SEGMENT, [Itoa(ToInt32(s.base - heap)), Itoa(s.size), Itoa(s.id)])
  }

  function PutSegment(s: Segment, heap: int): Package {
    PutInstruction(SegmentInstruction(s, heap))
  }

  function GetSegment(p: Package): Option<Segment> {
    var i := GetInstruction(p);
    if i.None? || |i.value.args| < 3 then None
    else Some(Segment(Atoi(i.value.args[0]), Atoi(i.value.args[1]), Atoi(i.value.args[2])))
  }

  /** What a segment is after the trip: its base is relative to `heap`. */
  function Moved(s: Segment, heap: int): Segment {
    Segment(ToInt32(s.base - heap), s.size, s.id)
  }

  predicate SegmentFits(s: Segment, heap: int) {
    |PutSegment(s, heap).buffer| < U64
  }

  lemma SegmentArrives(s: Segment, heap: int)
    requires SegmentFits(s, heap)
    ensures Sound(PutSegment(s, heap)) && GetSegment(PutSegment(s, heap)) == Some(Moved(s, heap))
  {
    InstructionArrives(SegmentInstruction(s, heap));
    AtoiItoa(ToInt32(s.base - heap));
    AtoiItoa(s.size);
    AtoiItoa(s.id);
  }

  function PutSegments(table: seq<Segment>, heap: int): (r: seq<Package>)
    ensures |r| == |table| && forall k :: 0 <= k < |r| ==> r[k] == PutSegment(table[k], heap)
  {
    seq(|table|, k requires 0 <= k < |table| => PutSegment(table[k], heap))
  }

  function GetSegments(packages: seq<Package>): Option<seq<Segment>> {
    if packages == [] then Some([])
    else
      var first, rest := GetSegment(packages[0]), GetSegments(packages[1..]);
      if first.None? || rest.None? then None else Some([first.value] + rest.value)
  }

  function PutTable(table: seq<Segment>, kind: int, heap: int): Package {
    Package(kind, Nested(PutSegments(table, heap)))
  }

  function GetTable(p: Package): Option<seq<Segment>> {
    var packages := ReadPackages(p.buffer, 0);
    if packages.None? then None else GetSegments(packages.value)
  }

  function MovedAll(table: seq<Segment>, heap: int): (r: seq<Segment>)
    ensures |r| == |table| && forall k :: 0 <= k < |r| ==> r[k] == Moved(table[k], heap)
  {
    seq(|table|, k requires 0 <= k < |table| => Moved(table[k], heap))
  }

  lemma {:induction false} GetOfPutSegments(table: seq<Segment>, heap: int)
    requires forall k :: 0 <= k < |table| ==> SegmentFits(table[k], heap)
    ensures AllSound(PutSegments(table, heap)) && GetSegments(PutSegments(table, heap)) == Some(MovedAll(table, heap))
  {
    if table != [] {
      SegmentArrives(table[0], heap);
      assert PutSegments(table, heap)[1..] == PutSegments(table[1..], heap);
      GetOfPutSegments(table[1..], heap);
      assert MovedAll(table, heap) == [Moved(table[0], heap)] + MovedAll(table[1..], heap);
      forall k | 0 <= k < |table| ensures Sound(PutSegments(table, heap)[k]) {
        if k > 0 {
          assert PutSegments(table, heap)[k] == PutSegments(table[1..], heap)[k - 1];
        }
      }
    }
  }

  lemma {:induction false} PackageFits(packages: seq<Package>, k: nat)
    requires k < |packages|
    ensures |packages[k].buffer| < |Nested(packages)|
  {
    if k > 0 {
      PackageFits(packages[1..], k - 1);
    }
  }

  /** A table arrives in order, with bases relative to the heap and the same sizes and ids. */
  lemma TableArrives(table: seq<Segment>, kind: int, heap: int)
    requires IsInt32(kind) && |PutTable(table, kind, heap).buffer| < U64
    ensures Sound(PutTable(table, kind, heap)) && GetTable(PutTable(table, kind, heap)) == Some(MovedAll(table, heap))
  {
    var packages := PutSegments(table, heap);
    forall k | 0 <= k < |table| ensures SegmentFits(table[k], heap) {
      PackageFits(packages, k);
    }
    GetOfPutSegments(table, heap);
    NestedIff(Nested(packages), packages);
  }
}
