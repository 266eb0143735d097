/** Execution contexts as packages, and back: the decode loop takes the parts in whatever order they come. */
module ContextWire {
  import opened Options
  import opened Bytes
  import opened Packages
  import opened Decimal
  import opened Wire

  // ----- registers

  predicate RegistersOk(r: Registers) {
    && |r.ax| == |r.bx| == |r.cx| == |r.dx| == 4
    && |r.eax| == |r.ebx| == |r.ecx| == |r.edx| == 8
    && |r.rax| == |r.rbx| == |r.rcx| == |r.rdx| == 16
  }

  function RegisterValues(r: Registers): seq<seq<Byte>> {
    [r.ax, r.bx, r.cx, r.dx, r.eax, r.ebx, r.ecx, r.edx, r.rax, r.rbx, r.rcx, r.rdx]
  }

  function PutRegisters(r: Registers): Package {
    Package(CPU_REGISTERS, Fields(RegisterValues(r)))
  }

  /** Values of sizes the register's arrays do not have would be copied over other memory. */
  function GetRegisters(b: seq<Byte>): Option<Registers> {
    var v := ReadFields(b, 0);
    if v.None? || |v.value| < 12 then None
    else
      var r := Registers(v.value[0], v.value[1], v.value[2], v.value[3], v.value[4], v.value[5], v.value[6], v.value[7],
                         v.value[8], v.value[9], v.value[10], v.value[11]);
      if RegistersOk(r) then Some(r) else None
  }

  lemma {:induction false} FieldsConcat(a: seq<seq<Byte>>, b: seq<seq<Byte>>)
    ensures Fields(a + b) == Fields(a) + Fields(b)
  {
    if a == [] {
      assert a + b == b;
    } else {
      assert (a + b)[1..] == a[1..] + b;
      FieldsConcat(a[1..], b);
    }
  }

  lemma {:induction false} FieldsOfWidth(values: seq<seq<Byte>>, w: nat)
    requires forall k :: 0 <= k < |values| ==> |values[k]| == w
    ensures |Fields(values)| == |values| * (8 + w)
  {
    if values != [] {
      FieldsOfWidth(values[1..], w);
    }
  }

  lemma RegistersSize(r: Registers)
    requires RegistersOk(r)
    ensures |PutRegisters(r).buffer| == 208
  {
    var small, middle, large := [r.ax, r.bx, r.cx, r.dx], [r.eax, r.ebx, r.ecx, r.edx], [r.rax, r.rbx, r.rcx, r.rdx];
    assert RegisterValues(r) == small + middle + large;
    FieldsConcat(small + middle, large);
    FieldsConcat(small, middle);
    FieldsOfWidth(small, 4);
    FieldsOfWidth(middle, 8);
    FieldsOfWidth(large, 16);
  }

  /** All twelve registers arrive, zero bytes and all. */
  lemma RegistersArrive(r: Registers)
    requires RegistersOk(r)
    ensures Sound(PutRegisters(r)) && GetRegisters(PutRegisters(r).buffer) == Some(r)
  {
    RegistersSize(r);
    FieldsIff(Fields(RegisterValues(r)), RegisterValues(r));
  }

  // ----- numbers

  function PutNumber(kind: int, n: nat, w: nat): Package {
    Package(kind, Field(Little(n, w)))
  }

  function GetNumber(b: seq<Byte>, w: nat): Option<nat> {
    var v := ReadField(b, 0);
    if v.None? || |v.value.0| != w then None else Some(Number(v.value.0))
  }

  lemma NumberArrives(kind: int, n: nat, w: nat)
    requires IsInt32(kind) && w < 100 && n < Range(w)
    ensures Sound(PutNumber(kind, n, w)) && GetNumber(PutNumber(kind, n, w).buffer, w) == Some(n)
  {
    var b := Field(Little(n, w));
    assert b[0..] == b;
    FieldReads(b, 0, Little(n, w));
    NumberOfLittle(n, w);
  }

  // ----- contexts

  /** The parts every context has. */
  function StateParts(c: Context): seq<Package> {
    [PutInstructions(c.instructions, EC_INSTRUCTIONS), PutNumber(PROGRAM_COUNTER, c.programCounter, 4),
     PutNumber(LAST_BURST_TIME, Unsigned(c.lastBurst, U64), 8), PutNumber(PROCESS_PID, c.pid, 4),
     PutRegisters(c.registers), PutTable(c.segments, SEGMENTS_TABLE, 0)]
  }

  /** The parts of a context in the order they are nested. */
  function Parts(c: Context): seq<Package> {
    StateParts(c)
    + match c.request
      case None => []
      case Some(i) => [Package(KERNEL_REQUEST, Closed(PutInstruction(i)))]
  }

  function PutContext(c: Context): Package {
    Package(EXECUTION_CONTEXT, Nested(Parts(c)))
  }

  /** A part once decoded. */
  datatype Part =
    | TheInstructions(list: seq<Instruction>)
    | TheProgramCounter(n: nat)
    | TheLastBurst(burst: int)
    | ThePid(n: nat)
    | TheRegisters(registers: Registers)
    | TheSegments(table: seq<Segment>)
    | TheRequest(request: Instruction)

  function Optional(v: Option<Instruction>): Option<Part> {
    if v.None? then None else Some(TheRequest(v.value))
  }

  /** One turn of the decode loop; None for an unknown type or a part that does not decode. */
  function GetPart(p: Package): Option<Part> {
    if p.kind == EC_INSTRUCTIONS then
      var v := GetInstructions(p);
      if v.None? then None else Some(TheInstructions(v.value))
    else if p.kind == PROGRAM_COUNTER then
      var v := GetNumber(p.buffer, 4);
      if v.None? then None else Some(TheProgramCounter(v.value))
    else if p.kind == LAST_BURST_TIME then
      var v := GetNumber(p.buffer, 8);
      if v.None? then None else Some(TheLastBurst(Signed(v.value, U64)))
    else if p.kind == PROCESS_PID then
      var v := GetNumber(p.buffer, 4);
      if v.None? then None else Some(ThePid(v.value))
    else if p.kind == CPU_REGISTERS then
      var v := GetRegisters(p.buffer);
      if v.None? then None else Some(TheRegisters(v.value))
    else if p.kind == SEGMENTS_TABLE then
      var v := GetTable(p);
      if v.None? then None else Some(TheSegments(v.value))
    else if p.kind == KERNEL_REQUEST then
      var inner := ReadPackage(p.buffer, 0);
      if inner.None? then None else Optional(GetInstruction(inner.value.0))
    else None
  }

  function GetParts(packages: seq<Package>): Option<seq<Part>> {
    if packages == [] then Some([])
    else
      var first, rest := GetPart(packages[0]), GetParts(packages[1..]);
      if first.None? || rest.None? then None else Some([first.value] + rest.value)
  }

  /** A context while it is put together: what has come so far. */
  datatype Draft = Draft(instructions: Option<seq<Instruction>>, programCounter: Option<nat>, lastBurst: Option<int>,
    pid: Option<nat>, registers: Option<Registers>, segments: Option<seq<Segment>>, request: Option<Instruction>)

  const BLANK := Draft(None, None, None, None, None, None, None)

  function With(d: Draft, part: Part): Draft {
    match part
    case TheInstructions(list) => d.(instructions := Some(list))
    case TheProgramCounter(n) => d.(programCounter := Some(n))
    case TheLastBurst(burst) => d.(lastBurst := Some(burst))
    case ThePid(n) => d.(pid := Some(n))
    case TheRegisters(r) => d.(registers := Some(r))
    case TheSegments(table) => d.(segments := Some(table))
    case TheRequest(i) => d.(request := Some(i))
  }

  function Assemble(d: Draft, parts: seq<Part>): Draft {
    if parts == [] then d else With(Assemble(d, parts[..|parts| - 1]), parts[|parts| - 1])
  }

  function GetContext(p: Package): Option<Draft> {
    var packages := ReadPackages(p.buffer, 0);
    if packages.None? then None
    else
      var parts := GetParts(packages.value);
      if parts.None? then None else Some(Assemble(BLANK, parts.value))
  }

  /** What a context must be to fit the fields of the format. */
  predicate ContextOk(c: Context) {
    && AllSendable(c.instructions) && c.programCounter < U32 && c.pid < U32 && RegistersOk(c.registers)
    && 0 <= 2 * c.lastBurst + U64 && 2 * c.lastBurst < U64
    && (c.request.Some? ==> Sendable(c.request.value))
    && |PutContext(c).buffer| < U64
  }

  /** The draft a context arrives as: everything it had; of a segment's base only what is left of the address. */
  function Arrived(c: Context): Draft {
    Draft(Some(c.instructions), Some(c.programCounter), Some(c.lastBurst), Some(c.pid), Some(c.registers),
          Some(MovedAll(c.segments, 0)), c.request)
  }

  lemma PartFits(c: Context, k: nat)
    requires ContextOk(c) && k < |Parts(c)|
    ensures |Parts(c)[k].buffer| < U64
  {
    PackageFits(Parts(c), k);
  }

  /** The parts as they should come out. */
  function PartsOf(c: Context): seq<Part> {
    [TheInstructions(c.instructions), TheProgramCounter(c.programCounter), TheLastBurst(c.lastBurst), ThePid(c.pid),
     TheRegisters(c.registers), TheSegments(MovedAll(c.segments, 0))]
    + if c.request.Some? then [TheRequest(c.request.value)] else []
  }

  lemma NumbersArrive(c: Context, k: nat)
    requires ContextOk(c) && 1 <= k <= 3
    ensures Sound(Parts(c)[k]) && GetPart(Parts(c)[k]) == Some(PartsOf(c)[k])
  {
    Widths();
    if k == 1 {
      NumberArrives(PROGRAM_COUNTER, c.programCounter, 4);
    } else if k == 2 {
      SignedOfUnsigned(c.lastBurst, U64);
      NumberArrives(LAST_BURST_TIME, Unsigned(c.lastBurst, U64), 8);
    } else {
      NumberArrives(PROCESS_PID, c.pid, 4);
    }
  }

  lemma ListsArrive(c: Context, k: nat)
    requires ContextOk(c) && (k == 0 || k == 4 || k == 5)
    ensures Sound(Parts(c)[k]) && GetPart(Parts(c)[k]) == Some(PartsOf(c)[k])
  {
    PartFits(c, k);
    if k == 0 {
      InstructionsArrive(c.instructions, EC_INSTRUCTIONS);
    } else if k == 4 {
      RegistersArrive(c.registers);
    } else {
      TableArrives(c.segments, SEGMENTS_TABLE, 0);
    }
  }

  lemma RequestArrives(c: Context)
    requires ContextOk(c) && c.request.Some?
    ensures Sound(Parts(c)[6]) && GetPart(Parts(c)[6]) == Some(PartsOf(c)[6])
  {
    var i := c.request.value;
    PartFits(c, 6);
    InstructionArrives(i);
    var b := Closed(PutInstruction(i));
    assert b[0..] == b;
    PackageReads(b, 0, PutInstruction(i));
  }

  lemma {:induction false} GetPartsIs(packages: seq<Package>, parts: seq<Part>)
    requires |packages| == |parts| && forall k :: 0 <= k < |parts| ==> GetPart(packages[k]) == Some(parts[k])
    ensures GetParts(packages) == Some(parts)
  {
    if parts != [] {
      GetPartsIs(packages[1..], parts[1..]);
      assert parts == [parts[0]] + parts[1..];
    }
  }

  lemma AssembleSnoc(d: Draft, parts: seq<Part>, part: Part)
    ensures Assemble(d, parts + [part]) == With(Assemble(d, parts), part)
  {
    assert (parts + [part])[..|parts|] == parts;
  }

  lemma AssembleIs(c: Context)
    ensures Assemble(BLANK, PartsOf(c)) == Arrived(c)
  {
    var a, b, e := TheInstructions(c.instructions), TheProgramCounter(c.programCounter), TheLastBurst(c.lastBurst);
    var f, g, h := ThePid(c.pid), TheRegisters(c.registers), TheSegments(MovedAll(c.segments, 0));
    AssembleSnoc(BLANK, [], a);
    AssembleSnoc(BLANK, [a], b);
    AssembleSnoc(BLANK, [a, b], e);
    AssembleSnoc(BLANK, [a, b, e], f);
    AssembleSnoc(BLANK, [a, b, e, f], g);
    AssembleSnoc(BLANK, [a, b, e, f, g], h);
    var six := [a, b, e, f, g, h];
    assert [] + [a] == [a] && [a] + [b] == [a, b] && [a, b] + [e] == [a, b, e] && [a, b, e] + [f] == [a, b, e, f];
    assert [a, b, e, f] + [g] == [a, b, e, f, g] && [a, b, e, f, g] + [h] == six;
    if c.request.Some? {
      AssembleSnoc(BLANK, six, TheRequest(c.request.value));
    } else {
      assert PartsOf(c) == six;
    }
  }

  /**
   Decoding an encoded context gives the same instructions and arguments, program counter,
   burst time, process number, registers and request, and each segment's size and id.
   */
  lemma ContextArrives(c: Context)
    requires ContextOk(c)
    ensures GetContext(PutContext(c)) == Some(Arrived(c))
  {
    var packages, parts := Parts(c), PartsOf(c);
    forall k | 0 <= k < |packages| ensures Sound(packages[k]) && GetPart(packages[k]) == Some(parts[k]) {
      PartArrives(c, k);
    }
    NestedIff(Nested(packages), packages);
    GetPartsIs(packages, parts);
    AssembleIs(c);
  }

  lemma PartArrives(c: Context, k: nat)
    requires ContextOk(c) && k < |Parts(c)|
    ensures Sound(Parts(c)[k]) && |PartsOf(c)| == |Parts(c)| && GetPart(Parts(c)[k]) == Some(PartsOf(c)[k])
  {
    if k == 6 {
      RequestArrives(c);
    } else if 1 <= k <= 3 {
      NumbersArrive(c, k);
    } else {
      ListsArrive(c, k);
    }
  }
}
