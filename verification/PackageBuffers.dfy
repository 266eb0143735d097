/**
 Packages as the source has them: objects whose buffer is grown in place, and decode loops
 that advance an offset. Each method is proved against the functions on packages by value.
 */
module PackageBuffers {
  import opened Options
  import opened Bytes
  import opened Packages
  import opened Decimal
  import opened Wire
  import opened ContextWire
  import opened TablesWire

  const SERIALIZED := 0

  class PackageBuffer {
    var kind: int
    var buffer: seq<Byte>

    ghost function Value(): Package
      reads this
    {
      Package(kind, buffer)
    }

    constructor (kind: int)
      ensures Value() == Package(kind, [])
    {
      this.kind, buffer := kind, [];
    }

    /** package_add */
    method Add(value: seq<Byte>)
      modifies this`buffer
      ensures buffer == old(buffer) + Field(value)
    {
      buffer := buffer + Little(|value|, 8);
      buffer := buffer + value;
    }

    /** package_write */
    method Write(text: seq<Byte>)
      modifies this`buffer
      ensures buffer == old(buffer) + Field(text + [0])
    {
      Add(text + [0]);
    }

    /** package_close: header and content become the content of a package of no type. */
    method Close()
      modifies this
      ensures Value() == Package(SERIALIZED, Closed(old(Value())))
    {
      var stream := Little(|buffer|, 8);
      stream := stream + PutKind(kind);
      stream := stream + buffer;
      kind, buffer := SERIALIZED, stream;
    }

    /** package_nest */
    method Nest(nested: PackageBuffer)
      requires nested != this
      modifies this`buffer, nested
      ensures buffer == old(buffer) + Closed(old(nested.Value()))
    {
      nested.Close();
      buffer := buffer + nested.buffer;
    }
  }

  // ----- reading at an offset

  /** package_decode */
  method Decode(b: seq<Byte>, offset: nat) returns (p: PackageBuffer, next: nat)
    requires ReadPackage(b, offset).Some?
    ensures fresh(p) && (p.Value(), next) == ReadPackage(b, offset).value
  {
    var size := Number(b[offset..offset + 8]);
    next := offset + 8;
    p := new PackageBuffer(GetKind(b[next..next + 4]));
    next := next + 4;
    p.buffer := b[next..next + size];
    next := next + size;
  }

  /** package_decode_buffer */
  method DecodeBuffer(b: seq<Byte>, offset: nat) returns (value: seq<Byte>, next: nat)
    requires ReadField(b, offset).Some?
    ensures (value, next) == ReadField(b, offset).value
  {
    var size := Number(b[offset..offset + 8]);
    next := offset + 8;
    value := b[next..next + size];
    next := next + size;
  }

  /** package_decode_string: the value with a terminator behind it, read as a C string. */
  method DecodeString(b: seq<Byte>, offset: nat) returns (text: seq<Byte>, next: nat)
    requires ReadField(b, offset).Some?
    ensures text == CString(ReadField(b, offset).value.0) && next == ReadField(b, offset).value.1
  {
    var value;
    value, next := DecodeBuffer(b, offset);
    CStringWithTerminator(value);
    text := CString(value + [0]);
  }

  lemma {:induction false} CStringWithTerminator(b: seq<Byte>)
    ensures CString(b + [0]) == CString(b)
  {
    if b != [] && b[0] != 0 {
      assert (b + [0])[1..] == b[1..] + [0];
      CStringWithTerminator(b[1..]);
    }
  }

  // ----- instructions

  lemma {:induction false} NestedConcat(a: seq<Package>, b: seq<Package>)
    ensures Nested(a + b) == Nested(a) + Nested(b)
  {
    if a == [] {
      assert a + b == b;
    } else {
      assert (a + b)[1..] == a[1..] + b;
      NestedConcat(a[1..], b);
    }
  }

  lemma NestedSnoc(packages: seq<Package>, p: Package)
    ensures Nested(packages + [p]) == Nested(packages) + Closed(p)
  {
    NestedConcat(packages, [p]);
  }

  lemma FieldsSnoc(values: seq<seq<Byte>>, value: seq<Byte>)
    ensures Fields(values + [value]) == Fields(values) + Field(value)
  {
    FieldsConcat(values, [value]);
  }

  method SerializeInstruction(i: Instruction) returns (p: PackageBuffer)
    ensures fresh(p) && p.Value() == PutInstruction(i)
  {
    p := new PackageBuffer(i.opCode);
    var values := Terminated(i.args);
    var j := 0;
    while j < |i.args|
      invariant 0 <= j <= |i.args| && fresh(p) && p.Value() == Package(i.opCode, Fields(values[..j]))
    {
      p.Write(i.args[j]);
      FieldsSnoc(values[..j], values[j]);
      assert values[..j + 1] == values[..j] + [values[j]];
      j := j + 1;
    }
    assert values[..j] == values;
  }

  method DeserializeInstruction(kind: int, b: seq<Byte>) returns (i: Instruction)
    requires GetInstruction(Package(kind, b)).Some?
    ensures i == GetInstruction(Package(kind, b)).value
  {
    var offset, args := 0, [];
    ghost var values := [];
    while offset < |b|
      invariant 0 <= offset && ReadFields(b, offset).Some?
      invariant args == Texts(values) && values + ReadFields(b, offset).value == ReadFields(b, 0).value
      decreases |b| - offset
    {
      ghost var value, next := ReadField(b, offset).value.0, ReadField(b, offset).value.1;
      assert values + ReadFields(b, offset).value == (values + [value]) + ReadFields(b, next).value;
      assert Texts(values + [value]) == Texts(values) + [CString(value)];
      var text;
      text, offset := DecodeString(b, offset);
      args, values := args + [text], values + [value];
    }
    assert values + [] == values;
    i := Instruction(kind, args);
  }

  method SerializeInstructions(list: seq<Instruction>, isEc: bool) returns (p: PackageBuffer)
    ensures fresh(p) && p.Value() == PutInstructions(list, if isEc then EC_INSTRUCTIONS else INSTRUCTIONS)
  {
    p := new PackageBuffer(if isEc then EC_INSTRUCTIONS else INSTRUCTIONS);
    ghost var packages := PutAll(list);
    var i := 0;
    while i < |list|
      invariant 0 <= i <= |list| && fresh(p)
      invariant p.Value() == Package(if isEc then EC_INSTRUCTIONS else INSTRUCTIONS, Nested(packages[..i]))
    {
      var nested := SerializeInstruction(list[i]);
      p.Nest(nested);
      NestedSnoc(packages[..i], packages[i]);
      assert packages[..i + 1] == packages[..i] + [packages[i]];
      i := i + 1;
    }
    assert packages[..i] == packages;
  }

  method DeserializeInstructions(b: seq<Byte>) returns (list: seq<Instruction>)
    requires ReadPackages(b, 0).Some? && GetAll(ReadPackages(b, 0).value).Some?
    ensures Some(list) == GetAll(ReadPackages(b, 0).value)
  {
    var offset := 0;
    list := [];
    while offset < |b|
      invariant 0 <= offset && ReadPackages(b, offset).Some? && GetAll(ReadPackages(b, offset).value).Some?
      invariant list + GetAll(ReadPackages(b, offset).value).value == GetAll(ReadPackages(b, 0).value).value
      decreases |b| - offset
    {
      ghost var packages := ReadPackages(b, offset).value;
      var nested;
      nested, offset := Decode(b, offset);
      assert packages[0] == nested.Value() && packages[1..] == ReadPackages(b, offset).value;
      var instruction := DeserializeInstruction(nested.kind, nested.buffer);
      list := list + [instruction];
    }
    assert list + [] == list;
  }

  // ----- segment tables

  method SerializeSegment(s: Segment, heap: int) returns (p: PackageBuffer)
    ensures fresh(p) && p.Value() == PutSegment(s, heap)
  {
    p := SerializeInstruction(Instruction(SEGMENT, [Itoa(ToInt32(s.base - heap)), Itoa(s.size), Itoa(s.id)]));
  }

  method SerializeSegmentsTable(table: seq<Segment>, kind: int, heap: int) returns (p: PackageBuffer)
    ensures fresh(p) && p.Value() == PutTable(table, kind, heap)
  {
    p := new PackageBuffer(kind);
    ghost var packages := PutSegments(table, heap);
    var i := 0;
    while i < |table|
      invariant 0 <= i <= |table| && fresh(p) && p.Value() == Package(kind, Nested(packages[..i]))
    {
      var nested := SerializeSegment(table[i], heap);
      p.Nest(nested);
      NestedSnoc(packages[..i], packages[i]);
      assert packages[..i + 1] == packages[..i] + [packages[i]];
      i := i + 1;
    }
    assert packages[..i] == packages;
  }

  method DeserializeSegment(kind: int, b: seq<Byte>) returns (s: Segment)
    requires GetSegment(Package(kind, b)).Some?
    ensures s == GetSegment(Package(kind, b)).value
  {
    var i := DeserializeInstruction(kind, b);
    s := Segment(Atoi(i.args[0]), Atoi(i.args[1]), Atoi(i.args[2]));
  }

  method DeserializeSegmentTable(b: seq<Byte>) returns (table: seq<Segment>)
    requires ReadPackages(b, 0).Some? && GetSegments(ReadPackages(b, 0).value).Some?
    ensures Some(table) == GetSegments(ReadPackages(b, 0).value)
  {
    var offset := 0;
    table := [];
    while offset < |b|
      invariant 0 <= offset && ReadPackages(b, offset).Some? && GetSegments(ReadPackages(b, offset).value).Some?
      invariant table + GetSegments(ReadPackages(b, offset).value).value == GetSegments(ReadPackages(b, 0).value).value
      decreases |b| - offset
    {
      ghost var packages := ReadPackages(b, offset).value;
      var nested;
      nested, offset := Decode(b, offset);
      assert packages[0] == nested.Value() && packages[1..] == ReadPackages(b, offset).value;
      var segment := DeserializeSegment(nested.kind, nested.buffer);
      table := table + [segment];
    }
    assert table + [] == table;
  }

  /** Tries one process number after the other until as many are found as the dictionary has keys besides the first. */
  method SerializeAllSegmentsTables(tables: Tables, heap: int) returns (p: PackageBuffer, ghost n: nat)
    requires forall pid :: pid in tables ==> pid >= 0
    ensures fresh(p) && p.Value() == PutAllTables(tables, n, heap)
    ensures 1 + |Found(tables, n)| >= DictionarySize(tables)
  {
    p := new PackageBuffer(ALL_SEGMENTS_TABLES);
    ghost var bound := Bound(tables.Keys);
    var pid: nat, count := 0, 1;
    while count < DictionarySize(tables)
      invariant fresh(p) && p.Value() == PutAllTables(tables, pid, heap) && count == 1 + |Found(tables, pid)|
      decreases bound - pid
    {
      SearchGoesOn(tables, pid, bound);
      if pid in tables {
        NestTable(p, tables, pid, heap);
        count := count + 1;
      } else {
        assert Found(tables, pid + 1) == Found(tables, pid);
      }
      pid := pid + 1;
    }
    n := pid;
  }

  lemma SearchGoesOn(tables: Tables, pid: nat, bound: nat)
    requires |Found(tables, pid)| < |tables| && forall x :: x in tables ==> 0 <= x < bound
    ensures pid < bound
  {
    FoundAllIff(tables, pid);
  }

  method NestTable(p: PackageBuffer, tables: Tables, pid: nat, heap: int)
    requires pid in tables && p.buffer == PutAllTables(tables, pid, heap).buffer
    modifies p`buffer
    ensures p.buffer == PutAllTables(tables, pid + 1, heap).buffer &&
            |Found(tables, pid + 1)| == |Found(tables, pid)| + 1
  {
    var nested := SerializeSegmentsTable(tables[pid], pid, heap);
    p.Nest(nested);
    FoundNext(tables, pid, heap);
  }

  lemma FoundNext(tables: Tables, pid: nat, heap: int)
    requires pid in tables
    ensures |Found(tables, pid + 1)| == |Found(tables, pid)| + 1
    ensures PutAllTables(tables, pid + 1, heap).buffer
            == PutAllTables(tables, pid, heap).buffer + Closed(PutTable(tables[pid], pid, heap))
  {
    var before := PutTables(tables, Found(tables, pid), heap);
    NestedSnoc(before, PutTable(tables[pid], pid, heap));
    assert PutTables(tables, Found(tables, pid + 1), heap) == before + [PutTable(tables[pid], pid, heap)];
  }

  method DeserializeAllSegmentsTables(b: seq<Byte>) returns (tables: Tables)
    requires ReadPackages(b, 0).Some? && GetTables(ReadPackages(b, 0).value).Some?
    ensures Some(tables) == GetTables(ReadPackages(b, 0).value)
  {
    var offset := 0;
    tables := map[];
    ghost var all, done := ReadPackages(b, 0).value, 0;
    assert all[..0] == [];
    while offset < |b|
      invariant 0 <= offset && ReadPackages(b, offset).Some? && done <= |all| &&
                all[done..] == ReadPackages(b, offset).value
      invariant GetTables(all[..done]) == Some(tables)
      decreases |b| - offset
    {
      NextTable(all, done, tables);
      var nested;
      nested, offset := Decode(b, offset);
      assert all[done..][0] == nested.Value() && all[done..][1..] == all[done + 1..];
      var table := DeserializeSegmentTable(nested.buffer);
      tables := tables[nested.kind := table];
      done := done + 1;
    }
    assert all[..done] == all;
  }

  lemma NextTable(packages: seq<Package>, n: nat, tables: Tables)
    requires n < |packages| && GetTables(packages).Some? && GetTables(packages[..n]) == Some(tables)
    ensures GetTable(packages[n]).Some?
    ensures GetTables(packages[..n + 1]) == Some(tables[packages[n].kind := GetTable(packages[n]).value])
  {
    TablesPrefix(packages, n + 1);
    assert packages[..n + 1][..n] == packages[..n];
  }

  lemma {:induction false} TablesPrefix(packages: seq<Package>, n: nat)
    requires n <= |packages| && GetTables(packages).Some?
    ensures GetTables(packages[..n]).Some?
    decreases |packages| - n
  {
    if n == |packages| {
      assert packages[..n] == packages;
    } else {
      TablesPrefix(packages, n + 1);
      assert packages[..n + 1][..n] == packages[..n];
    }
  }

  // ----- registers and contexts

  method SerializeCpuRegisters(r: Registers) returns (p: PackageBuffer)
    ensures fresh(p) && p.Value() == PutRegisters(r)
  {
    p := new PackageBuffer(CPU_REGISTERS);
    var values := RegisterValues(r);
    var i := 0;
    while i < 12
      invariant 0 <= i <= 12 && fresh(p) && p.Value() == Package(CPU_REGISTERS, Fields(values[..i]))
    {
      p.Add(values[i]);
      FieldsSnoc(values[..i], values[i]);
      assert values[..i + 1] == values[..i] + [values[i]];
      i := i + 1;
    }
    assert values[..12] == values;
  }

  /** Twelve values one after the other. */
  method DeserializeCpuRegisters(b: seq<Byte>) returns (r: Registers)
    requires GetRegisters(b).Some?
    ensures r == GetRegisters(b).value
  {
    var offset, values := 0, [];
    while |values| < 12
      invariant 0 <= offset && |values| <= 12 && ReadFields(b, offset).Some?
      invariant values + ReadFields(b, offset).value == ReadFields(b, 0).value
      decreases 12 - |values|
    {
      assert offset < |b|;
      ghost var rest := ReadFields(b, offset).value;
      var value;
      value, offset := DecodeBuffer(b, offset);
      assert rest == [value] + ReadFields(b, offset).value;
      values := values + [value];
    }
    ghost var all := ReadFields(b, 0).value;
    assert values == all[..12];
    r := Registers(values[0], values[1], values[2], values[3], values[4], values[5], values[6], values[7],
                   values[8], values[9], values[10], values[11]);
  }

  /** package_new_dict of a number of `w` bytes. */
  method NewNumber(kind: int, n: nat, w: nat) returns (p: PackageBuffer)
    ensures fresh(p) && p.Value() == PutNumber(kind, n, w)
  {
    p := new PackageBuffer(kind);
    p.Add(Little(n, w));
    assert [] + Field(Little(n, w)) == Field(Little(n, w));
  }

  method SerializeExecutionContext(c: Context) returns (p: PackageBuffer)
    ensures fresh(p) && p.Value() == PutContext(c)
  {
    ghost var done;
    p, done := SerializeState(c);
    if c.request.Some? {
      var request := SerializeInstruction(c.request.value);
      var nested := new PackageBuffer(KERNEL_REQUEST);
      nested.Nest(request);
      assert nested.buffer == Closed(PutInstruction(c.request.value));
      done := NestPart(p, nested, done);
    }
    assert done == Parts(c);
  }

  /** All of a context but the request. */
  method SerializeState(c: Context) returns (p: PackageBuffer, ghost done: seq<Package>)
    ensures fresh(p) && p.Value() == Package(EXECUTION_CONTEXT, Nested(done))
    ensures done == StateParts(c)
  {
    p := new PackageBuffer(EXECUTION_CONTEXT);
    var nested := SerializeInstructions(c.instructions, true);
    done := NestPart(p, nested, []);
    done := NestNumbers(p, c, done);
    done := NestTables(p, c, done);
  }

  method NestTables(p: PackageBuffer, c: Context, ghost done: seq<Package>) returns (ghost done': seq<Package>)
    requires p.buffer == Nested(done)
    modifies p`buffer
    ensures done' == done + [PutRegisters(c.registers), PutTable(c.segments, SEGMENTS_TABLE, 0)] &&
            p.buffer == Nested(done')
  {
    var nested := SerializeCpuRegisters(c.registers);
    done' := NestPart(p, nested, done);
    nested := SerializeSegmentsTable(c.segments, SEGMENTS_TABLE, 0);
    done' := NestPart(p, nested, done');
  }

  /** The next part of a package that holds the parts `done`. */
  method NestPart(p: PackageBuffer, nested: PackageBuffer, ghost done: seq<Package>) returns (ghost done': seq<Package>)
    requires p != nested && p.buffer == Nested(done)
    modifies p`buffer, nested
    ensures done' == done + [old(nested.Value())] && p.buffer == Nested(done')
  {
    NestedSnoc(done, nested.Value());
    done' := done + [nested.Value()];
    p.Nest(nested);
  }

  method NestNumbers(p: PackageBuffer, c: Context, ghost done: seq<Package>) returns (ghost done': seq<Package>)
    requires p.buffer == Nested(done)
    modifies p`buffer
    ensures done' == done + [PutNumber(PROGRAM_COUNTER, c.programCounter, 4),
            PutNumber(LAST_BURST_TIME, Unsigned(c.lastBurst, U64), 8),
                             PutNumber(PROCESS_PID, c.pid, 4)]
    ensures p.buffer == Nested(done')
  {
    var nested := NewNumber(PROGRAM_COUNTER, c.programCounter, 4);
    done' := NestPart(p, nested, done);
    nested := NewNumber(LAST_BURST_TIME, Unsigned(c.lastBurst, U64), 8);
    done' := NestPart(p, nested, done');
    nested := NewNumber(PROCESS_PID, c.pid, 4);
    done' := NestPart(p, nested, done');
  }

  lemma {:induction false} AssembleCons(d: Draft, part: Part, rest: seq<Part>)
    ensures Assemble(d, [part] + rest) == Assemble(With(d, part), rest)
  {
    if rest == [] {
      assert [part] + rest == [part];
      AssembleSnoc(d, [], part);
      assert [] + [part] == [part];
    } else {
      var n := |rest| - 1;
      assert ([part] + rest)[..|rest|] == [part] + rest[..n];
      AssembleCons(d, part, rest[..n]);
    }
  }

  method DecodeNumber(b: seq<Byte>, w: nat) returns (n: nat)
    requires GetNumber(b, w).Some?
    ensures n == GetNumber(b, w).value
  {
    var value, next := DecodeBuffer(b, 0);
    n := Number(value);
  }

  /** One part, stored where its type says. */
  method StorePart(d: Draft, p: PackageBuffer) returns (d': Draft)
    requires GetPart(p.Value()).Some?
    ensures d' == With(d, GetPart(p.Value()).value)
  {
    if p.kind == EC_INSTRUCTIONS {
      var list := DeserializeInstructions(p.buffer);
      d' := d.(instructions := Some(list));
    } else if p.kind == PROGRAM_COUNTER {
      var n := DecodeNumber(p.buffer, 4);
      d' := d.(programCounter := Some(n));
    } else if p.kind == LAST_BURST_TIME {
      var n := DecodeNumber(p.buffer, 8);
      d' := d.(lastBurst := Some(Signed(n, U64)));
    } else if p.kind == PROCESS_PID {
      var n := DecodeNumber(p.buffer, 4);
      d' := d.(pid := Some(n));
    } else if p.kind == CPU_REGISTERS {
      var r := DeserializeCpuRegisters(p.buffer);
      d' := d.(registers := Some(r));
    } else if p.kind == SEGMENTS_TABLE {
      var table := DeserializeSegmentTable(p.buffer);
      d' := d.(segments := Some(table));
    } else {
      var inner, next := Decode(p.buffer, 0);
      var request := DeserializeInstruction(inner.kind, inner.buffer);
      d' := d.(request := Some(request));
    }
  }

  method DeserializeExecutionContext(p: PackageBuffer) returns (d: Draft)
    requires GetContext(p.Value()).Some?
    ensures d == GetContext(p.Value()).value
  {
    ghost var all := GetParts(ReadPackages(p.buffer, 0).value).value;
    var offset := 0;
    d := BLANK;
    while offset < |p.buffer|
      invariant 0 <= offset && ReadPackages(p.buffer, offset).Some? &&
                GetParts(ReadPackages(p.buffer, offset).value).Some?
      invariant Assemble(d, GetParts(ReadPackages(p.buffer, offset).value).value) == Assemble(BLANK, all)
      decreases |p.buffer| - offset
    {
      ghost var packages := ReadPackages(p.buffer, offset).value;
      var nested;
      nested, offset := Decode(p.buffer, offset);
      ghost var rest := ReadPackages(p.buffer, offset).value;
      assert packages[0] == nested.Value() && packages[1..] == rest;
      AssembleCons(d, GetPart(nested.Value()).value, GetParts(rest).value);
      d := StorePart(d, nested);
    }
  }
}
