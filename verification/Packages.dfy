/**
 The package format: a 64-bit length, a 32-bit type, then the content, which is a sequence
 either of values, each with its 64-bit length before it, or of packages again.
 */
module Packages {
  import opened Options
  import opened Bytes

  // ----- numbers in memory order

  const U64 := 0x1_0000_0000_0000_0000
  const U32 := 0x1_0000_0000

  /** `256` to the power `w`. */
  function Range(w: nat): (r: nat)
    ensures r > 0
  {
    if w == 0 then 1 else 256 * Range(w - 1)
  }

  function Little(n: nat, w: nat): (b: seq<Byte>)
    ensures |b| == w
  {
    if w == 0 then [] else [n % 256] + Little(n / 256, w - 1)
  }

  function Number(b: seq<Byte>): nat {
    if b == [] then 0 else b[0] + 256 * Number(b[1..])
  }

  lemma {:induction false} NumberOfLittle(n: nat, w: nat)
    requires n < Range(w)
    ensures Number(Little(n, w)) == n
  {
    if w > 0 {
      NumberOfLittle(n / 256, w - 1);
    }
  }

  lemma {:induction false} LittleOfNumber(b: seq<Byte>)
    ensures Number(b) < Range(|b|) && Little(Number(b), |b|) == b
  {
    if b != [] {
      LittleOfNumber(b[1..]);
    }
  }

  lemma Widths()
    ensures Range(8) == U64 && Range(4) == U32
  {
    assert Range(2) == 0x1_0000 && Range(4) == U32;
    assert Range(6) == 0x1_0000_0000_0000;
  }

  /** Two's complement. */
  function Unsigned(n: int, modulus: nat): nat
    requires modulus > 0
  {
    n % modulus
  }

  function Signed(n: nat, modulus: nat): int {
    if 2 * n < modulus then n else n - modulus
  }

  lemma SignedOfUnsigned(n: int, modulus: nat)
    requires modulus > 0 && 0 <= 2 * n + modulus && 2 * n < modulus
    ensures Unsigned(n, modulus) < modulus && Signed(Unsigned(n, modulus), modulus) == n
  {
    if n < 0 {
      assert (n + modulus) % modulus == n + modulus;
    }
  }

  predicate IsInt32(n: int) {
    -0x8000_0000 <= n < 0x8000_0000
  }

  function PutKind(kind: int): seq<Byte> {
    Little(Unsigned(kind, U32), 4)
  }

  function GetKind(b: seq<Byte>): int {
    Signed(Number(b), U32)
  }

  lemma KindReads(kind: int)
    requires IsInt32(kind)
    ensures GetKind(PutKind(kind)) == kind
  {
    Widths();
    NumberOfLittle(Unsigned(kind, U32), 4);
    SignedOfUnsigned(kind, U32);
  }

  lemma KindWrites(b: seq<Byte>)
    requires |b| == 4
    ensures PutKind(GetKind(b)) == b && IsInt32(GetKind(b))
  {
    Widths();
    LittleOfNumber(b);
    var n := Number(b);
    if 2 * n >= U32 {
      assert (n - U32) % U32 == n;
    }
  }

  // ----- values and packages

  /** A package; its size is the length of the buffer. */
  datatype Package = Package(kind: int, buffer: seq<Byte>)

  predicate Sound(p: Package) {
    IsInt32(p.kind) && |p.buffer| < U64
  }

  /** One value with its length (package_add). */
  function Field(value: seq<Byte>): (b: seq<Byte>)
    ensures |b| == 8 + |value|
  {
    Little(|value|, 8) + value
  }

  /** A whole package as bytes (package_close). */
  function Closed(p: Package): (b: seq<Byte>)
    ensures |b| == 12 + |p.buffer|
  {
    Little(|p.buffer|, 8) + PutKind(p.kind) + p.buffer
  }

  function Fields(values: seq<seq<Byte>>): seq<Byte> {
    if values == [] then [] else Field(values[0]) + Fields(values[1..])
  }

  function Nested(packages: seq<Package>): seq<Byte> {
    if packages == [] then [] else Closed(packages[0]) + Nested(packages[1..])
  }

  // ----- decoding, with the offset behind what was read; None where the code would read past the end

  function ReadField(b: seq<Byte>, offset: nat): (r: Option<(seq<Byte>, nat)>)
    ensures r.Some? ==> offset + 8 <= r.value.1 <= |b| && |r.value.0| == r.value.1 - offset - 8
  {
    if offset + 8 > |b| then None
    else
      var size := Number(b[offset..offset + 8]);
      if offset + 8 + size > |b| then None else Some((b[offset + 8..offset + 8 + size], offset + 8 + size))
  }

  function ReadPackage(b: seq<Byte>, offset: nat): (r: Option<(Package, nat)>)
    ensures r.Some? ==> offset + 12 <= r.value.1 <= |b| && |r.value.0.buffer| == r.value.1 - offset - 12
  {
    if offset + 12 > |b| then None
    else
      var size := Number(b[offset..offset + 8]);
      if offset + 12 + size > |b| then None
      else Some((Package(GetKind(b[offset + 8..offset + 12]), b[offset + 12..offset + 12 + size]), offset + 12 + size))
  }

  /** All values from `offset` to the end: the loop every reader of values is. */
  function ReadFields(b: seq<Byte>, offset: nat): Option<seq<seq<Byte>>>
    decreases |b| - offset
  {
    if offset >= |b| then Some([])
    else
      var first := ReadField(b, offset);
      if first.None? then None
      else
        var rest := ReadFields(b, first.value.1);
        if rest.None? then None else Some([first.value.0] + rest.value)
  }

  function ReadPackages(b: seq<Byte>, offset: nat): Option<seq<Package>>
    decreases |b| - offset
  {
    if offset >= |b| then Some([])
    else
      var first := ReadPackage(b, offset);
      if first.None? then None
      else
        var rest := ReadPackages(b, first.value.1);
        if rest.None? then None else Some([first.value.0] + rest.value)
  }

  // ----- one item

  lemma FieldReads(b: seq<Byte>, offset: nat, value: seq<Byte>)
    requires |value| < U64 && offset <= |b| && Field(value) <= b[offset..]
    ensures ReadField(b, offset) == Some((value, offset + 8 + |value|))
  {
    Widths();
    NumberOfLittle(|value|, 8);
    var rest := b[offset..];
    assert b[offset..offset + 8] == rest[..8] == Field(value)[..8];
    assert b[offset + 8..offset + 8 + |value|] == rest[8..8 + |value|] == Field(value)[8..];
  }

  lemma FieldWrites(b: seq<Byte>, offset: nat)
    requires ReadField(b, offset).Some?
    ensures var (value, next) := ReadField(b, offset).value; b[offset..next] == Field(value) && |value| < U64
  {
    Widths();
    LittleOfNumber(b[offset..offset + 8]);
    var (value, next) := ReadField(b, offset).value;
    assert b[offset..next] == b[offset..offset + 8] + b[offset + 8..next];
  }

  lemma ClosedParts(p: Package)
    ensures Closed(p)[..8] == Little(|p.buffer|, 8) && Closed(p)[8..12] == PutKind(p.kind) &&
            Closed(p)[12..] == p.buffer
  {
    assert Closed(p) == Little(|p.buffer|, 8) + (PutKind(p.kind) + p.buffer);
  }

  lemma PackageReads(b: seq<Byte>, offset: nat, p: Package)
    requires Sound(p) && offset <= |b| && Closed(p) <= b[offset..]
    ensures ReadPackage(b, offset) == Some((p, offset + 12 + |p.buffer|))
  {
    Widths();
    NumberOfLittle(|p.buffer|, 8);
    KindReads(p.kind);
    var rest := b[offset..];
    ClosedParts(p);
    assert b[offset..offset + 8] == rest[..8] == Closed(p)[..8];
    assert b[offset + 8..offset + 12] == rest[8..12] == Closed(p)[8..12];
    assert b[offset + 12..offset + 12 + |p.buffer|] == rest[12..12 + |p.buffer|] == Closed(p)[12..];
  }

  lemma PackageWrites(b: seq<Byte>, offset: nat)
    requires ReadPackage(b, offset).Some?
    ensures var (p, next) := ReadPackage(b, offset).value; b[offset..next] == Closed(p) && Sound(p)
  {
    Widths();
    LittleOfNumber(b[offset..offset + 8]);
    KindWrites(b[offset + 8..offset + 12]);
    var (p, next) := ReadPackage(b, offset).value;
    assert b[offset..next] == b[offset..offset + 8] + b[offset + 8..offset + 12] + b[offset + 12..next];
  }

  // ----- all items

  predicate AllShort(values: seq<seq<Byte>>) {
    forall i :: 0 <= i < |values| ==> |values[i]| < U64
  }

  predicate AllSound(packages: seq<Package>) {
    forall i :: 0 <= i < |packages| ==> Sound(packages[i])
  }

  lemma {:induction false} FieldsRead(b: seq<Byte>, offset: nat, values: seq<seq<Byte>>)
    requires offset <= |b| && AllShort(values) && b[offset..] == Fields(values)
    ensures ReadFields(b, offset) == Some(values)
    decreases values
  {
    if values != [] {
      FieldReads(b, offset, values[0]);
      var next := offset + 8 + |values[0]|;
      assert b[next..] == b[offset..][next - offset..] == Fields(values[1..]);
      FieldsRead(b, next, values[1..]);
      assert values == [values[0]] + values[1..];
    } else {
      assert |b[offset..]| == 0;
    }
  }

  lemma {:induction false} FieldsWritten(b: seq<Byte>, offset: nat)
    requires offset <= |b| && ReadFields(b, offset).Some?
    ensures var values := ReadFields(b, offset).value; AllShort(values) && b[offset..] == Fields(values)
    decreases |b| - offset
  {
    if offset < |b| {
      FieldWrites(b, offset);
      var (value, next) := ReadField(b, offset).value;
      FieldsWritten(b, next);
      assert b[offset..] == b[offset..next] + b[next..];
    }
  }

  /** A buffer reads as these values exactly when it is what adding them one by one makes. */
  lemma FieldsIff(b: seq<Byte>, values: seq<seq<Byte>>)
    ensures ReadFields(b, 0) == Some(values) <==> AllShort(values) && b == Fields(values)
  {
    assert b[0..] == b;
    if ReadFields(b, 0) == Some(values) {
      FieldsWritten(b, 0);
    }
    if AllShort(values) && b == Fields(values) {
      FieldsRead(b, 0, values);
    }
  }

  lemma {:induction false} NestedRead(b: seq<Byte>, offset: nat, packages: seq<Package>)
    requires offset <= |b| && AllSound(packages) && b[offset..] == Nested(packages)
    ensures ReadPackages(b, offset) == Some(packages)
    decreases packages
  {
    if packages != [] {
      PackageReads(b, offset, packages[0]);
      var next := offset + 12 + |packages[0].buffer|;
      assert b[next..] == b[offset..][next - offset..] == Nested(packages[1..]);
      NestedRead(b, next, packages[1..]);
      assert packages == [packages[0]] + packages[1..];
    } else {
      assert |b[offset..]| == 0;
    }
  }

  lemma {:induction false} NestedWritten(b: seq<Byte>, offset: nat)
    requires offset <= |b| && ReadPackages(b, offset).Some?
    ensures var packages := ReadPackages(b, offset).value; AllSound(packages) && b[offset..] == Nested(packages)
    decreases |b| - offset
  {
    if offset < |b| {
      PackageWrites(b, offset);
      var (p, next) := ReadPackage(b, offset).value;
      NestedWritten(b, next);
      assert b[offset..] == b[offset..next] + b[next..];
    }
  }

  /** The same of packages: decoding gives back what was nested, and nothing else decodes to it. */
  lemma NestedIff(b: seq<Byte>, packages: seq<Package>)
    ensures ReadPackages(b, 0) == Some(packages) <==> AllSound(packages) && b == Nested(packages)
  {
    assert b[0..] == b;
    if ReadPackages(b, 0) == Some(packages) {
      NestedWritten(b, 0);
    }
    if AllSound(packages) && b == Nested(packages) {
      NestedRead(b, 0, packages);
    }
  }
}
