/** The pointer list of an indirect block: 4-byte little-endian block numbers, 0 meaning none. */
module BlockPointers {
  import opened Bytes

  const LIMIT := 0x1_0000_0000

  function Encode(n: nat): (b: seq<Byte>)
    requires n < LIMIT
    ensures |b| == 4
  {
    [n % 0x100, n / 0x100 % 0x100, n / 0x1_0000 % 0x100, n / 0x100_0000]
  }

  function Decode(b: seq<Byte>): nat
    requires |b| == 4
  {
    var b0: int, b1: int, b2: int, b3: int := b[0], b[1], b[2], b[3];
    b0 + 0x100 * b1 + 0x1_0000 * b2 + 0x100_0000 * b3
  }

  lemma DecodeEncode(n: nat)
    requires n < LIMIT
    ensures Decode(Encode(n)) == n
  {
    var q1, q2, q3 := n / 0x100, n / 0x1_0000, n / 0x100_0000;
    assert q2 == q1 / 0x100 && q3 == q2 / 0x100;
    assert n == 0x100 * q1 + n % 0x100 && q1 == 0x100 * q2 + q1 % 0x100 && q2 == 0x100 * q3 + q2 % 0x100;
  }

  /** All pointers of a block that are not 0, in order (get_bf_ip). */
  function GetPtrs(block: seq<Byte>): seq<nat> {
    if |block| < 4 then []
    else
      var n := Decode(block[..4]);
      (if n != 0 then [n] else []) + GetPtrs(block[4..])
  }

  function EncodeAll(ptrs: seq<nat>): (b: seq<Byte>)
    requires forall i :: 0 <= i < |ptrs| ==> ptrs[i] < LIMIT
    ensures |b| == 4 * |ptrs|
  {
    if ptrs == [] then [] else Encode(ptrs[0]) + EncodeAll(ptrs[1..])
  }

  /** The list written over the front of a block (set_bf_ip). */
  function PutPtrs(block: seq<Byte>, ptrs: seq<nat>): (b: seq<Byte>)
    requires forall i :: 0 <= i < |ptrs| ==> ptrs[i] < LIMIT
    requires 4 * |ptrs| <= |block|
    ensures |b| == |block|
  {
    EncodeAll(ptrs) + block[4 * |ptrs|..]
  }

  ghost predicate Usable(ptrs: seq<nat>) {
    forall i :: 0 <= i < |ptrs| ==> 0 < ptrs[i] < LIMIT
  }

  /** A block holds no pointer exactly when its pointer slots are all zero. */
  lemma {:induction false} NoPointersIff(block: seq<Byte>)
    requires |block| % 4 == 0
    ensures GetPtrs(block) == [] <==> block == Zeros(|block|)
  {
    if |block| >= 4 {
      NoPointersIff(block[4..]);
      var n := Decode(block[..4]);
      assert n == 0 <==> forall i :: 0 <= i < 4 ==> block[i] == 0;
      if n == 0 && block[4..] == Zeros(|block| - 4) {
        assert forall i :: 4 <= i < |block| ==> block[i] == block[4..][i - 4];
      }
      if block == Zeros(|block|) {
        assert block[4..] == Zeros(|block| - 4);
      }
    }
  }

  /** What is written to a block that is zero behind the list is exactly what is read back. */
  lemma {:induction false} GetAfterPut(ptrs: seq<nat>, rest: nat)
    requires Usable(ptrs) && rest % 4 == 0
    ensures GetPtrs(EncodeAll(ptrs) + Zeros(rest)) == ptrs
  {
    if ptrs == [] {
      assert EncodeAll(ptrs) + Zeros(rest) == Zeros(rest);
      NoPointersIff(Zeros(rest));
    } else {
      var block := EncodeAll(ptrs) + Zeros(rest);
      assert block[..4] == Encode(ptrs[0]);
      assert block[4..] == EncodeAll(ptrs[1..]) + Zeros(rest);
      DecodeEncode(ptrs[0]);
      GetAfterPut(ptrs[1..], rest);
    }
  }

  function NonZero(ptrs: seq<nat>): seq<nat> {
    if ptrs == [] then [] else (if ptrs[0] == 0 then [] else [ptrs[0]]) + NonZero(ptrs[1..])
  }

  /** Of any pointers in a block the list has those that are not 0, also behind a 0, in their order. */
  lemma {:induction false} GetsNonZero(ptrs: seq<nat>)
    requires forall i :: 0 <= i < |ptrs| ==> ptrs[i] < LIMIT
    ensures GetPtrs(EncodeAll(ptrs)) == NonZero(ptrs)
  {
    if ptrs != [] {
      var block := EncodeAll(ptrs);
      assert block[..4] == Encode(ptrs[0]) && block[4..] == EncodeAll(ptrs[1..]);
      DecodeEncode(ptrs[0]);
      GetsNonZero(ptrs[1..]);
    }
  }

  lemma {:induction false} GetPtrsLength(block: seq<Byte>)
    ensures 4 * |GetPtrs(block)| <= |block|
    ensures forall i :: 0 <= i < |GetPtrs(block)| ==> 0 < GetPtrs(block)[i] < LIMIT
  {
    if |block| >= 4 {
      GetPtrsLength(block[4..]);
    }
  }
}
