module Bytes {
  type Byte = b: int | 0 <= b < 256

  function Zeros(n: nat): (b: seq<Byte>)
    ensures |b| == n && forall i :: 0 <= i < n ==> b[i] == 0
  {
    seq(n, _ => 0)
  }

  function Splice(bytes: seq<Byte>, at: nat, data: seq<Byte>): (r: seq<Byte>)
    requires at + |data| <= |bytes|
    ensures |r| == |bytes|
    ensures forall a :: 0 <= a < |bytes| ==> r[a] == if at <= a < at + |data| then data[a - at] else bytes[a]
  {
    bytes[..at] + data + bytes[at + |data|..]
  }

  /** The characters of a C string held in a buffer. */
  function CString(bytes: seq<Byte>): (s: seq<Byte>)
    ensures |s| <= |bytes| && s == bytes[..|s|] && 0 !in s
  {
    if bytes == [] || bytes[0] == 0 then [] else [bytes[0]] + CString(bytes[1..])
  }

  lemma {:induction false} CStringOfText(text: seq<Byte>)
    requires 0 !in text
    ensures CString(text) == text
  {
    if text != [] {
      CStringOfText(text[1..]);
    }
  }

  lemma {:induction false} CStringOfTerminated(text: seq<Byte>)
    requires 0 !in text
    ensures CString(text + [0]) == text
  {
    if text != [] {
      assert (text + [0])[1..] == text[1..] + [0];
      CStringOfTerminated(text[1..]);
    }
  }

  lemma SliceOfSlice(bytes: seq<Byte>, at: nat, size: nat, a: nat, b: nat)
    requires a <= b <= size && at + size <= |bytes|
    ensures bytes[at..at + size][a..b] == bytes[at + a..at + b]
  {
    var l, r := bytes[at..at + size][a..b], bytes[at + a..at + b];
    assert |l| == |r| && forall i :: 0 <= i < |l| ==> l[i] == bytes[at + a + i] == r[i];
  }
}
