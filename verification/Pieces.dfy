/**
 Intervals of the memory server's address space: the `base`/`offset` pairs that
 `t_segment` and `hole` share, and the arithmetic of lists of them.
 */
module Pieces {
  import opened Bytes

  /** What a segment or a hole occupies: `len` addresses from `base` on. */
  datatype Piece = Piece(base: nat, len: nat, id: int) {
    function End(): nat { base + len }
  }

  predicate Holds(p: Piece, b: int) {
    p.base <= b < p.End()
  }

  /** No address lies in both; an empty piece holds none. */
  predicate Apart(p: Piece, q: Piece) {
    p.len == 0 || q.len == 0 || p.End() <= q.base || q.End() <= p.base
  }

  ghost predicate AllApart(ps: seq<Piece>) {
    forall i, j {:trigger Apart(ps[i], ps[j])} :: 0 <= i < j < |ps| ==> Apart(ps[i], ps[j])
  }

  ghost predicate CrossApart(ps: seq<Piece>, qs: seq<Piece>) {
    forall i, j {:trigger Apart(ps[i], qs[j])} :: 0 <= i < |ps| && 0 <= j < |qs| ==> Apart(ps[i], qs[j])
  }

  ghost predicate AllBelow(ps: seq<Piece>, limit: int) {
    forall i :: 0 <= i < |ps| ==> ps[i].End() <= limit
  }

  ghost predicate AllNonEmpty(ps: seq<Piece>) {
    forall i :: 0 <= i < |ps| ==> ps[i].len > 0
  }

  ghost predicate SomeHolds(ps: seq<Piece>, b: int) {
    exists i :: 0 <= i < |ps| && Holds(ps[i], b)
  }

  function Total(ps: seq<Piece>): nat {
    if ps == [] then 0 else ps[0].len + Total(ps[1..])
  }

  function RemoveAt<T>(s: seq<T>, k: nat): seq<T>
    requires k < |s|
  {
    s[..k] + s[k + 1..]
  }

  // ----- totals

  lemma {:induction false} TotalConcat(ps: seq<Piece>, qs: seq<Piece>)
    ensures Total(ps + qs) == Total(ps) + Total(qs)
  {
    if ps == [] {
      assert ps + qs == qs;
    } else {
      assert (ps + qs)[1..] == ps[1..] + qs;
      TotalConcat(ps[1..], qs);
    }
  }

  lemma TotalAt(ps: seq<Piece>, k: nat)
    requires k < |ps|
    ensures Total(ps) == Total(RemoveAt(ps, k)) + ps[k].len
  {
    assert ps == ps[..k] + ([ps[k]] + ps[k + 1..]);
    assert ([ps[k]] + ps[k + 1..])[1..] == ps[k + 1..];
    TotalConcat(ps[..k], [ps[k]] + ps[k + 1..]);
    TotalConcat(ps[..k], ps[k + 1..]);
  }

  lemma TotalUpdate(ps: seq<Piece>, k: nat, p: Piece)
    requires k < |ps|
    ensures Total(ps[k := p]) == Total(ps) - ps[k].len + p.len
  {
    TotalAt(ps, k);
    TotalAt(ps[k := p], k);
    assert RemoveAt(ps[k := p], k) == RemoveAt(ps, k);
  }

  lemma TotalAppend(ps: seq<Piece>, p: Piece)
    ensures Total(ps + [p]) == Total(ps) + p.len
  {
    TotalConcat(ps, [p]);
  }

  // ----- counting the addresses a list of pieces holds

  function Span(p: Piece): set<int> {
    set b | p.base <= b < p.End() && Holds(p, b)
  }

  lemma {:induction false} SpanSize(p: Piece)
    ensures |Span(p)| == p.len
    decreases p.len
  {
    if p.len == 0 {
      assert Span(p) == {};
    } else {
      var q := p.(len := p.len - 1);
      SpanSize(q);
      assert Span(p) == Span(q) + {p.End() - 1};
    }
  }

  function Held(ps: seq<Piece>): set<int> {
    if ps == [] then {} else Span(ps[0]) + Held(ps[1..])
  }

  lemma {:induction false} HeldMeaning(ps: seq<Piece>, b: int)
    ensures b in Held(ps) <==> SomeHolds(ps, b)
  {
    if ps != [] {
      HeldMeaning(ps[1..], b);
      if b in Held(ps) {
        if b in Span(ps[0]) {
          assert Holds(ps[0], b);
        } else {
          var i :| 0 <= i < |ps[1..]| && Holds(ps[1..][i], b);
          assert Holds(ps[i + 1], b);
        }
      }
      if SomeHolds(ps, b) {
        var i :| 0 <= i < |ps| && Holds(ps[i], b);
        if i > 0 {
          assert Holds(ps[1..][i - 1], b);
        }
      }
    }
  }

  /** Pieces that are apart hold exactly as many addresses as their lengths add up to. */
  lemma {:induction false} HeldSize(ps: seq<Piece>)
    requires AllApart(ps)
    ensures |Held(ps)| == Total(ps)
  {
    if ps != [] {
      HeldSize(ps[1..]);
      SpanSize(ps[0]);
      forall b | b in Span(ps[0]) ensures b !in Held(ps[1..]) {
        HeldMeaning(ps[1..], b);
        forall i | 0 <= i < |ps[1..]| ensures !Holds(ps[1..][i], b) {
          assert Apart(ps[0], ps[i + 1]);
        }
      }
      assert Span(ps[0]) !! Held(ps[1..]);
    }
  }

  /** Inside `[0, limit)`, apart pieces leave exactly `limit - Total` addresses unheld. */
  lemma Unheld(ps: seq<Piece>, limit: nat)
    requires AllApart(ps) && AllBelow(ps, limit)
    ensures |Span(Piece(0, limit, 0)) - Held(ps)| == limit - Total(ps)
  {
    HeldSize(ps);
    SpanSize(Piece(0, limit, 0));
    forall b | b in Held(ps) ensures b in Span(Piece(0, limit, 0)) {
      HeldMeaning(ps, b);
    }
    assert Held(ps) <= Span(Piece(0, limit, 0));
  }

  // ----- keeping pieces apart

  /** All that `q` holds, `p` holds. */
  predicate Within(q: Piece, p: Piece) {
    q.len == 0 || (p.base <= q.base && q.End() <= p.End())
  }

  lemma ShrinkApart(hs: seq<Piece>, k: nat, q: Piece)
    requires AllApart(hs) && k < |hs| && Within(q, hs[k])
    ensures AllApart(hs[k := q])
  {
    var cs := hs[k := q];
    forall i, j | 0 <= i < j < |cs| ensures Apart(cs[i], cs[j]) {
      assert Apart(hs[i], hs[j]);
    }
  }

  lemma ShrinkCross(ps: seq<Piece>, hs: seq<Piece>, k: nat, q: Piece)
    requires CrossApart(ps, hs) && k < |hs| && Within(q, hs[k])
    ensures CrossApart(ps, hs[k := q])
  {
    var cs := hs[k := q];
    forall i, j | 0 <= i < |ps| && 0 <= j < |cs| ensures Apart(ps[i], cs[j]) {
      assert Apart(ps[i], hs[j]);
    }
  }

  lemma RemoveApart(hs: seq<Piece>, e: nat)
    requires AllApart(hs) && e < |hs|
    ensures AllApart(RemoveAt(hs, e))
  {
    var rs := RemoveAt(hs, e);
    forall i, j | 0 <= i < j < |rs| ensures Apart(rs[i], rs[j]) {
      assert Apart(hs[if i < e then i else i + 1], hs[if j < e then j else j + 1]);
    }
  }

  lemma RemoveCross(ps: seq<Piece>, hs: seq<Piece>, e: nat)
    requires CrossApart(ps, hs) && e < |hs|
    ensures CrossApart(ps, RemoveAt(hs, e))
  {
    var rs := RemoveAt(hs, e);
    forall i, j | 0 <= i < |ps| && 0 <= j < |rs| ensures Apart(ps[i], rs[j]) {
      assert Apart(ps[i], hs[if j < e then j else j + 1]);
    }
  }

  lemma CrossSwap(ps: seq<Piece>, hs: seq<Piece>)
    requires CrossApart(ps, hs)
    ensures CrossApart(hs, ps)
  {
    forall i, j | 0 <= i < |hs| && 0 <= j < |ps| ensures Apart(hs[i], ps[j]) {
      assert Apart(ps[j], hs[i]);
    }
  }

  lemma AppendApart(ps: seq<Piece>, p: Piece)
    requires AllApart(ps) && forall i :: 0 <= i < |ps| ==> Apart(ps[i], p)
    ensures AllApart(ps + [p])
  {
    var qs := ps + [p];
    forall i, j | 0 <= i < j < |qs| ensures Apart(qs[i], qs[j]) {
      assert j < |ps| ==> Apart(ps[i], ps[j]);
    }
  }

  lemma AppendCross(ps: seq<Piece>, hs: seq<Piece>, p: Piece)
    requires CrossApart(ps, hs) && forall i :: 0 <= i < |ps| ==> Apart(ps[i], p)
    ensures CrossApart(ps, hs + [p])
  {
    var qs := hs + [p];
    forall i, j | 0 <= i < |ps| && 0 <= j < |qs| ensures Apart(ps[i], qs[j]) {
      assert j < |hs| ==> Apart(ps[i], hs[j]);
    }
  }

  // ----- neighbouring holes (compact_hole_list)

  predicate Touching(hs: seq<Piece>, i: nat)
    requires i + 1 < |hs|
  {
    hs[i].End() == hs[i + 1].base
  }

  /** Grows hole `i` over its successor in the list and drops the successor. */
  function MergeAt(hs: seq<Piece>, i: nat): seq<Piece>
    requires i + 1 < |hs|
  {
    RemoveAt(hs[i := hs[i].(len := hs[i].len + hs[i + 1].len)], i + 1)
  }

  /** The scan from position `i`: after a merge it skips a position. */
  function MergeFrom(hs: seq<Piece>, i: nat): seq<Piece>
    decreases |hs| - i
  {
    if i + 1 >= |hs| then hs
    else if Touching(hs, i) then MergeFrom(MergeAt(hs, i), i + 2)
    else MergeFrom(hs, i + 1)
  }

  /** The free addresses, their number and their separation, which merging must not change. */
  ghost predicate SameFree(hs: seq<Piece>, ms: seq<Piece>) {
    && (forall b :: SomeHolds(hs, b) <==> SomeHolds(ms, b))
    && Total(hs) == Total(ms)
  }

  lemma MergeAtKeepsBytes(hs: seq<Piece>, i: nat)
    requires i + 1 < |hs| && Touching(hs, i)
    ensures SameFree(hs, MergeAt(hs, i))
  {
    var ms := MergeAt(hs, i);
    var grown := hs[i].(len := hs[i].len + hs[i + 1].len);
    TotalUpdate(hs, i, grown);
    TotalAt(hs[i := grown], i + 1);
    forall b ensures SomeHolds(hs, b) <==> SomeHolds(ms, b) {
      if SomeHolds(hs, b) {
        var k :| 0 <= k < |hs| && Holds(hs[k], b);
        assert Holds(ms[if k <= i then k else k - 1], b);
      }
      if SomeHolds(ms, b) {
        var k :| 0 <= k < |ms| && Holds(ms[k], b);
        if k < i {
          assert Holds(hs[k], b);
        } else if k == i {
          assert Holds(hs[i], b) || Holds(hs[i + 1], b);
        } else {
          assert Holds(hs[k + 1], b);
        }
      }
    }
  }

  /** What is apart from both halves is apart from their union. */
  lemma MergeAtKeepsApart(hs: seq<Piece>, i: nat, ps: seq<Piece>)
    requires i + 1 < |hs| && Touching(hs, i)
    requires AllApart(hs) && CrossApart(ps, hs)
    ensures AllApart(MergeAt(hs, i)) && CrossApart(ps, MergeAt(hs, i))
  {
    var ms := MergeAt(hs, i);
    var was := k => if k <= i then k else k + 1;
    forall j, k | 0 <= j < k < |ms| ensures Apart(ms[j], ms[k]) {
      assert Apart(hs[was(j)], hs[was(k)]);
      if j == i { assert Apart(hs[i + 1], hs[was(k)]); }
      if k == i { assert Apart(hs[was(j)], hs[i + 1]); }
    }
    forall j, k | 0 <= j < |ps| && 0 <= k < |ms| ensures Apart(ps[j], ms[k]) {
      assert Apart(ps[j], hs[was(k)]);
      if k == i { assert Apart(ps[j], hs[i + 1]); }
    }
  }

  /**
   Merging keeps the exact set of free addresses, their number, and the separation from
   each other and from whatever else (`ps`) shares the memory, for any order of the list.
   */
  lemma {:induction false} MergeKeepsFree(hs: seq<Piece>, i: nat, ps: seq<Piece>, limit: int)
    requires AllApart(hs) && CrossApart(ps, hs) && AllBelow(hs, limit)
    ensures SameFree(hs, MergeFrom(hs, i))
    ensures AllApart(MergeFrom(hs, i)) && CrossApart(ps, MergeFrom(hs, i))
    ensures AllBelow(MergeFrom(hs, i), limit)
    decreases |hs| - i
  {
    if i + 1 >= |hs| {
    } else if Touching(hs, i) {
      MergeAtKeepsBytes(hs, i);
      MergeAtKeepsApart(hs, i, ps);
      var ms := MergeAt(hs, i);
      assert forall k :: 0 <= k < |ms| ==> ms[k].End() == (if k < i then hs[k] else hs[k + 1]).End();
      MergeKeepsFree(ms, i + 2, ps, limit);
    } else {
      MergeKeepsFree(hs, i + 1, ps, limit);
    }
  }
}
