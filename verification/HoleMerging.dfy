/** What the pass over the hole list merges, and what it leaves. */
module HoleMerging {
  import opened Bytes
  import opened Pieces
  import opened Layout
  import opened LayoutInvariant
  import opened ProcessView

  /** The hole at `i` ends where the next one in the list starts. */
  predicate EndsAtNext(hs: seq<Piece>, i: nat)
    requires i + 1 < |hs|
  {
    hs[i].base + hs[i].len == hs[i + 1].base
  }

  ghost predicate NoneMeets(hs: seq<Piece>) {
    forall i :: 0 <= i && i + 1 < |hs| ==> !EndsAtNext(hs, i)
  }

  /** The first position from which two neighbours meet. */
  ghost predicate FirstMeets(hs: seq<Piece>, i: nat) {
    i + 1 < |hs| && EndsAtNext(hs, i) && forall j :: 0 <= j < i ==> !EndsAtNext(hs, j)
  }

  /** What comes before the pass stays out of it. */
  lemma {:induction false} PassFrom(front: seq<Piece>, hs: seq<Piece>)
    ensures MergeFrom(front + hs, |front|) == front + MergeFrom(hs, 0)
    decreases |hs|
  {
    PassAt(front, hs, 0);
  }

  lemma {:induction false} PassAt(front: seq<Piece>, hs: seq<Piece>, i: nat)
    ensures MergeFrom(front + hs, |front| + i) == front + MergeFrom(hs, i)
    decreases |hs| - i
  {
    if i + 1 < |hs| {
      var all := front + hs;
      assert all[|front| + i] == hs[i] && all[|front| + i + 1] == hs[i + 1];
      if EndsAtNext(hs, i) {
        assert MergeAt(all, |front| + i) == front + MergeAt(hs, i);
        PassAt(front, MergeAt(hs, i), i + 2);
      } else {
        PassAt(front, hs, i + 1);
      }
    }
  }

  lemma {:induction false} PassTo(hs: seq<Piece>, from: nat, i: nat)
    requires from <= i < |hs| && forall j :: from <= j < i ==> !EndsAtNext(hs, j)
    ensures MergeFrom(hs, from) == MergeFrom(hs, i)
    decreases i - from
  {
    if from < i {
      assert !EndsAtNext(hs, from);
      PassTo(hs, from + 1, i);
    }
  }

  /** No neighbours meet exactly when the pass changes nothing. */
  lemma UnchangedIff(hs: seq<Piece>)
    ensures MergeFrom(hs, 0) == hs <==> NoneMeets(hs)
  {
    if NoneMeets(hs) {
      if hs != [] {
        PassTo(hs, 0, |hs| - 1);
      }
    } else {
      var i := FirstMeeting(hs);
      MergesFirst(hs, i);
    }
  }

  lemma FirstMeeting(hs: seq<Piece>) returns (i: nat)
    requires !NoneMeets(hs)
    ensures FirstMeets(hs, i)
  {
    var n: nat :| n + 1 < |hs| && EndsAtNext(hs, n);
    i := 0;
    while !EndsAtNext(hs, i)
      invariant i <= n && forall j :: 0 <= j < i ==> !EndsAtNext(hs, j)
      decreases n - i
    {
      i := i + 1;
    }
  }

  /**
   The first two that meet become one hole with the bytes of both. What is before them stays, the
   hole after them is passed over, and the pass goes on behind it.
   */
  lemma MergesFirst(hs: seq<Piece>, i: nat)
    requires FirstMeets(hs, i)
    ensures var m := MergeFrom(hs, 0);
            && i < |m| < |hs| && m[..i] == hs[..i]
            && m[i] == Piece(hs[i].base, hs[i].len + hs[i + 1].len, hs[i].id)
            && m == hs[..i] + [m[i]] + (if i + 2 < |hs| then [hs[i + 2]] + MergeFrom(hs[i + 3..], 0) else [])
  {
    PassTo(hs, 0, i);
    var one := Piece(hs[i].base, hs[i].len + hs[i + 1].len, hs[i].id);
    assert MergeAt(hs, i) == hs[..i] + [one] + hs[i + 2..];
    GoesOn(hs[..i] + [one], hs[i + 2..]);
  }

  /** Behind a merged hole the pass leaves one hole out. */
  lemma GoesOn(front: seq<Piece>, hs: seq<Piece>)
    ensures var m := MergeFrom(front + hs, |front| + 1);
            && m == front + (if hs == [] then [] else [hs[0]] + MergeFrom(hs[1..], 0))
            && |m| <= |front| + |hs|
  {
    if hs != [] {
      assert front + hs == (front + [hs[0]]) + hs[1..];
      PassFrom(front + [hs[0]], hs[1..]);
      NotLonger(hs[1..], 0);
    }
  }

  lemma {:induction false} NotLonger(hs: seq<Piece>, i: nat)
    ensures |MergeFrom(hs, i)| <= |hs|
    decreases |hs| - i
  {
    if i + 1 < |hs| {
      if EndsAtNext(hs, i) {
        NotLonger(MergeAt(hs, i), i + 2);
      } else {
        NotLonger(hs, i + 1);
      }
    }
  }

  // ----- deleting a segment

  /** A freed segment put behind holes of which none meet: joined to the last if that ends where it starts. */
  function Joined(hs: seq<Piece>, p: Piece): seq<Piece> {
    var n := |hs| - 1;
    if hs != [] && hs[n].base + hs[n].len == p.base then hs[..n] + [Piece(hs[n].base, hs[n].len + p.len, hs[n].id)]
    else hs + [p]
  }

  lemma MergesFreed(hs: seq<Piece>, p: Piece)
    requires NoneMeets(hs)
    ensures MergeFrom(hs + [p], 0) == Joined(hs, p) && NoneMeets(Joined(hs, p))
  {
    var all := hs + [p];
    if hs == [] {
      UnchangedIff(all);
    } else {
      var n := |hs| - 1;
      forall j | 0 <= j < n ensures !EndsAtNext(all, j) {
        assert !EndsAtNext(hs, j);
      }
      if EndsAtNext(all, n) {
        MergesFirst(all, n);
        assert all[..n] == hs[..n];
        forall j | 0 <= j < n ensures !EndsAtNext(Joined(hs, p), j) {
          assert !EndsAtNext(hs, j);
        }
      } else {
        assert NoneMeets(all);
        UnchangedIff(all);
      }
    }
  }

  /**
   Deleting a segment while no holes meet: it is joined to the last hole if that ends where it
   starts, so that there is room for both together, and is a hole of its own otherwise.
   */
  lemma DeleteMerges(l: Layout, pid: int, i: nat)
    requires pid in l.tables && i < |l.tables[pid]| && NoneMeets(l.holes)
    ensures DeleteAt(l, pid, i).holes == Joined(l.holes, l.tables[pid][i]) && NoneMeets(DeleteAt(l, pid, i).holes)
    ensures var n, p := |l.holes| - 1, l.tables[pid][i];
            l.holes != [] && l.holes[n].base + l.holes[n].len == p.base ==>
              |DeleteAt(l, pid, i).holes| == |l.holes| && DeleteAt(l, pid, i).holes[n].len == l.holes[n].len + p.len
  {
    MergesFreed(l.holes, l.tables[pid][i]);
  }

  /** A deletion makes one hole more exactly when nothing meets in the list with the segment behind it. */
  lemma DeleteCounts(l: Layout, pid: int, i: nat)
    requires pid in l.tables && i < |l.tables[pid]|
    ensures |DeleteAt(l, pid, i).holes| <= |l.holes| + 1
    ensures |DeleteAt(l, pid, i).holes| == |l.holes| + 1 <==>
              NoneMeets(l.holes + [l.tables[pid][i]])
  {
    var all := l.holes + [l.tables[pid][i]];
    NotLonger(all, 0);
    UnchangedIff(all);
    if !NoneMeets(all) {
      var j := FirstMeeting(all);
      MergesFirst(all, j);
    }
  }
}
