/** Queues at different places, such that everybody who waits is in exactly one of them, once. */
module WaitQueues {
  import opened Scheduling

  datatype Place = Sleep | Transfer | Serving | Stuck | OnFile(name: string) | OnResource(name: string)

  ghost predicate NoRepeat<P>(s: seq<P>) {
    forall i, j :: 0 <= i < j < |s| ==> s[i] != s[j]
  }

  ghost predicate Apart<P>(s: seq<P>, t: seq<P>) {
    forall p :: p in s ==> p !in t
  }

  ghost predicate Somewhere<P>(queue: Place -> seq<P>, p: P) {
    exists x :: p in queue(x)
  }

  /** Those who wait are exactly those in some queue, and nobody is in two or twice in one. */
  ghost predicate OneQueueEach<P>(queue: Place -> seq<P>, waiting: set<P>) {
    && (forall x :: NoRepeat(queue(x)))
    && (forall x, y :: x != y ==> Apart(queue(x), queue(y)))
    && (forall x, p :: p in queue(x) ==> p in waiting)
    && (forall p :: p in waiting ==> Somewhere(queue, p))
  }

  lemma Stay<P>(q: Place -> seq<P>, q': Place -> seq<P>, waiting: set<P>)
    requires OneQueueEach(q, waiting) && forall x :: q'(x) == q(x)
    ensures OneQueueEach(q', waiting)
  {
    forall x, y | x != y ensures Apart(q'(x), q'(y)) {
      assert Apart(q(x), q(y));
    }
    forall x ensures NoRepeat(q'(x)) {
      assert NoRepeat(q(x));
    }
    forall p | p in waiting ensures Somewhere(q', p) {
      assert Somewhere(q, p);
      var x :| p in q(x);
      assert p in q'(x);
    }
  }

  lemma Join<P>(q: Place -> seq<P>, q': Place -> seq<P>, waiting: set<P>, p: P, x: Place)
    requires OneQueueEach(q, waiting) && p !in waiting
    requires q'(x) == q(x) + [p] && forall y :: y != x ==> q'(y) == q(y)
    ensures OneQueueEach(q', waiting + {p})
  {
    forall y ensures NoRepeat(q'(y)) {
      assert NoRepeat(q(y));
    }
    forall y, z | y != z ensures Apart(q'(y), q'(z)) {
      assert Apart(q(y), q(z));
    }
    forall r | r in waiting + {p} ensures Somewhere(q', r) {
      if r != p {
        assert Somewhere(q, r);
        var y :| r in q(y);
        assert r in q'(y);
      } else {
        assert r in q'(x);
      }
    }
  }

  lemma WithoutIs<P>(s: seq<P>, i: nat)
    requires i < |s| && NoRepeat(s)
    ensures NoRepeat(Without(s, i)) && forall p :: p in Without(s, i) <==> p in s && p != s[i]
  {
    var t := Without(s, i);
    assert forall j :: 0 <= j < |t| ==> t[j] == s[if j < i then j else j + 1];
    forall p | p in s && p != s[i] ensures p in t {
      var j :| 0 <= j < |s| && s[j] == p;
      assert t[if j < i then j else j - 1] == p;
    }
  }

  lemma Leave<P>(q: Place -> seq<P>, q': Place -> seq<P>, waiting: set<P>, x: Place, i: nat)
    requires OneQueueEach(q, waiting) && i < |q(x)|
    requires q'(x) == Without(q(x), i) && forall y :: y != x ==> q'(y) == q(y)
    ensures OneQueueEach(q', waiting - {q(x)[i]})
  {
    var p := q(x)[i];
    assert NoRepeat(q(x));
    WithoutIs(q(x), i);
    forall y ensures NoRepeat(q'(y)) {
      assert NoRepeat(q(y));
    }
    forall y, z | y != z ensures Apart(q'(y), q'(z)) {
      assert Apart(q(y), q(z));
    }
    forall y, r | r in q'(y) ensures r in waiting - {p} {
      assert Apart(q(x), q(y)) || y == x;
      assert p in q(x);
    }
    forall r | r in waiting - {p} ensures Somewhere(q', r) {
      assert Somewhere(q, r);
      var y :| r in q(y);
      assert r in q'(y);
    }
  }

  /** From one queue to the end of another. */
  lemma Shift<P>(q: Place -> seq<P>, q': Place -> seq<P>, waiting: set<P>, x: Place, i: nat, y: Place)
    requires OneQueueEach(q, waiting) && x != y && i < |q(x)|
    requires q'(x) == Without(q(x), i) && q'(y) == q(y) + [q(x)[i]] && forall z :: z != x && z != y ==> q'(z) == q(z)
    ensures OneQueueEach(q', waiting)
  {
    var p := q(x)[i];
    var between := z => if z == x then Without(q(z), i) else q(z);
    Leave(q, between, waiting, x, i);
    Join(between, q', waiting - {p}, p, y);
    assert p in waiting;
    assert waiting - {p} + {p} == waiting;
  }
}
