/** The two ways of picking the next process from the active queue. `P` identifies a control block. */
module Scheduling {
  import opened Options

  datatype State = New | Ready | Exec | Block | Exit

  // ----- FIFO

  predicate IsReady<P(==)>(state: map<P, State>, p: P) {
    p in state && state[p] == Ready
  }

  /** Where the first READY process is, or -1. */
  function FirstReady<P(==)>(active: seq<P>, state: map<P, State>): (i: int)
    ensures i == -1 || (0 <= i < |active| && IsReady(state, active[i]))
    ensures forall j :: 0 <= j < i ==> !IsReady(state, active[j])
    ensures i == -1 ==> forall j :: 0 <= j < |active| ==> !IsReady(state, active[j])
  {
    if active == [] then -1
    else if IsReady(state, active[0]) then 0
    else
      var i := FirstReady(active[1..], state);
      assert i == -1 ==> forall j :: 1 <= j < |active| ==> active[j] == active[1..][j - 1];
      if i == -1 then -1 else i + 1
  }

  function Without<P>(s: seq<P>, i: nat): seq<P>
    requires i < |s|
  {
    s[..i] + s[i + 1..]
  }

  lemma WithoutMultiset<P>(s: seq<P>, i: nat)
    requires i < |s|
    ensures multiset(Without(s, i)) + multiset{s[i]} == multiset(s)
  {
    assert s == s[..i] + [s[i]] + s[i + 1..];
  }

  // ----- highest response ratio next

  /**
   The variables of the loop: best so far, its ratio, and the two queues to rebuild from. `lost` is
   nowhere in the code.
   */
  datatype Scan<P> = Scan(next: Option<P>, highest: real, temporal: seq<P>, ties: seq<P>, lost: seq<P>)

  function ScanOne<P(==)>(s: Scan<P>, p: P, ratio: real, state: map<P, State>): Scan<P> {
    if ratio > s.highest then
      var kept := s.next.Some? && IsReady(state, s.next.value);
      s.(next := Some(p), highest := ratio,
         temporal := if kept then s.temporal + [s.next.value] else s.temporal,
         lost := if s.next.Some? && !kept then s.lost + [s.next.value] else s.lost)
    else if ratio == s.highest then s.(ties := s.ties + [p])
    else s.(temporal := s.temporal + [p])
  }

  predicate HaveRatios<P(==)>(active: seq<P>, ratio: map<P, real>) {
    forall i :: 0 <= i < |active| ==> active[i] in ratio
  }

  function ScanAll<P(==)>(active: seq<P>, ratio: map<P, real>, state: map<P, State>): Scan<P>
    requires HaveRatios(active, ratio)
  {
    if active == [] then Scan(None, 0.0, [], [], [])
    else
      var n := |active| - 1;
      ScanOne(ScanAll(active[..n], ratio, state), active[n], ratio[active[n]], state)
  }

  /** What the scan returns and what it leaves in the queue. */
  function PickHrrn<P(==)>(active: seq<P>, ratio: map<P, real>, state: map<P, State>): (Option<P>, seq<P>)
    requires HaveRatios(active, ratio)
  {
    var s := ScanAll(active, ratio, state);
    (if s.next.Some? && IsReady(state, s.next.value) then s.next else None, s.temporal + s.ties)
  }

  /** A ratio above all before it, and above 0. */
  ghost predicate Leads<P>(active: seq<P>, ratio: map<P, real>, i: nat)
    requires HaveRatios(active, ratio) && i < |active|
  {
    ratio[active[i]] > 0.0 && forall j :: 0 <= j < i ==> ratio[active[j]] < ratio[active[i]]
  }

  ghost predicate LeadersReady<P>(active: seq<P>, ratio: map<P, real>, state: map<P, State>)
    requires HaveRatios(active, ratio)
  {
    forall i :: 0 <= i < |active| && Leads(active, ratio, i) ==> IsReady(state, active[i])
  }

  function AsBag<P>(o: Option<P>): multiset<P> {
    if o.Some? then multiset{o.value} else multiset{}
  }

  ghost function Scanned<P>(s: Scan<P>): multiset<P> {
    multiset(s.temporal) + multiset(s.ties) + AsBag(s.next) + multiset(s.lost)
  }

  lemma ScanOneCounts<P>(s: Scan<P>, p: P, ratio: real, state: map<P, State>)
    ensures Scanned(ScanOne(s, p, ratio, state)) == Scanned(s) + multiset{p}
  {
  }

  /** Nobody is counted twice: best, queues and lost ones make up what was scanned. */
  lemma {:induction false} ScanCounts<P>(active: seq<P>, ratio: map<P, real>, state: map<P, State>)
    requires HaveRatios(active, ratio)
    ensures Scanned(ScanAll(active, ratio, state)) == multiset(active)
  {
    if active != [] {
      var n := |active| - 1;
      ScanCounts(active[..n], ratio, state);
      ScanOneCounts(ScanAll(active[..n], ratio, state), active[n], ratio[active[n]], state);
      assert active == active[..n] + [active[n]];
      assert multiset(active) == multiset(active[..n]) + multiset{active[n]};
    }
  }

  /** The best is the earliest of the highest ratio. */
  lemma {:induction false} ScanFinds<P>(active: seq<P>, ratio: map<P, real>, state: map<P, State>) returns (i: int)
    requires HaveRatios(active, ratio)
    ensures var s := ScanAll(active, ratio, state);
            && (forall j :: 0 <= j < |active| ==> ratio[active[j]] <= s.highest) && s.highest >= 0.0
            && (s.next == None ==> i == -1 && s.highest == 0.0)
            && (s.next.Some? ==>
                  && 0 <= i < |active| && s.next == Some(active[i]) && s.highest == ratio[active[i]]
                  && Leads(active, ratio, i))
  {
    i := -1;
    if active != [] {
      var n := |active| - 1;
      var before := active[..n];
      i := ScanFinds(before, ratio, state);
      forall j | 0 <= j < n ensures active[j] == before[j] {}
      if ratio[active[n]] > ScanAll(before, ratio, state).highest {
        i := n;
      }
    }
  }

  /** Those lost are the leaders overtaken while not READY. */
  lemma {:induction false} ScanLoses<P>(active: seq<P>, ratio: map<P, real>, state: map<P, State>)
    requires HaveRatios(active, ratio)
    ensures NoneLost(ScanAll(active, ratio, state), state) <==> LeadersReady(active, ratio, state)
  {
    if active != [] {
      var n := |active| - 1;
      ScanLoses(active[..n], ratio, state);
      LeadersSnoc(active, ratio, state);
      LastLeads(active, ratio, state);
    }
  }

  predicate NoneLost<P(==)>(s: Scan<P>, state: map<P, State>) {
    s.lost == [] && (s.next.Some? ==> IsReady(state, s.next.value))
  }

  /** The last process leads exactly when it beats the best so far. */
  lemma LastLeads<P>(active: seq<P>, ratio: map<P, real>, state: map<P, State>)
    requires HaveRatios(active, ratio) && active != []
    ensures var n := |active| - 1;
            Leads(active, ratio, n) <==> ratio[active[n]] > ScanAll(active[..n], ratio, state).highest
  {
    var n := |active| - 1;
    var before := active[..n];
    var i := ScanFinds(before, ratio, state);
    assert forall j :: 0 <= j < n ==> before[j] == active[j];
  }

  lemma LeadsBefore<P>(active: seq<P>, ratio: map<P, real>, n: nat, i: nat)
    requires HaveRatios(active, ratio) && i < n <= |active|
    ensures Leads(active, ratio, i) <==> Leads(active[..n], ratio, i)
  {
    assert forall j :: 0 <= j <= i ==> active[..n][j] == active[j];
  }

  lemma LeadersSnoc<P>(active: seq<P>, ratio: map<P, real>, state: map<P, State>)
    requires HaveRatios(active, ratio) && active != []
    ensures var n := |active| - 1;
            LeadersReady(active, ratio, state)
            <==> LeadersReady(active[..n], ratio, state) && (Leads(active, ratio, n) ==> IsReady(state, active[n]))
  {
    var n := |active| - 1;
    forall i | 0 <= i < n
      ensures active[..n][i] == active[i] && (Leads(active, ratio, i) <==> Leads(active[..n], ratio, i)) {
      LeadsBefore(active, ratio, n, i);
    }
  }

  lemma CancelBag<P>(a: multiset<P>, b: multiset<P>, c: multiset<P>)
    ensures a + b == a + c <==> b == c
  {
    assert (a + b) - a == b && (a + c) - a == c;
  }

  lemma EmptyBag<P>(s: seq<P>, o: Option<P>)
    ensures AsBag(o) + multiset(s) == multiset{} <==> s == [] && o == None
    ensures AsBag(o) + multiset(s) == AsBag(o) <==> s == []
  {
    if s != [] {
      assert multiset(s)[s[0]] > 0;
    }
  }

  /** No process disappears from the scheduler exactly when every leader of the scan is READY. */
  lemma HrrnConservesIff<P>(active: seq<P>, ratio: map<P, real>, state: map<P, State>)
    requires HaveRatios(active, ratio)
    ensures var (p, rest) := PickHrrn(active, ratio, state);
            multiset(rest) + AsBag(p) == multiset(active) <==> LeadersReady(active, ratio, state)
  {
    var s := ScanAll(active, ratio, state);
    ScanCounts(active, ratio, state);
    ScanLoses(active, ratio, state);
    var (p, rest) := PickHrrn(active, ratio, state);
    assert multiset(rest) == multiset(s.temporal) + multiset(s.ties);
    assert multiset(active) == multiset(rest) + (AsBag(s.next) + multiset(s.lost));
    CancelBag(multiset(rest), AsBag(p), AsBag(s.next) + multiset(s.lost));
    EmptyBag(s.lost, s.next);
  }

  /** With all READY, the choice is the earliest process of the highest ratio, and nobody is lost. */
  lemma HrrnChoice<P>(active: seq<P>, ratio: map<P, real>, state: map<P, State>) returns (i: nat)
    requires HaveRatios(active, ratio) && forall j :: 0 <= j < |active| ==> IsReady(state, active[j])
    requires exists j :: 0 <= j < |active| && ratio[active[j]] > 0.0
    ensures i < |active| && PickHrrn(active, ratio, state).0 == Some(active[i])
    ensures forall j :: 0 <= j < |active| ==> ratio[active[j]] <= ratio[active[i]]
    ensures forall j :: 0 <= j < i ==> ratio[active[j]] < ratio[active[i]]
    ensures multiset(PickHrrn(active, ratio, state).1) + multiset{active[i]} == multiset(active)
  {
    var k := ScanFinds(active, ratio, state);
    HrrnConservesIff(active, ratio, state);
    i := k;
  }
}
