/** The order of the queue an HRRN scan rebuilds. `P` identifies a control block. */
module ScanOrder {
  import opened Options
  import opened Scheduling

  /** The last process before `j` with a ratio above all before it, or -1. */
  ghost function LeaderBefore<P>(active: seq<P>, ratio: map<P, real>, j: nat): (i: int)
    requires HaveRatios(active, ratio) && j <= |active|
    ensures i == -1 || (0 <= i < j && Leads(active, ratio, i))
    ensures forall m :: i < m < j ==> !Leads(active, ratio, m)
  {
    if j == 0 then -1 else if Leads(active, ratio, j - 1) then j - 1 else LeaderBefore(active, ratio, j - 1)
  }

  /** The ratio to beat at `j`. */
  ghost function ToBeat<P>(active: seq<P>, ratio: map<P, real>, j: nat): real
    requires HaveRatios(active, ratio) && j <= |active|
  {
    var i := LeaderBefore(active, ratio, j);
    if i == -1 then 0.0 else ratio[active[i]]
  }

  /**
   Who takes the place of the process at `j`: of a leader the one it overtakes, if READY; of one that
   draws level nobody; of any other the process itself.
   */
  ghost function InPlaceOf<P>(active: seq<P>, ratio: map<P, real>, state: map<P, State>, j: nat): seq<P>
    requires HaveRatios(active, ratio) && j < |active|
  {
    var i := LeaderBefore(active, ratio, j);
    if Leads(active, ratio, j) then (if i != -1 && IsReady(state, active[i]) then [active[i]] else [])
    else if ratio[active[j]] == ToBeat(active, ratio, j) then []
    else [active[j]]
  }

  ghost function Level<P>(active: seq<P>, ratio: map<P, real>, j: nat): seq<P>
    requires HaveRatios(active, ratio) && j < |active|
  {
    if !Leads(active, ratio, j) && ratio[active[j]] == ToBeat(active, ratio, j) then [active[j]] else []
  }

  ghost function Places<P>(active: seq<P>, ratio: map<P, real>, state: map<P, State>, n: nat): seq<P>
    requires HaveRatios(active, ratio) && n <= |active|
  {
    if n == 0 then [] else Places(active, ratio, state, n - 1) + InPlaceOf(active, ratio, state, n - 1)
  }

  ghost function Levels<P>(active: seq<P>, ratio: map<P, real>, n: nat): seq<P>
    requires HaveRatios(active, ratio) && n <= |active|
  {
    if n == 0 then [] else Levels(active, ratio, n - 1) + Level(active, ratio, n - 1)
  }

  lemma {:induction false} ToBeatIsHighest<P>(active: seq<P>, ratio: map<P, real>, n: nat)
    requires HaveRatios(active, ratio) && n <= |active|
    ensures ToBeat(active, ratio, n) >= 0.0
    ensures forall j :: 0 <= j < n ==> ratio[active[j]] <= ToBeat(active, ratio, n)
  {
    if n > 0 {
      ToBeatIsHighest(active, ratio, n - 1);
    }
  }

  /** The scan's variables after the first `n`: the best so far, and the two queues. */
  ghost predicate IsAt<P>(s: Scan<P>, active: seq<P>, ratio: map<P, real>, state: map<P, State>, n: nat)
    requires HaveRatios(active, ratio) && n <= |active|
  {
    var i := LeaderBefore(active, ratio, n);
    && s.next == (if i == -1 then None else Some(active[i])) && s.highest == ToBeat(active, ratio, n)
    && s.temporal == Places(active, ratio, state, n) && s.ties == Levels(active, ratio, n)
  }

  lemma ScanStep<P>(s: Scan<P>, active: seq<P>, ratio: map<P, real>, state: map<P, State>, n: nat)
    requires HaveRatios(active, ratio) && n < |active| && IsAt(s, active, ratio, state, n)
    ensures IsAt(ScanOne(s, active[n], ratio[active[n]], state), active, ratio, state, n + 1)
  {
    LeadsIff(active, ratio, n);
  }

  lemma {:induction false} ScanIs<P>(active: seq<P>, ratio: map<P, real>, state: map<P, State>, n: nat)
    requires HaveRatios(active, ratio) && n <= |active|
    ensures IsAt(ScanAll(active[..n], ratio, state), active, ratio, state, n)
  {
    if n > 0 {
      ScanIs(active, ratio, state, n - 1);
      var before := active[..n - 1];
      assert active[..n][..n - 1] == before;
      ScanStep(ScanAll(before, ratio, state), active, ratio, state, n - 1);
    }
  }

  lemma LeadsIff<P>(active: seq<P>, ratio: map<P, real>, j: nat)
    requires HaveRatios(active, ratio) && j < |active|
    ensures Leads(active, ratio, j) <==> ratio[active[j]] > ToBeat(active, ratio, j)
  {
    ToBeatIsHighest(active, ratio, j);
  }

  /**
   The rebuilt queue is the old one in its order, but that each leader's place goes to the one it
   overtakes, if that is READY, and those that draw level with a leader come at the end.
   */
  lemma QueueOrder<P>(active: seq<P>, ratio: map<P, real>, state: map<P, State>)
    requires HaveRatios(active, ratio)
    ensures PickHrrn(active, ratio, state).1 == Places(active, ratio, state, |active|) + Levels(active, ratio, |active|)
  {
    ScanIs(active, ratio, state, |active|);
    assert active[..|active|] == active;
  }
}
