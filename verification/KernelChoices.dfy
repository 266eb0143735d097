/** Whom the kernel runs and admits, and what serving a request makes of the process that asked. */
module KernelChoices {
  import opened Options
  import opened Scheduling
  import opened WaitQueues
  import opened KernelState
  import opened KernelInvariant
  import opened KernelSteps
  import opened KernelReaping
  import opened KernelRuns
  import KernelFiles
  import ScanOrder

  // ----- highest response ratio next

  lemma CrossIff(x: real, b: real, y: real, d: real)
    requires b > 0.0 && d > 0.0
    ensures x / b <= y / d <==> x * d <= y * b
    ensures x / b < y / d <==> x * d < y * b
  {
    var p, q := x / b, y / d;
    assert x == p * b && y == q * d;
    Products(p, b, d);
    Products(q, d, b);
    assert x * d == p * (b * d) && y * b == q * (b * d);
    Monotone(p, q, b * d);
  }

  lemma Products(p: real, b: real, d: real)
    ensures p * b * d == p * (b * d) && b * d == d * b
  {
  }

  lemma Monotone(p: real, q: real, m: real)
    requires m > 0.0
    ensures p <= q <==> p * m <= q * m
    ensures p < q <==> p * m < q * m
  {
    Scaled(p, q, m);
    Scaled(q, p, m);
  }

  lemma Scaled(p: real, q: real, m: real)
    requires m > 0.0
    ensures (q - p) * m == q * m - p * m && (q - p > 0.0 ==> (q - p) * m > 0.0)
  {
  }

  /** The process has waited, against its estimate, at least as long as the other against its own. */
  ghost predicate NotBehind(t: Times, u: Times, now: real) {
    (now - u.lastReady + u.burst) * t.burst <= (now - t.lastReady + t.burst) * u.burst
  }

  ghost predicate Ahead(t: Times, u: Times, now: real) {
    (now - u.lastReady + u.burst) * t.burst < (now - t.lastReady + t.burst) * u.burst
  }

  /** No process of the queue is behind, and it is ahead of those before it. */
  ghost predicate FirstInTurn<P>(k: Kernel<P>, now: real, i: nat)
    requires Timed(k)
  {
    && i < |k.active|
    && (forall j :: 0 <= j < |k.active| ==> NotBehind(k.times[k.active[i]], k.times[k.active[j]], now))
    && (forall j :: 0 <= j < i ==> Ahead(k.times[k.active[i]], k.times[k.active[j]], now))
  }

  lemma RatiosCompare<P>(k: Kernel<P>, now: real, p: P, q: P)
    requires Timed(k) && p in k.active && q in k.active && k.times[p].burst > 0.0 && k.times[q].burst > 0.0
    ensures Ratios(k, now)[q] <= Ratios(k, now)[p] <==> NotBehind(k.times[p], k.times[q], now)
    ensures Ratios(k, now)[q] < Ratios(k, now)[p] <==> Ahead(k.times[p], k.times[q], now)
  {
    var t, u := k.times[p], k.times[q];
    CrossIff(now - u.lastReady + u.burst, u.burst, now - t.lastReady + t.burst, t.burst);
  }

  lemma SomebodyIsFirst<P>(k: Kernel<P>, now: real) returns (i: nat)
    requires Legal(k, Dispatch(now)) && Scans(k) && EstimatesPositive(k)
    ensures FirstInTurn(k, now, i)
    ensures ScanAll(k.active, Ratios(k, now), k.state).next == Some(k.active[i])
  {
    var ratios := Ratios(k, now);
    i := ScanFinds(k.active, ratios, k.state);
    ScanPicks(k.active, ratios, k.state);
    forall j | 0 <= j < |k.active|
      ensures NotBehind(k.times[k.active[i]], k.times[k.active[j]], now)
      ensures j < i ==> Ahead(k.times[k.active[i]], k.times[k.active[j]], now)
    {
      RatiosCompare(k, now, k.active[i], k.active[j]);
    }
  }

  ghost predicate EstimatesPositive<P>(k: Kernel<P>) {
    forall j :: 0 <= j < |k.active| ==> k.active[j] in k.times && k.times[k.active[j]].burst > 0.0
  }

  /**
   Under HRRN, with nobody prioritized and two or more active: the process that is first in turn runs
   if it is READY, and otherwise nobody does; its time of being ready is set, and no other's.
   */
  lemma HrrnRuns<P>(k: Kernel<P>, now: real, i: nat)
    requires Legal(k, Dispatch(now)) && Scans(k) && EstimatesPositive(k) && FirstInTurn(k, now, i)
    ensures var k', p := Do(k, Dispatch(now)), k.active[i];
            && k'.running == (if StateOf(k, p) == Ready then Some(p) else None)
            && k'.times == k.times[p := Times(now, k.times[p].burst)]
  {
    var first := SomebodyIsFirst(k, now);
    assert first == i;
  }

  /** The queue keeps its order, but for the places of leaders and those that draw level with one. */
  lemma HrrnQueue<P>(k: Kernel<P>, now: real)
    requires Legal(k, Dispatch(now)) && Scans(k)
    ensures Do(k, Dispatch(now)).active
         == ScanOrder.Places(k.active, Ratios(k, now), k.state, |k.active|)
            + ScanOrder.Levels(k.active, Ratios(k, now), |k.active|)
  {
    ScanOrder.QueueOrder(k.active, Ratios(k, now), k.state);
    assert Do(k, Dispatch(now)).active == Choose(k, now).rest;
  }

  // ----- otherwise

  /** Who has priority runs, whatever the algorithm, and the others stay in their order. */
  lemma PriorityRuns<P>(k: Kernel<P>, now: real, i: nat)
    requires Legal(k, Dispatch(now)) && i < |k.active| && k.prioritized == Some(k.active[i])
    requires forall j :: 0 <= j < i ==> k.active[j] != k.active[i]
    ensures var k' := Do(k, Dispatch(now));
            k' == k.(running := k.prioritized, prioritized := None, active := k.active[..i] + k.active[i + 1..],
                     state := k.state[k.active[i] := Exec])
  {
    RemovesAt(k.active, i);
  }

  lemma {:induction false} RemovesAt<P>(s: seq<P>, i: nat)
    requires i < |s| && forall j :: 0 <= j < i ==> s[j] != s[i]
    ensures RemoveFirst(s, s[i]) == s[..i] + s[i + 1..]
  {
    if i > 0 {
      assert s[1..][i - 1] == s[i];
      RemovesAt(s[1..], i - 1);
      assert s[..i] == [s[0]] + s[1..][..i - 1];
    }
  }

  /** Under FIFO, and under HRRN with one active process, the first READY process runs. */
  lemma FirstReadyRuns<P>(k: Kernel<P>, now: real, i: nat)
    requires Legal(k, Dispatch(now)) && k.prioritized.None? && (!k.config.hrrn || |k.active| < 2)
    requires i < |k.active| && StateOf(k, k.active[i]) == Ready
    requires forall j :: 0 <= j < i ==> StateOf(k, k.active[j]) != Ready
    ensures var k' := Do(k, Dispatch(now));
            k' == k.(running := Some(k.active[i]), active := k.active[..i] + k.active[i + 1..],
                     state := k.state[k.active[i] := Exec])
  {
    var first := FirstReady(k.active, k.state);
    assert IsReady(k.state, k.active[i]);
    assert first == i;
  }

  /** And nobody, with nothing changed, if nobody is READY. */
  lemma NobodyRuns<P>(k: Kernel<P>, now: real)
    requires Legal(k, Dispatch(now)) && k.prioritized.None? && (!k.config.hrrn || |k.active| < 2)
    requires forall j :: 0 <= j < |k.active| ==> StateOf(k, k.active[j]) != Ready
    ensures Do(k, Dispatch(now)) == k
  {
    assert FirstReady(k.active, k.state) == -1;
  }

  // ----- serving a request

  /** The request ends the process. */
  predicate Ends<P>(k: Kernel<P>, req: Request) {
    match req
    case ExitProcess => true
    case Wait(name) => name !in k.resources
    case Signal(name) => name !in k.resources
    case CreateSegment(first, second) => (if first == CompactRequest then second else first) == OutOfMemory
    case _ => false
  }

  /** The process has to wait. */
  predicate HasToWait<P(==)>(k: Kernel<P>, p: P, req: Request) {
    match req
    case Io => true
    case FOpen(name, _) => name in k.files
    case FTransfer(name) => Holds(k, p, name)
    case Wait(name) => name in k.resources && k.resources[name].available <= 0
    case _ => false
  }

  /** Whom the request wakes. */
  function Wakes<P>(k: Kernel<P>, req: Request): Option<P> {
    match req
    case FClose(name) => if name in k.files && k.files[name] != [] then Some(k.files[name][0]) else None
    case Signal(name) =>
      if name in k.resources && k.resources[name].waiting != [] then Some(k.resources[name].waiting[0]) else None
    case _ => None
  }

  function Woken<P(==)>(state: map<P, State>, p: Option<P>): map<P, State> {
    if p.Some? then state[p.value := Ready] else state
  }

  predicate HasPriority<P>(k: Kernel<P>, req: Request) {
    match req
    case Wait(name) => name in k.resources && k.resources[name].available > 0
    case Signal(name) => name in k.resources
    case _ => false
  }

  /**
   What a request leaves: the process at the end of the active queue, in EXIT, BLOCK or READY, with
   priority exactly after an instance was given to it or it signalled; one waiter perhaps READY; and
   everybody else as before.
   */
  ghost predicate Left<P>(k: Kernel<P>, req: Request, p: P, k': Kernel<P>) {
    && k'.active == k.active + [p] && k'.running == None && k'.owing == Ends(k, req)
    && k'.prioritized == (if HasPriority(k, req) then Some(p) else None)
    && k'.state == Woken(k.state, Wakes(k, req))
                   [p := if Ends(k, req) then Exit else if HasToWait(k, p, req) then Block else Ready]
  }

  lemma ServeLeaves<P>(k: Kernel<P>, req: Request)
    requires Core(k) && k.running.Some?
    ensures Left(k, req, k.running.value, Do(k, Serve(req)))
  {
    RunningEnters(k);
    WakesAnother(k, req);
    match req
    case Wait(name) => WaitLeaves(k, name);
    case Signal(name) => SignalLeaves(k, name);
    case FClose(name) => CloseLeaves(k, name);
    case _ => RestLeaves(k, req);
  }

  lemma WakesAnother<P>(k: Kernel<P>, req: Request)
    requires Core(k) && k.running.Some?
    ensures Wakes(k, req) != k.running
  {
    RunningEnters(k);
    if Wakes(k, req).Some? {
      QueuedIsBlocked(k, if req.FClose? then OnFile(req.name) else OnResource(req.name), Wakes(k, req).value);
    }
  }

  lemma WaitLeaves<P>(k: Kernel<P>, name: string)
    requires k.running.Some? && Entered(k, k.running.value)
    ensures Left(k, Wait(name), k.running.value, Do(k, Serve(Wait(name))))
  {
  }

  lemma SignalLeaves<P>(k: Kernel<P>, name: string)
    requires k.running.Some? && Entered(k, k.running.value) && Wakes(k, Signal(name)) != k.running
    ensures Left(k, Signal(name), k.running.value, Do(k, Serve(Signal(name))))
  {
  }

  lemma CloseLeaves<P>(k: Kernel<P>, name: string)
    requires k.running.Some? && Entered(k, k.running.value) && Wakes(k, FClose(name)) != k.running
    ensures Left(k, FClose(name), k.running.value, Do(k, Serve(FClose(name))))
  {
  }

  lemma RestLeaves<P>(k: Kernel<P>, req: Request)
    requires k.running.Some? && Entered(k, k.running.value) && !req.Wait? && !req.Signal? && !req.FClose?
    ensures Left(k, req, k.running.value, Do(k, Serve(req)))
  {
  }

  /** The queue of a file; a file the kernel does not have has none. */
  function WaitingFor<P>(k: Kernel<P>, name: string): seq<P> {
    if name in k.files then k.files[name] else []
  }

  /**
   What a request makes of the queues of files: F_OPEN of an open file puts the process at the end of
   its queue, F_CLOSE takes out the first, and no other request and no other file's queue change.
   */
  lemma ServeFileQueues<P>(k: Kernel<P>, req: Request, name: string)
    requires k.running.Some?
    ensures FileQueue(k, req, name, Do(k, Serve(req)))
  {
    var p := k.running.value;
    if req.FOpen? {
      OpenQueue(k, p, req, name, OnOpen(k, p, req.name, req.found));
    } else if req.FClose? {
      CloseQueue(k, p, req, name, OnClose(k, p, req.name));
    } else if !req.FSeek? {
      KernelFiles.PlainKeepsFiles(k, p, req);
    }
    RequeueKeepsQueue(k, req, name, Switch(k, p, req), p);
  }

  ghost predicate FileQueue<P>(k: Kernel<P>, req: Request, name: string, k': Kernel<P>)
    requires k.running.Some?
  {
    && (WaitingFor(k', name)
     == if req.FOpen? && req.name == name && name in k.files then WaitingFor(k, name) + [k.running.value]
        else if req == FClose(name) && WaitingFor(k, name) != [] then WaitingFor(k, name)[1..]
        else WaitingFor(k, name))
    && (name in k'.files
        <==> if name in k.files then !(req == FClose(name) && k.files[name] == []) else req == FOpen(name, true))
  }

  lemma RequeueKeepsQueue<P>(k: Kernel<P>, req: Request, name: string, k1: Kernel<P>, p: P)
    requires k.running.Some? && FileQueue(k, req, name, k1)
    ensures FileQueue(k, req, name, Requeue(k1, p))
  {
  }

  lemma OpenQueue<P>(k: Kernel<P>, p: P, req: Request, name: string, k': Kernel<P>)
    requires req.FOpen? && k' == OnOpen(k, p, req.name, req.found) && k.running == Some(p)
    ensures FileQueue(k, req, name, k')
  {
  }

  lemma CloseQueue<P>(k: Kernel<P>, p: P, req: Request, name: string, k': Kernel<P>)
    requires req.FClose? && k' == OnClose(k, p, req.name) && k.running == Some(p)
    ensures FileQueue(k, req, name, k')
  {
  }

  /** The process goes to the sleepers by an I/O request, and behind the transfers by one for a file it has. */
  lemma ServeHelperQueues<P>(k: Kernel<P>, req: Request)
    requires k.running.Some?
    ensures HelperQueues(k, req, Do(k, Serve(req)))
  {
    var p := k.running.value;
    match req
    case Wait(name) => WaitKeepsHelpers(k, p, name);
    case Signal(name) => SignalKeepsHelpers(k, p, name);
    case FClose(name) => CloseKeepsHelpers(k, p, name);
    case _ => RestHelpers(k, req);
  }

  ghost predicate HelperQueues<P>(k: Kernel<P>, req: Request, k': Kernel<P>)
    requires k.running.Some?
  {
    var p := k.running.value;
    && k'.sleeping == k.sleeping + (if req.Io? then [p] else [])
    && k'.transfers == k.transfers + (if req.FTransfer? && Holds(k, p, req.name) then [p] else [])
    && k'.entrants == k.entrants && k'.serving == k.serving
  }

  lemma RestHelpers<P>(k: Kernel<P>, req: Request)
    requires k.running.Some? && !req.Wait? && !req.Signal? && !req.FClose?
    ensures HelperQueues(k, req, Do(k, Serve(req)))
  {
  }

  ghost predicate SameHelpers<P>(k: Kernel<P>, k': Kernel<P>) {
    k'.sleeping == k.sleeping && k'.transfers == k.transfers && k'.entrants == k.entrants && k'.serving == k.serving
  }

  lemma WaitKeepsHelpers<P>(k: Kernel<P>, p: P, name: string)
    ensures SameHelpers(k, OnWait(k, p, name))
  {
  }

  lemma SignalKeepsHelpers<P>(k: Kernel<P>, p: P, name: string)
    ensures SameHelpers(k, OnSignal(k, p, name))
  {
  }

  lemma CloseKeepsHelpers<P>(k: Kernel<P>, p: P, name: string)
    ensures SameHelpers(k, OnClose(k, p, name))
  {
  }

  /** The resource with these instances, owner and queue. */
  ghost predicate IsResource<P>(r: Resource<P>, available: int, owner: Option<P>, waiting: seq<P>) {
    r.available == available && r.owner == owner && r.waiting == waiting
  }

  /**
   What a request makes of a resource. WAIT takes an instance, or queues the process behind those who
   wait; SIGNAL gives the resource to who waited first, or makes one instance more and no owner; no
   other request changes it.
   */
  ghost predicate ResourceAfter<P>(r: Resource<P>, req: Request, name: string, p: P, r': Resource<P>) {
    && (req == Wait(name) ==>
          if r.available > 0 then IsResource(r', r.available - 1, Some(p), r.waiting)
          else IsResource(r', r.available, r.owner, r.waiting + [p]))
    && (req == Signal(name) ==>
          if r.waiting != [] then IsResource(r', r.available, Some(r.waiting[0]), r.waiting[1..])
          else IsResource(r', r.available + 1, None, []))
    && (req != Wait(name) && req != Signal(name) ==> r' == r)
  }

  lemma ServeResource<P>(k: Kernel<P>, req: Request, name: string)
    requires k.running.Some? && name in k.resources
    ensures name in Do(k, Serve(req)).resources
    ensures ResourceAfter(k.resources[name], req, name, k.running.value, Do(k, Serve(req)).resources[name])
  {
    SwitchResource(k, k.running.value, req, name);
  }

  lemma SwitchResource<P>(k: Kernel<P>, p: P, req: Request, name: string)
    requires name in k.resources
    ensures name in Switch(k, p, req).resources
    ensures ResourceAfter(k.resources[name], req, name, p, Switch(k, p, req).resources[name])
  {
    if req.Wait? {
      WaitResource(k, p, req.name, name);
    } else if req.Signal? {
      SignalResource(k, p, req.name, name);
    } else {
      PlainResources(k, p, req);
    }
  }

  lemma WaitResource<P>(k: Kernel<P>, p: P, other: string, name: string)
    requires name in k.resources
    ensures name in OnWait(k, p, other).resources
    ensures ResourceAfter(k.resources[name], Wait(other), name, p, OnWait(k, p, other).resources[name])
  {
    if other in k.resources {
      var r := k.resources[other];
      var given := if r.available > 0 then Grant(r, p) else Enqueue(r, p);
      GivenIs(r, p);
      assert OnWait(k, p, other).resources == k.resources[other := given];
    }
  }

  lemma GivenIs<P>(r: Resource<P>, p: P)
    ensures IsResource(Grant(r, p), r.available - 1, Some(p), r.waiting)
    ensures IsResource(Enqueue(r, p), r.available, r.owner, r.waiting + [p])
  {
  }

  lemma SignalResource<P>(k: Kernel<P>, p: P, other: string, name: string)
    requires name in k.resources
    ensures name in OnSignal(k, p, other).resources
    ensures ResourceAfter(k.resources[name], Signal(other), name, p, OnSignal(k, p, other).resources[name])
  {
    if other in k.resources {
      assert OnSignal(k, p, other).resources == k.resources[other := SignalOne(k.resources[other])];
    }
  }

  // ----- the long-term scheduler

  /** The active queue without those that exited, in its order. */
  function Staying<P(==)>(active: seq<P>, state: map<P, State>): seq<P> {
    if active == [] then []
    else (if active[0] in state && state[active[0]] == Exit then [] else [active[0]]) + Staying(active[1..], state)
  }

  lemma {:induction false} StayAll<P>(k: Kernel<P>, from: nat)
    requires from <= |k.active| && NoneExited(k, from)
    ensures Staying(k.active[from..], k.state) == k.active[from..]
    decreases |k.active| - from
  {
    if from < |k.active| {
      assert k.active[from..][1..] == k.active[from + 1..] && StateOf(k, k.active[from]) != Exit;
      StayAll(k, from + 1);
    }
  }

  lemma {:induction false} StayBut<P>(active: seq<P>, state: map<P, State>, e: nat)
    requires e < |active| && active[e] in state && state[active[e]] == Exit
    requires forall j :: 0 <= j < |active| && j != e ==> !(active[j] in state && state[active[j]] == Exit)
    ensures Staying(active, state) == Without(active, e)
  {
    if e == 0 {
      var rest := active[1..];
      StayRest(rest, state);
    } else {
      forall j | 0 <= j < |active[1..]| && j != e - 1
        ensures !(active[1..][j] in state && state[active[1..][j]] == Exit)
      {
        assert active[1..][j] == active[j + 1];
      }
      StayBut(active[1..], state, e - 1);
      assert Without(active, e) == [active[0]] + Without(active[1..], e - 1);
    }
  }

  lemma {:induction false} StayRest<P>(active: seq<P>, state: map<P, State>)
    requires forall j :: 0 <= j < |active| ==> !(active[j] in state && state[active[j]] == Exit)
    ensures Staying(active, state) == active
  {
    if active != [] {
      StayRest(active[1..], state);
    }
  }

  lemma ReapStays<P>(k: Kernel<P>)
    requires Core(k)
    ensures var k' := Reap(k, 0);
            && k'.active == Staying(k.active, k.state) && k'.entrants == k.entrants && k'.config == k.config
            && k'.owing == k.owing && k'.transfers == k.transfers && k'.running == k.running && k'.times == k.times
  {
    if NoneExited(k, 0) {
      ReapNone(k, 0);
      StayAll(k, 0);
      assert k.active[0..] == k.active;
    } else {
      var e := FirstExited(k);
      FinishKeeps(k, e);
      ReapOne(k, 0, e);
      MemberIsKnown(k, k.active[e]);
      forall j | 0 <= j < |k.active| && j != e ensures !(k.active[j] in k.state && k.state[k.active[j]] == Exit) {
        if StateOf(k, k.active[j]) == Exit {
          OnceActive(k, j, e);
        }
      }
      StayBut(k.active, k.state, e);
    }
  }

  lemma OnceActive<P>(k: Kernel<P>, i: nat, j: nat)
    requires PlacesOk(k) && i < |k.active| && j < |k.active| && i != j
    ensures k.active[i] != k.active[j]
  {
    var p := k.active[i];
    assert Members(k)[p] <= multiset(k.state.Keys)[p];
    CountTwice(k.active, i, j);
  }

  lemma CountTwice<P>(s: seq<P>, i: nat, j: nat)
    requires i < |s| && j < |s| && i != j
    ensures s[i] == s[j] ==> multiset(s)[s[i]] >= 2
  {
    WithoutMultiset(s, i);
    assert Without(s, i)[if j < i then j else j - 1] == s[j];
  }

  /**
   The long-term scheduler: those that exited leave the active queue, the others keep their order; then
   the first new process enters at its end, READY, exactly when there is one and room below the limit.
   */
  lemma RescheduleAdmits<P>(k: Kernel<P>, byMain: bool)
    requires Core(k)
    ensures var k', stay := Do(k, Reschedule(byMain)), Staying(k.active, k.state);
            var admits := |stay| < k.config.max && k.entrants != [];
            && k'.active == (if admits then stay + [k.entrants[0]] else stay)
            && k'.entrants == (if admits then k.entrants[1..] else k.entrants)
            && (admits ==> StateOf(k', k.entrants[0]) == Ready)
            && k'.owing == (k.owing && !byMain) && k'.transfers == k.transfers
  {
    ReapStays(k);
    var reaped := Reap(k, 0);
    assert Do(k, Reschedule(byMain)) == Admit(reaped).(owing := k.owing && !byMain);
  }
}
