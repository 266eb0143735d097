/** What every step of the kernel keeps. */
module KernelInvariant {
  import opened Options
  import opened Scheduling
  import opened WaitQueues
  import opened KernelState

  // ----- the invariant

  function Queue<P>(k: Kernel<P>, x: Place): seq<P> {
    match x
    case Sleep => k.sleeping
    case Transfer => k.transfers
    case Serving => if k.serving.Some? then [k.serving.value] else []
    case Stuck => k.stuck
    case OnFile(name) => if name in k.files then k.files[name] else []
    case OnResource(name) => if name in k.resources then k.resources[name].waiting else []
  }

  function Queues<P>(k: Kernel<P>): Place -> seq<P> {
    x => Queue(k, x)
  }

  function Blocked<P(==)>(k: Kernel<P>): set<P> {
    set p | p in k.state && k.state[p] == Block
  }

  /** Every process in BLOCK is in exactly one wait queue, once; nobody else is in any. */
  ghost predicate WaitsOk<P>(k: Kernel<P>) {
    OneQueueEach(Queues(k), Blocked(k))
  }

  function Members<P>(k: Kernel<P>): multiset<P> {
    multiset(k.entrants) + multiset(k.active) + AsBag(k.running) + multiset(k.finished)
  }

  /** No process is in two of new, active, running and finished, or twice in one. */
  ghost predicate PlacesOk<P>(k: Kernel<P>) {
    && Members(k) <= multiset(k.state.Keys) && k.local.Keys == k.state.Keys && k.times.Keys == k.state.Keys
    && (forall p :: p in k.entrants ==> StateOf(k, p) == New)
    && (forall p :: p in k.finished ==> StateOf(k, p) == Exit)
  }

  /** Nobody is in none of them. */
  ghost predicate AllPlaced<P>(k: Kernel<P>) {
    Members(k) == multiset(k.state.Keys)
  }

  /** Active processes are READY or BLOCK, but for one that has just exited. */
  ghost predicate ActiveOk<P>(k: Kernel<P>) {
    && (forall p :: p in k.active ==>
       StateOf(k, p) == Ready || StateOf(k, p) == Block || (StateOf(k, p) == Exit && k.owing))
    && (forall p, q :: p in k.active && q in k.active && StateOf(k, p) == Exit && StateOf(k, q) == Exit ==> p == q)
  }

  predicate Holds<P(==)>(k: Kernel<P>, p: P, name: string) {
    name in FilesOf(k, p)
  }

  /** A file is open for one process at most, and only if the kernel has it open. */
  ghost predicate FilesOk<P>(k: Kernel<P>) {
    && (forall p, q, name :: p in k.local && q in k.local && Holds(k, p, name) && Holds(k, q, name) ==> p == q)
    && (forall p, name :: p in k.local && Holds(k, p, name) ==> name in k.files)
  }

  /** The semaphore law of one resource. */
  ghost predicate Balanced<P>(r: Resource<P>) {
    && r.available >= 0 && (r.waiting != [] ==> r.available == 0)
    && r.available == r.tally.initial + r.tally.released - r.tally.grants
    && r.tally.blocked == r.tally.woken + r.waiting
  }

  /** Admitted and not finished. */
  predicate Present<P(==)>(k: Kernel<P>, p: P) {
    p in k.state && p !in k.entrants && p !in k.finished
  }

  ghost predicate ResourcesOk<P>(k: Kernel<P>) {
    && (forall name :: name in k.resources ==> Balanced(k.resources[name]) && name in k.config.names)
    && (forall name :: name in k.resources && k.resources[name].owner.Some? ==>
       Present(k, k.resources[name].owner.value))
  }

  /** The degree of multiprogramming, the running process being outside the active queue. */
  ghost predicate LimitOk<P>(k: Kernel<P>) {
    |k.active| <= k.config.max + (if k.running.Some? then 0 else 1)
  }

  ghost predicate TurnOk<P>(k: Kernel<P>) {
    && (k.running.Some? ==> StateOf(k, k.running.value) == Exec && !k.owing && k.prioritized.None?)
    && (k.prioritized.Some? ==> k.prioritized.value in k.active && StateOf(k, k.prioritized.value) == Ready)
  }

  /** What every step keeps. */
  ghost predicate Core<P>(k: Kernel<P>) {
    PlacesOk(k) && ActiveOk(k) && WaitsOk(k) && ResourcesOk(k) && LimitOk(k) && TurnOk(k)
  }

  /** What every step keeps with which nobody closes another's file or loses a process in a scan. */
  ghost predicate Inv<P>(k: Kernel<P>) {
    Core(k) && AllPlaced(k) && FilesOk(k)
  }

  // ----- who is where

  lemma MemberIsKnown<P>(k: Kernel<P>, p: P)
    requires PlacesOk(k) && (p in k.entrants || p in k.active || k.running == Some(p) || p in k.finished)
    ensures p in k.state
    ensures p in k.entrants ==> p !in k.active && k.running != Some(p) && p !in k.finished
    ensures p in k.active ==> k.running != Some(p) && p !in k.finished
    ensures k.running == Some(p) ==> p !in k.finished
  {
    assert Members(k)[p] <= multiset(k.state.Keys)[p];
  }

  lemma KnownIsMember<P>(k: Kernel<P>, p: P)
    requires AllPlaced(k) && p in k.state
    ensures p in k.entrants || p in k.active || k.running == Some(p) || p in k.finished
  {
    assert Members(k)[p] == 1;
  }

  lemma BlockedIsPresent<P>(k: Kernel<P>, p: P)
    requires PlacesOk(k) && TurnOk(k) && p in Blocked(k)
    ensures Present(k, p) && k.running != Some(p) && (AllPlaced(k) ==> p in k.active)
  {
    if AllPlaced(k) {
      KnownIsMember(k, p);
    }
  }

  lemma QueuedIsBlocked<P>(k: Kernel<P>, x: Place, p: P)
    requires WaitsOk(k) && p in Queue(k, x)
    ensures p in Blocked(k) && k.state[p] == Block
  {
    assert p in Queues(k)(x);
  }

  // ----- the request switch and the requeue

  /** What the switch may do outside of queues, files and resources. */
  ghost predicate Switched<P>(k: Kernel<P>, k': Kernel<P>, p: P) {
    && k'.entrants == k.entrants && k'.active == k.active && k'.running == k.running && k'.finished == k.finished
    && k'.config == k.config && k'.owing == k.owing
    && k'.state.Keys == k.state.Keys && k'.local.Keys == k.local.Keys && k'.times.Keys == k.times.Keys
    && p in k'.state && (k'.state[p] == Exec || k'.state[p] == Block || k'.state[p] == Exit)
    && (forall q :: q in k.state && q != p ==>
       k'.state[q] == k.state[q] || (k.state[q] == Block && k'.state[q] == Ready))
    && (k'.prioritized == None || (k'.prioritized == Some(p) && k'.state[p] == Exec))
  }

  /** What the switch is entered with. */
  ghost predicate Entered<P>(k: Kernel<P>, p: P) {
    && k.running == Some(p) && k.prioritized.None?
    && p in k.state && k.state[p] == Exec && p in k.local && p in k.times
  }

  lemma CloseIsSwitched<P>(k: Kernel<P>, p: P, name: string)
    requires Entered(k, p) && name in k.files && k.files[name] != []
    requires k.files[name][0] in k.local && StateOf(k, k.files[name][0]) == Block
    ensures Switched(k, Switch(k, p, FClose(name)), p)
  {
  }

  lemma SignalIsSwitched<P>(k: Kernel<P>, p: P, name: string)
    requires Entered(k, p) && name in k.resources
    requires k.resources[name].waiting != [] ==> StateOf(k, k.resources[name].waiting[0]) == Block
    ensures Switched(k, Switch(k, p, Signal(name)), p)
  {
  }

  lemma WaitIsSwitched<P>(k: Kernel<P>, p: P, name: string)
    requires Entered(k, p)
    ensures Switched(k, OnWait(k, p, name), p)
  {
  }

  lemma FileIsSwitched<P>(k: Kernel<P>, p: P, name: string, found: bool, position: string)
    requires Entered(k, p)
    ensures Switched(k, OnOpen(k, p, name, found), p) && Switched(k, OnSeek(k, p, name, position), p)
    ensures name !in k.files || k.files[name] == [] ==> Switched(k, OnClose(k, p, name), p)
  {
  }

  lemma BlockIsSwitched<P>(k: Kernel<P>, p: P, name: string)
    requires Entered(k, p)
    ensures Switched(k, OnIo(k, p), p) && Switched(k, OnTransfer(k, p, name), p)
  {
  }

  lemma PlainIsSwitched<P>(k: Kernel<P>, p: P, first: Answer, second: Answer, lastBurst: real)
    requires Entered(k, p)
    ensures Switched(k, SetState(k, p, Exit), p) && Switched(k, OnCreateSegment(k, p, first, second), p)
    ensures Switched(k, OnYield(k, p, lastBurst), p) && Switched(k, k, p)
  {
  }

  lemma OtherIsSwitched<P>(k: Kernel<P>, p: P, req: Request)
    requires Entered(k, p)
    requires req.FClose? ==> req.name !in k.files || k.files[req.name] == []
    requires req.Signal? ==> req.name !in k.resources
    ensures Switched(k, Switch(k, p, req), p)
  {
    match req
    case FOpen(name, found) => FileIsSwitched(k, p, name, found, "");
    case FSeek(name, position) => FileIsSwitched(k, p, name, false, position);
    case FClose(name) => FileIsSwitched(k, p, name, false, "");
    case Wait(name) => WaitIsSwitched(k, p, name);
    case FTransfer(name) => BlockIsSwitched(k, p, name);
    case CreateSegment(first, second) => PlainIsSwitched(k, p, first, second, 0.0);
    case Yield(lastBurst) => PlainIsSwitched(k, p, Made, Made, lastBurst);
    case Io => BlockIsSwitched(k, p, "");
    case _ => PlainIsSwitched(k, p, Made, Made, 0.0);
  }

  lemma SwitchIsSwitched<P>(k: Kernel<P>, p: P, req: Request)
    requires PlacesOk(k) && TurnOk(k) && WaitsOk(k) && k.running == Some(p)
    ensures Switched(k, Switch(k, p, req), p)
  {
    MemberIsKnown(k, p);
    if req.FClose? && req.name in k.files && k.files[req.name] != [] {
      QueuedIsBlocked(k, OnFile(req.name), k.files[req.name][0]);
      CloseIsSwitched(k, p, req.name);
    } else if req.Signal? && req.name in k.resources {
      if k.resources[req.name].waiting != [] {
        QueuedIsBlocked(k, OnResource(req.name), k.resources[req.name].waiting[0]);
      }
      SignalIsSwitched(k, p, req.name);
    } else {
      OtherIsSwitched(k, p, req);
    }
  }

  lemma RequeuePlaces<P>(k: Kernel<P>, k1: Kernel<P>, p: P)
    requires PlacesOk(k) && ActiveOk(k) && LimitOk(k) && TurnOk(k) && k.running == Some(p) && Switched(k, k1, p)
    ensures var k' := Requeue(k1, p); PlacesOk(k') && ActiveOk(k') && LimitOk(k') && TurnOk(k')
    ensures AllPlaced(Requeue(k1, p)) <==> AllPlaced(k)
  {
    var k' := Requeue(k1, p);
    MemberIsKnown(k, p);
    assert Members(k') == Members(k);
    assert k'.state.Keys == k.state.Keys;
    forall q | q in k'.entrants ensures StateOf(k', q) == New {
      MemberIsKnown(k, q);
    }
    forall q | q in k'.finished ensures StateOf(k', q) == Exit {
      MemberIsKnown(k, q);
    }
    forall q | q in k.active ensures q in k.state && q != p {
      MemberIsKnown(k, q);
    }
    RequeueActive(k, k1, p);
  }

  lemma RequeueActive<P>(k: Kernel<P>, k1: Kernel<P>, p: P)
    requires ActiveOk(k) && !k.owing && Switched(k, k1, p)
    requires forall q :: q in k.active ==> q in k.state && q != p
    ensures ActiveOk(Requeue(k1, p))
  {
    var k' := Requeue(k1, p);
    forall q | q in k.active ensures StateOf(k', q) == Ready || StateOf(k', q) == Block {
      assert k1.state[q] == k.state[q] || (k.state[q] == Block && k1.state[q] == Ready);
    }
  }

  // ----- the switch and the wait queues

  lemma SameWaits<P>(k: Kernel<P>, k': Kernel<P>)
    requires WaitsOk(k) && Blocked(k') == Blocked(k) && forall x :: Queue(k', x) == Queue(k, x)
    ensures WaitsOk(k')
  {
    Stay(Queues(k), Queues(k'), Blocked(k));
  }

  lemma BlockAt<P>(k: Kernel<P>, k': Kernel<P>, p: P, x: Place)
    requires WaitsOk(k) && p in k.state && p !in Blocked(k) && k'.state == k.state[p := Block]
    requires Queue(k', x) == Queue(k, x) + [p] && forall y :: y != x ==> Queue(k', y) == Queue(k, y)
    ensures WaitsOk(k')
  {
    Join(Queues(k), Queues(k'), Blocked(k), p, x);
    assert Blocked(k') == Blocked(k) + {p};
  }

  lemma WakeAt<P>(k: Kernel<P>, k': Kernel<P>, x: Place, i: nat)
    requires WaitsOk(k) && i < |Queue(k, x)| && k'.state == k.state[Queue(k, x)[i] := Ready]
    requires Queue(k', x) == Without(Queue(k, x), i) && forall y :: y != x ==> Queue(k', y) == Queue(k, y)
    ensures WaitsOk(k')
  {
    Leave(Queues(k), Queues(k'), Blocked(k), x, i);
    assert Blocked(k') == Blocked(k) - {Queue(k, x)[i]};
  }

  lemma SwitchWaits<P>(k: Kernel<P>, p: P, req: Request)
    requires WaitsOk(k) && Entered(k, p)
    ensures WaitsOk(Switch(k, p, req))
  {
    match req
    case FOpen(name, found) => OpenWaits(k, p, name, found);
    case FClose(name) => CloseWaits(k, p, name);
    case Wait(name) => WaitWaits(k, p, name);
    case Signal(name) => SignalSwitchWaits(k, p, name);
    case _ => PlainWaits(k, p, req);
  }

  lemma PlainWaits<P>(k: Kernel<P>, p: P, req: Request)
    requires WaitsOk(k) && Entered(k, p) && !req.FOpen? && !req.FClose? && !req.Wait? && !req.Signal?
    ensures WaitsOk(Switch(k, p, req))
  {
    var k' := Switch(k, p, req);
    if req.Io? {
      BlockAt(k, k', p, Sleep);
    } else if req.FTransfer? && Holds(k, p, req.name) {
      BlockAt(k, k', p, Transfer);
    } else {
      SameWaits(k, k');
    }
  }

  lemma SignalSwitchWaits<P>(k: Kernel<P>, p: P, name: string)
    requires WaitsOk(k) && Entered(k, p)
    ensures WaitsOk(Switch(k, p, Signal(name)))
  {
    if name in k.resources {
      SignalWaits(k, name);
      SameWaits(SignalAt(k, name), Switch(k, p, Signal(name)));
    } else {
      SameWaits(k, Switch(k, p, Signal(name)));
    }
  }

  lemma OpenWaits<P>(k: Kernel<P>, p: P, name: string, found: bool)
    requires WaitsOk(k) && Entered(k, p)
    ensures WaitsOk(Switch(k, p, FOpen(name, found)))
  {
    var k' := Switch(k, p, FOpen(name, found));
    if name in k.files {
      BlockAt(k, k', p, OnFile(name));
    } else {
      SameWaits(k, k');
    }
  }

  lemma CloseWaits<P>(k: Kernel<P>, p: P, name: string)
    requires WaitsOk(k) && Entered(k, p)
    ensures WaitsOk(Switch(k, p, FClose(name)))
  {
    var k' := Switch(k, p, FClose(name));
    if name in k.files && k.files[name] != [] {
      WakeAt(k, k', OnFile(name), 0);
    } else {
      SameWaits(k, k');
    }
  }

  lemma WaitWaits<P>(k: Kernel<P>, p: P, name: string)
    requires WaitsOk(k) && Entered(k, p)
    ensures WaitsOk(Switch(k, p, Wait(name)))
  {
    var k' := Switch(k, p, Wait(name));
    if name in k.resources && k.resources[name].available <= 0 {
      BlockAt(k, k', p, OnResource(name));
    } else {
      SameWaits(k, k');
    }
  }

  lemma SignalWaits<P>(k: Kernel<P>, name: string)
    requires WaitsOk(k) && name in k.resources
    ensures WaitsOk(SignalAt(k, name))
  {
    var waiting := k.resources[name].waiting;
    forall y
      ensures Queue(SignalAt(k, name), y)
           == if y == OnResource(name) && waiting != [] then waiting[1..] else Queue(k, y) {
      SignalQueue(k, name, y);
    }
    if waiting != [] {
      assert Without(waiting, 0) == waiting[1..];
      WakeAt(k, SignalAt(k, name), OnResource(name), 0);
    } else {
      SameWaits(k, SignalAt(k, name));
    }
  }

  lemma SignalQueue<P>(k: Kernel<P>, name: string, y: Place)
    requires name in k.resources
    ensures var waiting := k.resources[name].waiting;
            Queue(SignalAt(k, name), y) == if y == OnResource(name) && waiting != [] then waiting[1..] else Queue(k, y)
  {
  }

  lemma RequeueWaits<P>(k: Kernel<P>, p: P)
    requires WaitsOk(k) && p in k.state
    ensures WaitsOk(Requeue(k, p))
  {
    SameWaits(k, Requeue(k, p));
  }

  // ----- the switch and the files

  /** Whoever else has the file open is the one who gets it. */
  ghost predicate MayClose<P>(k: Kernel<P>, p: P, name: string) {
    forall q :: q in k.local && q != p && Holds(k, q, name) ==>
      name in k.files && k.files[name] != [] && k.files[name][0] == q
  }

  lemma OpenFiles<P>(k: Kernel<P>, p: P, name: string, found: bool)
    requires FilesOk(k) && Entered(k, p)
    ensures FilesOk(Switch(k, p, FOpen(name, found)))
  {
    var k' := Switch(k, p, FOpen(name, found));
    assert forall q, x :: q in k.local && Holds(k, q, x) ==> x in k.files;
    assert forall q, x :: q in k'.local ==>
      (Holds(k', q, x) <==> Holds(k, q, x) || (q == p && x == name && name !in k.files && found));
  }

  /**
   After closing, the file is open for the process that waited first, if any, and otherwise for
   whoever else had it.
   */
  lemma CloseHolders<P>(k: Kernel<P>, p: P, name: string, q: P, x: string)
    requires Entered(k, p) && q in k.local
    requires name in k.files && k.files[name] != [] ==> k.files[name][0] in k.local && k.files[name][0] != p
    ensures var k' := Switch(k, p, FClose(name)); var woken := if name in k.files then k.files[name] else [];
            q in k'.local && (Holds(k', q, x)
            <==> if name !in k.files || x != name then Holds(k, q, x)
                 else q != p && (Holds(k, q, x) || (woken != [] && q == woken[0])))
  {
  }

  lemma CloseFilesIff<P>(k: Kernel<P>, p: P, name: string)
    requires FilesOk(k) && Entered(k, p)
    requires name in k.files && k.files[name] != [] ==> k.files[name][0] in k.local && k.files[name][0] != p
    ensures FilesOk(Switch(k, p, FClose(name))) <==> MayClose(k, p, name)
  {
    var k' := Switch(k, p, FClose(name));
    assert k'.local.Keys == k.local.Keys;
    forall q, x | q in k.local ensures Holds(k', q, x)
      <==> if name !in k.files || x != name then Holds(k, q, x)
           else q != p && (Holds(k, q, x) || (k.files[name] != [] && q == k.files[name][0]))
    {
      CloseHolders(k, p, name, q, x);
    }
    if FilesOk(k') && name in k.files {
      forall q | q in k.local && q != p && Holds(k, q, name) ensures k.files[name] != [] && k.files[name][0] == q {
        assert Holds(k', q, name);
      }
    }
  }

  lemma SameHolders<P>(k: Kernel<P>, k': Kernel<P>)
    requires FilesOk(k) && k'.files == k.files && k'.local.Keys == k.local.Keys
    requires forall q, x :: q in k.local ==> (Holds(k', q, x) <==> Holds(k, q, x))
    ensures FilesOk(k')
  {
  }

  lemma SwitchFiles<P>(k: Kernel<P>, p: P, req: Request)
    requires FilesOk(k) && Entered(k, p) && !req.FClose?
    ensures FilesOk(Switch(k, p, req))
  {
    match req
    case FOpen(name, found) => OpenFiles(k, p, name, found);
    case FSeek(name, position) => SameHolders(k, OnSeek(k, p, name, position));
    case Wait(name) => SameHolders(k, OnWait(k, p, name));
    case Signal(name) => SameHolders(k, OnSignal(k, p, name));
    case _ => PlainFiles(k, p, req);
  }

  lemma PlainFiles<P>(k: Kernel<P>, p: P, req: Request)
    requires FilesOk(k) && !req.FOpen? && !req.FClose? && !req.FSeek? && !req.Wait? && !req.Signal?
    ensures FilesOk(Switch(k, p, req))
  {
    var k' := Switch(k, p, req);
    assert k'.local == k.local && k'.files == k.files;
    SameHolders(k, k');
  }

  // ----- the switch and the resources

  lemma SignalBalanced<P>(r: Resource<P>)
    requires Balanced(r)
    ensures Balanced(SignalOne(r))
  {
    assert r.waiting != [] ==> r.waiting == [r.waiting[0]] + r.waiting[1..];
  }

  lemma GrantBalanced<P>(r: Resource<P>, p: P)
    requires Balanced(r)
    ensures r.available > 0 ==> Balanced(Grant(r, p))
    ensures r.available <= 0 ==> Balanced(Enqueue(r, p))
  {
  }

  /** One resource changed, keeping the balance; its owner is present. */
  lemma OneResource<P>(k: Kernel<P>, k': Kernel<P>, name: string, r: Resource<P>)
    requires ResourcesOk(k) && name in k.resources && k'.resources == k.resources[name := r] && k'.config == k.config
    requires Balanced(r) && (r.owner.Some? ==> Present(k', r.owner.value))
    requires forall q :: Present(k, q) ==> Present(k', q)
    ensures ResourcesOk(k')
  {
  }

  lemma RequeueKeepsPresent<P>(k: Kernel<P>, p: P)
    requires p in k.state
    ensures forall q :: Present(k, q) <==> Present(Requeue(k, p), q)
  {
  }

  lemma WaitResources<P>(k: Kernel<P>, p: P, name: string)
    requires ResourcesOk(k) && Entered(k, p) && Present(k, p) && name in k.resources
    ensures ResourcesOk(Switch(k, p, Wait(name)))
  {
    var r := k.resources[name];
    GrantBalanced(r, p);
    OneResource(k, Switch(k, p, Wait(name)), name, if r.available > 0 then Grant(r, p) else Enqueue(r, p));
  }

  lemma SignalResources<P>(k: Kernel<P>, name: string)
    requires ResourcesOk(k) && name in k.resources
    requires k.resources[name].waiting != [] ==> Present(k, k.resources[name].waiting[0])
    ensures ResourcesOk(SignalAt(k, name))
  {
    SignalBalanced(k.resources[name]);
    OneResource(k, SignalAt(k, name), name, SignalOne(k.resources[name]));
  }

  lemma SameResources<P>(k: Kernel<P>, k': Kernel<P>)
    requires ResourcesOk(k) && k'.resources == k.resources && k'.config == k.config
    requires forall q :: Present(k, q) ==> Present(k', q)
    ensures ResourcesOk(k')
  {
  }

  lemma SwitchResources<P>(k: Kernel<P>, p: P, req: Request)
    requires ResourcesOk(k) && Entered(k, p) && Present(k, p) && Switched(k, Switch(k, p, req), p)
    requires req.Signal? && req.name in k.resources && k.resources[req.name].waiting != [] ==>
             Present(k, k.resources[req.name].waiting[0])
    ensures ResourcesOk(Requeue(Switch(k, p, req), p))
  {
    var k' := Switch(k, p, req);
    if req.Wait? && req.name in k.resources {
      WaitResources(k, p, req.name);
    } else if req.Signal? && req.name in k.resources {
      SignalResources(k, req.name);
      SameResources(SignalAt(k, req.name), k');
    } else {
      PlainResources(k, p, req);
      SameResources(k, k');
    }
    RequeueKeepsPresent(k', p);
    SameResources(k', Requeue(k', p));
  }

  lemma PlainResources<P>(k: Kernel<P>, p: P, req: Request)
    requires (req.Wait? || req.Signal?) ==> req.name !in k.resources
    ensures Switch(k, p, req).resources == k.resources
  {
    match req
    case FOpen(name, found) => assert OnOpen(k, p, name, found).resources == k.resources;
    case FClose(name) => assert OnClose(k, p, name).resources == k.resources;
    case _ =>
  }
}
