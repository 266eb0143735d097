/**
 Each step of the kernel keeps the core of the invariant, whoever is careless. What it makes of
 the rest (one holder a file, nobody lost) is said exactly.
 */
module KernelSteps {
  import opened Options
  import opened Scheduling
  import opened WaitQueues
  import opened KernelState
  import opened KernelInvariant

  /** What the code does not check: who closes a file. */
  ghost predicate ClosesOwn<P>(k: Kernel<P>, step: Step<P>) {
    step.Serve? && step.req.FClose? && k.running.Some? ==> MayClose(k, k.running.value, step.req.name)
  }

  /** Nor who gets in the way of an HRRN scan. */
  ghost predicate LosesNobody<P>(k: Kernel<P>, step: Step<P>) {
    step.Dispatch? && Scans(k) && Timed(k) ==> LeadersReady(k.active, Ratios(k, step.now), k.state)
  }

  ghost predicate Careful<P>(k: Kernel<P>, step: Step<P>) {
    ClosesOwn(k, step) && LosesNobody(k, step)
  }

  /** Whom a scan takes out of the queue without putting anywhere: leaders overtaken, and a best one, not READY. */
  ghost function LostBy<P>(k: Kernel<P>, step: Step<P>): multiset<P> {
    if step.Dispatch? && Scans(k) && Timed(k) then
      var s := ScanAll(k.active, Ratios(k, step.now), k.state);
      multiset(s.lost) + (if s.next.Some? && IsReady(k.state, s.next.value) then multiset{} else AsBag(s.next))
    else multiset{}
  }

  lemma LostIff<P>(k: Kernel<P>, step: Step<P>)
    ensures LostBy(k, step) == multiset{} <==> LosesNobody(k, step)
  {
    if step.Dispatch? && Scans(k) && Timed(k) {
      var s := ScanAll(k.active, Ratios(k, step.now), k.state);
      ScanLoses(k.active, Ratios(k, step.now), k.state);
      assert s.lost != [] ==> s.lost[0] in multiset(s.lost);
      assert s.next.Some? ==> s.next.value in AsBag(s.next);
    }
  }

  // ----- serving a request

  lemma HeadIsPresent<P>(k: Kernel<P>, x: Place)
    requires Core(k) && Queue(k, x) != []
    ensures Present(k, Queue(k, x)[0]) && Queue(k, x)[0] in k.local && StateOf(k, Queue(k, x)[0]) == Block
  {
    QueuedIsBlocked(k, x, Queue(k, x)[0]);
    BlockedIsPresent(k, Queue(k, x)[0]);
  }

  lemma RunningEnters<P>(k: Kernel<P>)
    requires Core(k) && k.running.Some?
    ensures Entered(k, k.running.value) && Present(k, k.running.value)
  {
    MemberIsKnown(k, k.running.value);
  }

  /** After a request a file is held by one process at most exactly if it is no F_CLOSE of another's file. */
  lemma ServeFilesIff<P>(k: Kernel<P>, req: Request)
    requires Core(k) && FilesOk(k) && k.running.Some?
    ensures FilesOk(Do(k, Serve(req))) <==> ClosesOwn(k, Serve(req))
  {
    RunningEnters(k);
    SwitchFilesIff(k, k.running.value, req);
    RequeueFiles(Switch(k, k.running.value, req), k.running.value);
  }

  lemma SwitchFilesIff<P>(k: Kernel<P>, p: P, req: Request)
    requires Core(k) && FilesOk(k) && Entered(k, p)
    ensures FilesOk(Switch(k, p, req)) <==> (req.FClose? ==> MayClose(k, p, req.name))
  {
    if req.FClose? {
      if req.name in k.files && k.files[req.name] != [] {
        HeadIsPresent(k, OnFile(req.name));
      }
      CloseFilesIff(k, p, req.name);
    } else {
      SwitchFiles(k, p, req);
    }
  }

  lemma RequeueFiles<P>(k: Kernel<P>, p: P)
    ensures FilesOk(Requeue(k, p)) <==> FilesOk(k)
  {
    SameFiles(k, Requeue(k, p));
  }

  lemma SameFiles<P>(k: Kernel<P>, k': Kernel<P>)
    requires k'.local == k.local && k'.files == k.files
    ensures FilesOk(k') <==> FilesOk(k)
  {
    assert forall p, x :: Holds(k, p, x) <==> Holds(k', p, x);
  }

  /** Whatever is asked, and whoever's file is closed. */
  lemma ServeKeeps<P>(k: Kernel<P>, req: Request)
    requires Core(k) && k.running.Some?
    ensures Moved(k, Do(k, Serve(req)))
  {
    var p := k.running.value;
    RunningEnters(k);
    SwitchIsSwitched(k, p, req);
    ServeWaits(k, p, req);
    ServeResources(k, p, req);
    RequeueKeeps(k, Switch(k, p, req), p);
  }

  /** The core is kept, and everybody who was in some place is in some place. */
  ghost predicate Moved<P>(k: Kernel<P>, k': Kernel<P>) {
    Core(k') && Members(k') == Members(k) && k'.state.Keys == k.state.Keys
  }

  lemma RequeueKeeps<P>(k: Kernel<P>, k1: Kernel<P>, p: P)
    requires Core(k) && k.running == Some(p) && Switched(k, k1, p)
    requires WaitsOk(Requeue(k1, p)) && ResourcesOk(Requeue(k1, p))
    ensures Moved(k, Requeue(k1, p))
  {
    RequeuePlaces(k, k1, p);
    RequeueMembers(k, k1, p);
  }

  lemma RequeueMembers<P>(k: Kernel<P>, k1: Kernel<P>, p: P)
    requires k.running == Some(p) && Switched(k, k1, p)
    ensures Members(Requeue(k1, p)) == Members(k) && Requeue(k1, p).state.Keys == k.state.Keys
  {
  }

  lemma ServeWaits<P>(k: Kernel<P>, p: P, req: Request)
    requires WaitsOk(k) && Entered(k, p) && p in Switch(k, p, req).state
    ensures WaitsOk(Requeue(Switch(k, p, req), p))
  {
    SwitchWaits(k, p, req);
    RequeueWaits(Switch(k, p, req), p);
  }

  lemma ServeResources<P>(k: Kernel<P>, p: P, req: Request)
    requires Core(k) && Entered(k, p) && Present(k, p) && Switched(k, Switch(k, p, req), p)
    ensures ResourcesOk(Requeue(Switch(k, p, req), p))
  {
    if req.Signal? && req.name in k.resources && k.resources[req.name].waiting != [] {
      HeadIsPresent(k, OnResource(req.name));
    }
    SwitchResources(k, p, req);
  }

  // ----- dispatching

  lemma {:induction false} RemoveFirstIs<P>(s: seq<P>, p: P) returns (i: nat)
    requires p in s
    ensures i < |s| && s[i] == p && RemoveFirst(s, p) == Without(s, i)
  {
    i := 0;
    if s[0] != p {
      var j := RemoveFirstIs(s[1..], p);
      i := j + 1;
    }
  }

  lemma BagOfRest<P>(active: seq<P>, rest: seq<P>, p: P)
    requires multiset(rest) + multiset{p} == multiset(active)
    ensures |rest| + 1 == |active| && forall q :: q in active <==> q in rest || q == p
  {
    assert |multiset(rest) + multiset{p}| == |rest| + 1;
    forall q ensures q in active <==> q in rest || q == p {
      assert q in active <==> multiset(active)[q] > 0;
      assert q in rest <==> multiset(rest)[q] > 0;
    }
  }

  lemma BagWithin<P>(active: seq<P>, rest: seq<P>, chosen: Option<P>, lost: multiset<P>)
    requires multiset(rest) + AsBag(chosen) + lost == multiset(active)
    ensures |rest| + |AsBag(chosen)| <= |active| && forall q :: q in rest || Some(q) == chosen ==> q in active
  {
    assert |multiset(rest) + AsBag(chosen) + lost| == |rest| + |AsBag(chosen)| + |lost|;
    forall q | q in rest || Some(q) == chosen ensures q in active {
      assert q in multiset(rest) + AsBag(chosen) + lost;
    }
  }

  /** What a dispatch makes of the active queue: who goes, who stays and who is lost are those there were. */
  lemma ChoiceSplits<P>(k: Kernel<P>, now: real) returns (c: Choice<P>)
    requires Core(k) && Legal(k, Dispatch(now))
    ensures c == Choose(k, now) && c.times.Keys == k.times.Keys
    ensures multiset(c.rest) + AsBag(c.pcb) + LostBy(k, Dispatch(now)) == multiset(k.active)
    ensures c.pcb.Some? ==> StateOf(k, c.pcb.value) == Ready
    ensures k.prioritized.Some? ==> c.pcb.Some?
  {
    c := Choose(k, now);
    if k.prioritized.Some? {
      var i := RemoveFirstIs(k.active, k.prioritized.value);
      WithoutMultiset(k.active, i);
    } else if Scans(k) {
      ScanSplits(k, now);
    } else {
      var i := FirstReady(k.active, k.state);
      if i != -1 {
        WithoutMultiset(k.active, i);
      }
    }
  }

  lemma ScanSplits<P>(k: Kernel<P>, now: real)
    requires Legal(k, Dispatch(now)) && Scans(k)
    ensures var c := ChooseScan(k, Ratios(k, now), now);
            && c.times.Keys == k.times.Keys && (c.pcb.Some? ==> StateOf(k, c.pcb.value) == Ready)
            && multiset(c.rest) + AsBag(c.pcb) + LostBy(k, Dispatch(now)) == multiset(k.active)
  {
    ScanPicks(k.active, Ratios(k, now), k.state);
    ScanCounts(k.active, Ratios(k, now), k.state);
    assert multiset(ChooseScan(k, Ratios(k, now), now).rest)
        == multiset(ScanAll(k.active, Ratios(k, now), k.state).temporal)
           + multiset(ScanAll(k.active, Ratios(k, now), k.state).ties);
  }

  lemma ScanPicks<P>(active: seq<P>, ratio: map<P, real>, state: map<P, State>)
    requires HaveRatios(active, ratio) && exists i :: 0 <= i < |active| && ratio[active[i]] > 0.0
    ensures var (p, rest) := PickHrrn(active, ratio, state); p.Some? ==> p.value in active && IsReady(state, p.value)
    ensures var best := ScanAll(active, ratio, state).next; best.Some? && best.value in active
  {
    var i := ScanFinds(active, ratio, state);
  }

  /** A READY process leaves the active queue to run, or nobody; some are lost. */
  lemma ChoiceKeeps<P>(k: Kernel<P>, k': Kernel<P>, c: Choice<P>, lost: multiset<P>)
    requires Core(k) && !k.owing && k.running.None? && k' == Chosen(k, c) && c.times.Keys == k.times.Keys
    requires multiset(c.rest) + AsBag(c.pcb) + lost == multiset(k.active)
    requires (c.pcb.Some? ==> StateOf(k, c.pcb.value) == Ready) && (k.prioritized.Some? ==> c.pcb.Some?)
    ensures Core(k') && Members(k') + lost == Members(k) && k'.state.Keys == k.state.Keys
  {
    BagWithin(k.active, c.rest, c.pcb, lost);
    if c.pcb.Some? {
      MemberIsKnown(k, c.pcb.value);
    }
    ChoiceMembers(k, k', c, lost);
    ChoicePlaces(k, k', c);
    ChoiceResources(k, k', c);
    ChoiceParts(k, c);
  }

  lemma ChoiceParts<P>(k: Kernel<P>, c: Choice<P>)
    requires k.running.None? && (c.pcb.Some? ==> c.pcb.value in k.state)
    ensures var k' := Chosen(k, c);
            && k'.active == c.rest && k'.running == c.pcb && k'.times == c.times && k'.state.Keys == k.state.Keys
            && k' == k.(active := c.rest, running := c.pcb, times := c.times, state := k'.state,
                        prioritized := k'.prioritized)
  {
  }

  lemma SplitBag<P>(e: multiset<P>, rest: multiset<P>, chosen: multiset<P>, lost: multiset<P>, f: multiset<P>)
    ensures e + rest + chosen + f + lost == e + (rest + chosen + lost) + multiset{} + f
  {
  }

  lemma ChoiceMembers<P>(k: Kernel<P>, k': Kernel<P>, c: Choice<P>, lost: multiset<P>)
    requires k.running.None? && k' == Chosen(k, c) && multiset(c.rest) + AsBag(c.pcb) + lost == multiset(k.active)
    requires c.pcb.Some? ==> c.pcb.value in k.state
    ensures Members(k') + lost == Members(k) && k'.state.Keys == k.state.Keys
  {
    ChoiceParts(k, c);
    SplitBag(multiset(k.entrants), multiset(c.rest), AsBag(c.pcb), lost, multiset(k.finished));
  }

  lemma ChoiceResources<P>(k: Kernel<P>, k': Kernel<P>, c: Choice<P>)
    requires WaitsOk(k) && ResourcesOk(k) && k.running.None? && k' == Chosen(k, c)
    requires c.pcb.Some? ==> c.pcb.value in k.state && k.state[c.pcb.value] == Ready
    ensures WaitsOk(k') && ResourcesOk(k')
  {
    ChoiceParts(k, c);
    assert Blocked(k') == Blocked(k);
    SameWaits(k, k');
    SameResources(k, k');
  }

  lemma ChoicePlaces<P>(k: Kernel<P>, k': Kernel<P>, c: Choice<P>)
    requires PlacesOk(k) && ActiveOk(k) && TurnOk(k) && !k.owing && k.running.None? && k' == Chosen(k, c)
    requires c.times.Keys == k.times.Keys && Members(k') <= Members(k) && k'.state.Keys == k.state.Keys
    requires forall q :: q in c.rest || Some(q) == c.pcb ==> q in k.active
    requires k.prioritized.Some? ==> c.pcb.Some?
    ensures PlacesOk(k') && ActiveOk(k') && TurnOk(k')
  {
    if c.pcb.Some? {
      var p := c.pcb.value;
      MemberIsKnown(k, p);
      assert Members(k')[p] <= multiset(k'.state.Keys)[p];
      StartPlaces(k, k', p, c);
    }
  }

  lemma StartPlaces<P>(k: Kernel<P>, k': Kernel<P>, p: P, c: Choice<P>)
    requires PlacesOk(k) && ActiveOk(k) && !k.owing && k.running.None?
    requires k' == Start(k, p, c.rest).(times := c.times) && c.times.Keys == k.times.Keys
    requires Members(k') <= Members(k) && k'.state.Keys == k.state.Keys
    requires p in k.active && p !in c.rest && p !in k.entrants && p !in k.finished
    requires forall q :: q in c.rest ==> q in k.active
    ensures PlacesOk(k') && ActiveOk(k') && TurnOk(k')
  {
  }

  /** Every dispatch keeps the core; a scan loses exactly those it meets leading and not READY. */
  lemma DispatchKeeps<P>(k: Kernel<P>, now: real)
    requires Core(k) && Legal(k, Dispatch(now))
    ensures var k' := Dispatched(k, now);
            Core(k') && Members(k') + LostBy(k, Dispatch(now)) == Members(k) && k'.state.Keys == k.state.Keys
    ensures FilesOk(Dispatched(k, now)) <==> FilesOk(k)
  {
    var c := ChoiceSplits(k, now);
    ChoiceKeeps(k, Dispatched(k, now), c, LostBy(k, Dispatch(now)));
    SameFiles(k, Dispatched(k, now));
  }

  // ----- arrivals, wake-ups and the filesystem thread

  lemma ArriveKeeps<P>(k: Kernel<P>, p: P, now: real)
    requires Core(k) && p !in k.state
    ensures var k' := Do(k, Arrive(p, now));
            Core(k') && Members(k') == Members(k) + multiset{p} && k'.state.Keys == k.state.Keys + {p}
    ensures FilesOk(k) ==> FilesOk(Do(k, Arrive(p, now)))
  {
    var k' := Do(k, Arrive(p, now));
    ArriveMembers(k, k', p, now);
    ArrivePlaces(k, k', p, now);
    ArriveWaits(k, k', p, now);
    ArriveFiles(k, k', p, now);
    SameResources(k, k');
  }

  lemma ArriveFiles<P>(k: Kernel<P>, k': Kernel<P>, p: P, now: real)
    requires k.local.Keys == k.state.Keys && p !in k.state && k' == Do(k, Arrive(p, now))
    ensures FilesOk(k) ==> FilesOk(k')
  {
    assert forall q, x :: q in k'.local ==> (Holds(k', q, x) <==> q in k.local && Holds(k, q, x));
  }

  lemma ArriveWaits<P>(k: Kernel<P>, k': Kernel<P>, p: P, now: real)
    requires WaitsOk(k) && p !in k.state && k' == Do(k, Arrive(p, now))
    ensures WaitsOk(k')
  {
    assert Blocked(k') == Blocked(k);
    SameWaits(k, k');
  }

  lemma ArrivePlaces<P>(k: Kernel<P>, k': Kernel<P>, p: P, now: real)
    requires PlacesOk(k) && ActiveOk(k) && TurnOk(k) && p !in k.state && k' == Do(k, Arrive(p, now))
    requires Members(k') == Members(k) + multiset{p} && k'.state.Keys == k.state.Keys + {p}
    ensures PlacesOk(k') && ActiveOk(k') && TurnOk(k')
  {
    OneMoreKey(Members(k), k.state.Keys, p);
    forall q | q in k.active || q in k.entrants || q in k.finished || k.running == Some(q)
      ensures q != p && q in k.state
    {
      MemberIsKnown(k, q);
    }
    ArriveKnown(k, k', p, now);
    ArriveStates(k, k', p, now);
  }

  lemma ArriveKnown<P>(k: Kernel<P>, k': Kernel<P>, p: P, now: real)
    requires PlacesOk(k) && k' == Do(k, Arrive(p, now)) && Members(k') <= multiset(k'.state.Keys)
    requires forall q :: q in k.entrants || q in k.finished ==> q != p && q in k.state
    ensures PlacesOk(k')
  {
    assert k'.local.Keys == k'.state.Keys && k'.times.Keys == k'.state.Keys;
  }

  lemma ArriveStates<P>(k: Kernel<P>, k': Kernel<P>, p: P, now: real)
    requires ActiveOk(k) && TurnOk(k) && k' == Do(k, Arrive(p, now))
    requires forall q :: q in k.active || k.running == Some(q) ==> q != p && q in k.state
    ensures ActiveOk(k') && TurnOk(k')
  {
    assert forall q :: q in k.active ==> StateOf(k', q) == StateOf(k, q);
  }

  lemma OneMoreKey<P>(members: multiset<P>, keys: set<P>, p: P)
    requires members <= multiset(keys) && p !in keys
    ensures members + multiset{p} <= multiset(keys + {p})
    ensures members + multiset{p} == multiset(keys + {p}) <==> members == multiset(keys)
  {
    assert multiset(keys + {p}) == multiset(keys) + multiset{p};
    assert members + multiset{p} - multiset{p} == members;
    assert multiset(keys) + multiset{p} - multiset{p} == multiset(keys);
  }

  lemma ArriveMembers<P>(k: Kernel<P>, k': Kernel<P>, p: P, now: real)
    requires k' == Do(k, Arrive(p, now))
    ensures Members(k') == Members(k) + multiset{p} && k'.state.Keys == k.state.Keys + {p}
  {
  }

  /** Moreover, who holds which file stays as right as it was. */
  ghost predicate StaysPut<P>(k: Kernel<P>, k': Kernel<P>) {
    Moved(k, k') && (FilesOk(k') <==> FilesOk(k))
  }

  /** Only queues changed, and a process in BLOCK perhaps became READY. */
  lemma WokenKeeps<P>(k: Kernel<P>, k': Kernel<P>, woken: Option<P>)
    requires Core(k) && WaitsOk(k')
    requires if woken.Some? then woken.value in Blocked(k) && k'.state == k.state[woken.value := Ready]
             else k'.state == k.state
    requires k' == k.(state := k'.state, sleeping := k'.sleeping, transfers := k'.transfers, serving := k'.serving,
             stuck := k'.stuck)
    ensures StaysPut(k, k')
  {
    WokenPlaces(k, k', woken);
    SameFiles(k, k');
    SameResources(k, k');
  }

  lemma WokenPlaces<P>(k: Kernel<P>, k': Kernel<P>, woken: Option<P>)
    requires PlacesOk(k) && ActiveOk(k) && TurnOk(k)
    requires k' == k.(state := k'.state, sleeping := k'.sleeping, transfers := k'.transfers, serving := k'.serving,
             stuck := k'.stuck)
    requires if woken.Some? then woken.value in Blocked(k) && k'.state == k.state[woken.value := Ready]
             else k'.state == k.state
    ensures PlacesOk(k') && ActiveOk(k') && TurnOk(k') && Members(k') == Members(k) && k'.state.Keys == k.state.Keys
  {
    assert k'.state.Keys == k.state.Keys && Members(k') == Members(k);
  }

  lemma IoDoneKeeps<P>(k: Kernel<P>, p: P)
    requires Core(k) && p in k.sleeping
    ensures StaysPut(k, Do(k, IoDone(p)))
  {
    var i := RemoveFirstIs(k.sleeping, p);
    IoDoneWaits(k, p, i);
    WokenKeeps(k, Do(k, IoDone(p)), Some(p));
  }

  lemma IoDoneWaits<P>(k: Kernel<P>, p: P, i: nat)
    requires WaitsOk(k) && i < |k.sleeping| && k.sleeping[i] == p &&
             RemoveFirst(k.sleeping, p) == Without(k.sleeping, i)
    ensures p in Blocked(k) && WaitsOk(Do(k, IoDone(p)))
  {
    QueuedIsBlocked(k, Sleep, p);
    WakeAt(k, Do(k, IoDone(p)), Sleep, i);
  }

  lemma FsReplyKeeps<P>(k: Kernel<P>, ok: bool)
    requires Core(k) && k.serving.Some?
    ensures StaysPut(k, Do(k, FsReply(ok)))
  {
    FsReplyWaits(k, ok);
    WokenKeeps(k, Do(k, FsReply(ok)), if ok then k.serving else None);
  }

  lemma FsReplyWaits<P>(k: Kernel<P>, ok: bool)
    requires WaitsOk(k) && k.serving.Some?
    ensures k.serving.value in Blocked(k) && WaitsOk(Do(k, FsReply(ok)))
  {
    var k' := Do(k, FsReply(ok));
    var p := k.serving.value;
    assert Queue(k, Serving) == [p];
    QueuedIsBlocked(k, Serving, p);
    if ok {
      WakeAt(k, k', Serving, 0);
    } else {
      Shift(Queues(k), Queues(k'), Blocked(k), Serving, 0, Stuck);
    }
  }

  lemma FsTakeKeeps<P>(k: Kernel<P>)
    requires Core(k) && k.transfers != [] && k.serving.None?
    ensures StaysPut(k, Do(k, FsTake))
  {
    FsTakeWaits(k);
    WokenKeeps(k, Do(k, FsTake), None);
  }

  lemma FsTakeQueue<P>(k: Kernel<P>, y: Place)
    requires k.transfers != [] && k.serving.None?
    ensures Queue(Do(k, FsTake), y)
         == if y == Transfer then k.transfers[1..] else if y == Serving then [k.transfers[0]] else Queue(k, y)
  {
  }

  lemma FsTakeWaits<P>(k: Kernel<P>)
    requires WaitsOk(k) && k.transfers != [] && k.serving.None?
    ensures WaitsOk(Do(k, FsTake))
  {
    var k' := Do(k, FsTake);
    forall y
      ensures Queue(k', y)
           == if y == Transfer then k.transfers[1..] else if y == Serving then [k.transfers[0]] else Queue(k, y) {
      FsTakeQueue(k, y);
    }
    TakeServes(k, k');
  }

  lemma TakeServes<P>(k: Kernel<P>, k': Kernel<P>)
    requires WaitsOk(k) && k.transfers != [] && k.serving.None? && k'.state == k.state
    requires forall y :: Queue(k', y) == if y == Transfer then k.transfers[1..]
             else if y == Serving then [k.transfers[0]] else Queue(k, y)
    ensures WaitsOk(k')
  {
    assert Without(k.transfers, 0) == k.transfers[1..];
    Shift(Queues(k), Queues(k'), Blocked(k), Transfer, 0, Serving);
  }
}
