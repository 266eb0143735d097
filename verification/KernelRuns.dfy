/** Whole runs of the kernel: any interleaving of its threads' steps. */
module KernelRuns {
  import opened Options
  import opened Scheduling
  import opened WaitQueues
  import opened KernelState
  import opened KernelInvariant
  import opened KernelSteps
  import opened KernelReaping

  function Newcomers<P>(step: Step<P>): set<P> {
    if step.Arrive? then {step.p} else {}
  }

  /**
   Every step that can be taken keeps the core. Who was in some place is in some place, newcomers
   too, but for those a scan loses.
   */
  lemma StepKeepsCore<P>(k: Kernel<P>, step: Step<P>)
    requires Core(k) && Legal(k, step)
    ensures Core(Do(k, step)) && Accounts(k, step, Do(k, step))
  {
    if step.Arrive? {
      ArriveKeeps(k, step.p, step.now);
      ArriveAccounts(k, step.p, step.now, Do(k, step));
    } else if step.Dispatch? {
      DispatchKeeps(k, step.now);
      DispatchAccounts(k, step.now, Do(k, step));
    } else {
      OtherMoves(k, step);
      MovedAccounts(k, step, Do(k, step));
    }
  }

  lemma OtherMoves<P>(k: Kernel<P>, step: Step<P>)
    requires Core(k) && Legal(k, step) && !step.Arrive? && !step.Dispatch?
    ensures Moved(k, Do(k, step))
  {
    match step
    case Reschedule(byMain) => RescheduleKeeps(k, byMain);
    case Serve(req) => ServeKeeps(k, req);
    case IoDone(p) => IoDoneKeeps(k, p);
    case FsTake => FsTakeKeeps(k);
    case FsReply(ok) => FsReplyKeeps(k, ok);
    case _ => assert false;
  }

  /** Nobody comes, goes or is lost unaccounted. */
  ghost predicate Accounts<P>(k: Kernel<P>, step: Step<P>, k': Kernel<P>) {
    && k'.state.Keys == k.state.Keys + Newcomers(step)
    && Members(k') + LostBy(k, step) == Members(k) + multiset(Newcomers(step))
  }

  lemma MovedAccounts<P>(k: Kernel<P>, step: Step<P>, k': Kernel<P>)
    requires Moved(k, k') && !step.Arrive? && !step.Dispatch?
    ensures Accounts(k, step, k')
  {
  }

  lemma ArriveAccounts<P>(k: Kernel<P>, p: P, now: real, k': Kernel<P>)
    requires Members(k') == Members(k) + multiset{p} && k'.state.Keys == k.state.Keys + {p}
    ensures Accounts(k, Arrive(p, now), k')
  {
    assert multiset({p}) == multiset{p};
  }

  lemma DispatchAccounts<P>(k: Kernel<P>, now: real, k': Kernel<P>)
    requires Members(k') + LostBy(k, Dispatch(now)) == Members(k) && k'.state.Keys == k.state.Keys
    ensures Accounts(k, Dispatch(now), k')
  {
  }

  /** A file stays open for one process at most exactly when the step does not close another's. */
  lemma StepFilesIff<P>(k: Kernel<P>, step: Step<P>)
    requires Core(k) && FilesOk(k) && Legal(k, step)
    ensures FilesOk(Do(k, step)) <==> ClosesOwn(k, step)
  {
    match step
    case Arrive(p, now) => ArriveKeeps(k, p, now);
    case Reschedule(byMain) => RescheduleKeeps(k, byMain);
    case Dispatch(now) => DispatchKeeps(k, now);
    case Serve(req) => ServeFilesIff(k, req);
    case IoDone(p) => IoDoneKeeps(k, p);
    case FsTake => FsTakeKeeps(k);
    case FsReply(ok) => FsReplyKeeps(k, ok);
  }

  lemma AllButLost<P>(members: multiset<P>, lost: multiset<P>, all: multiset<P>)
    requires members + lost == all
    ensures members == all <==> lost == multiset{}
  {
    assert all - members == lost;
  }

  /** A step's account added to what was lost before. */
  lemma AddAccount<P>(k: Kernel<P>, step: Step<P>, k': Kernel<P>, before: multiset<P>)
    requires Legal(k, step) && Accounts(k, step, k') && Members(k) + before == multiset(k.state.Keys)
    ensures Members(k') + (before + LostBy(k, step)) == multiset(k'.state.Keys)
  {
    assert k.state.Keys !! Newcomers(step);
    DisjointKeys(k.state.Keys, Newcomers(step));
    SumOf(Members(k'), LostBy(k, step), Members(k), multiset(Newcomers(step)), before, multiset(k.state.Keys));
  }

  lemma DisjointKeys<P>(keys: set<P>, others: set<P>)
    requires keys !! others
    ensures multiset(keys + others) == multiset(keys) + multiset(others)
  {
  }

  lemma SumOf<P>(m': multiset<P>, lost: multiset<P>, m: multiset<P>, more: multiset<P>, before: multiset<P>,
    keys: multiset<P>)
    requires m' + lost == m + more && m + before == keys
    ensures m' + (before + lost) == keys + more
  {
    assert m' + (before + lost) == (m' + lost) + before;
  }

  lemma PlacesAfter<P>(k: Kernel<P>, step: Step<P>, k': Kernel<P>)
    requires AllPlaced(k) && Legal(k, step) && Accounts(k, step, k')
    ensures AllPlaced(k') <==> LostBy(k, step) == multiset{}
  {
    AddAccount(k, step, k', multiset{});
    NoneBefore(LostBy(k, step));
    AllButLost(Members(k'), LostBy(k, step), multiset(k'.state.Keys));
  }

  lemma NoneBefore<P>(m: multiset<P>)
    ensures multiset{} + m == m
  {
  }

  lemma Regroup<P>(a: multiset<P>, b: multiset<P>, c: multiset<P>)
    ensures a + b + c == a + (b + c)
  {
  }

  /** Everybody stays in some place exactly when the step loses nobody in a scan. */
  lemma StepPlacesIff<P>(k: Kernel<P>, step: Step<P>)
    requires Core(k) && AllPlaced(k) && Legal(k, step)
    ensures AllPlaced(Do(k, step)) <==> LosesNobody(k, step)
  {
    StepKeepsCore(k, step);
    PlacesAfter(k, step, Do(k, step));
    LostIff(k, step);
  }

  /**
   Every step that can be taken keeps the whole invariant exactly when it closes nobody else's file
   and loses no process in a scan.
   */
  lemma StepKeepsIff<P>(k: Kernel<P>, step: Step<P>)
    requires Inv(k) && Legal(k, step)
    ensures Inv(Do(k, step)) <==> Careful(k, step)
  {
    StepKeepsCore(k, step);
    StepFilesIff(k, step);
    StepPlacesIff(k, step);
  }

  function FreshResource<P>(available: int): Resource<P> {
    Resource(available, None, [], Tally(available, 0, 0, [], []))
  }

  function Start0<P>(config: Config, instances: map<string, nat>): Kernel<P> {
    Kernel(config, map[], map[], map[], [], [], None, {}, None, false,
           map name | name in instances :: FreshResource(instances[name]), map[], [], [], None, [])
  }

  lemma StartInv<P>(config: Config, instances: map<string, nat>)
    requires config.max >= 0 && forall name :: name in instances ==> name in config.names
    ensures Inv<P>(Start0(config, instances))
  {
    var k: Kernel<P> := Start0(config, instances);
    forall x ensures Queue(k, x) == [] {}
    assert Members(k) == multiset{};
  }

  /** Any interleaving of steps that the threads can take. */
  ghost predicate Runs<P>(k: Kernel<P>, steps: seq<Step<P>>)
    decreases steps
  {
    steps == [] || (Legal(k, steps[0]) && Runs(Do(k, steps[0]), steps[1..]))
  }

  function After<P>(k: Kernel<P>, steps: seq<Step<P>>): Kernel<P>
    requires Runs(k, steps)
    decreases steps
  {
    if steps == [] then k else After(Do(k, steps[0]), steps[1..])
  }

  /** A run can be extended by any step that can be taken at its end. */
  lemma {:induction false} RunSnoc<P>(k: Kernel<P>, steps: seq<Step<P>>, step: Step<P>)
    requires Runs(k, steps) && Legal(After(k, steps), step)
    ensures Runs(k, steps + [step]) && After(k, steps + [step]) == Do(After(k, steps), step)
    decreases steps
  {
    if steps == [] {
      assert [step][1..] == [];
    } else {
      assert (steps + [step])[1..] == steps[1..] + [step];
      RunSnoc(Do(k, steps[0]), steps[1..], step);
    }
  }

  /** The core holds at every moment of every run. */
  lemma {:induction false} RunKeeps<P>(k: Kernel<P>, steps: seq<Step<P>>)
    requires Core(k) && Runs(k, steps)
    ensures Core(After(k, steps))
    decreases steps
  {
    if steps != [] {
      StepKeepsCore(k, steps[0]);
      RunKeeps(Do(k, steps[0]), steps[1..]);
    }
  }

  ghost predicate AlwaysInv<P>(k: Kernel<P>, steps: seq<Step<P>>)
    requires Runs(k, steps)
    decreases steps
  {
    Inv(k) && (steps == [] || AlwaysInv(Do(k, steps[0]), steps[1..]))
  }

  ghost predicate AlwaysCareful<P>(k: Kernel<P>, steps: seq<Step<P>>)
    requires Runs(k, steps)
    decreases steps
  {
    steps == [] || (Careful(k, steps[0]) && AlwaysCareful(Do(k, steps[0]), steps[1..]))
  }

  /** The whole invariant holds at every moment exactly of those runs whose steps are all careful. */
  lemma {:induction false} AlwaysInvIff<P>(k: Kernel<P>, steps: seq<Step<P>>)
    requires Inv(k) && Runs(k, steps)
    ensures AlwaysInv(k, steps) <==> AlwaysCareful(k, steps)
    decreases steps
  {
    if steps != [] {
      StepKeepsIff(k, steps[0]);
      if Inv(Do(k, steps[0])) {
        AlwaysInvIff(Do(k, steps[0]), steps[1..]);
      }
    }
  }

  // ----- where processes are, over every run

  /** Everybody the run's scans lose. */
  ghost function LostOver<P>(k: Kernel<P>, steps: seq<Step<P>>): multiset<P>
    requires Runs(k, steps)
    decreases steps
  {
    if steps == [] then multiset{} else LostBy(k, steps[0]) + LostOver(Do(k, steps[0]), steps[1..])
  }

  /** Those in some place and those lost are all there are, at every moment. */
  lemma {:induction false} Accounted<P>(k: Kernel<P>, steps: seq<Step<P>>, before: multiset<P>)
    requires Core(k) && Runs(k, steps) && Members(k) + before == multiset(k.state.Keys)
    ensures Members(After(k, steps)) + (before + LostOver(k, steps)) == multiset(After(k, steps).state.Keys)
    decreases steps, 1
  {
    if steps == [] {
      assert before + multiset{} == before;
    } else {
      StepKeepsCore(k, steps[0]);
      AccountsOn(k, steps, Do(k, steps[0]), before);
    }
  }

  lemma {:induction false} AccountsOn<P>(k: Kernel<P>, steps: seq<Step<P>>, k': Kernel<P>, before: multiset<P>)
    requires steps != [] && Runs(k, steps) && k' == Do(k, steps[0]) && Core(k') && Accounts(k, steps[0], k')
    requires Members(k) + before == multiset(k.state.Keys)
    ensures Members(After(k, steps)) + (before + LostOver(k, steps)) == multiset(After(k, steps).state.Keys)
    decreases steps, 0
  {
    var lost := LostBy(k, steps[0]);
    AddAccount(k, steps[0], k', before);
    Accounted(k', steps[1..], before + lost);
    Regroup(before, lost, LostOver(k', steps[1..]));
  }

  /** Each process is new, active, running, finished or lost in a scan, just one of these, and once. */
  lemma OnePlace<P>(k: Kernel<P>, steps: seq<Step<P>>, p: P)
    requires Core(k) && AllPlaced(k) && Runs(k, steps) && p in After(k, steps).state
    ensures var k' := After(k, steps);
            multiset(k'.entrants)[p] + multiset(k'.active)[p] + AsBag(k'.running)[p] + multiset(k'.finished)[p]
            + LostOver(k, steps)[p] == 1
  {
    Accounted(k, steps, multiset{});
    var k' := After(k, steps);
    assert (Members(k') + (multiset{} + LostOver(k, steps)))[p] == multiset(k'.state.Keys)[p];
  }

  ghost predicate AlwaysLosesNobody<P>(k: Kernel<P>, steps: seq<Step<P>>)
    requires Runs(k, steps)
    decreases steps
  {
    steps == [] || (LosesNobody(k, steps[0]) && AlwaysLosesNobody(Do(k, steps[0]), steps[1..]))
  }

  lemma {:induction false} LostOverIff<P>(k: Kernel<P>, steps: seq<Step<P>>)
    requires Runs(k, steps)
    ensures LostOver(k, steps) == multiset{} <==> AlwaysLosesNobody(k, steps)
    decreases steps
  {
    if steps != [] {
      LostIff(k, steps[0]);
      LostOverIff(Do(k, steps[0]), steps[1..]);
      NoneOfBoth(LostBy(k, steps[0]), LostOver(Do(k, steps[0]), steps[1..]));
    }
  }

  lemma NoneOfBoth<P>(a: multiset<P>, b: multiset<P>)
    ensures a + b == multiset{} <==> a == multiset{} && b == multiset{}
  {
    assert a <= a + b && b <= a + b;
  }

  /** Nobody is missing at the end of a run exactly when all its scans met only leaders that were READY. */
  lemma NobodyMissingIff<P>(k: Kernel<P>, steps: seq<Step<P>>)
    requires Core(k) && AllPlaced(k) && Runs(k, steps)
    ensures AllPlaced(After(k, steps)) <==> AlwaysLosesNobody(k, steps)
  {
    Accounted(k, steps, multiset{});
    LostOverIff(k, steps);
    NoneBefore(LostOver(k, steps));
    AllButLost(Members(After(k, steps)), LostOver(k, steps), multiset(After(k, steps).state.Keys));
  }

  /** Who waits is in BLOCK, in one place of one queue, and active unless it was lost in a scan. */
  lemma OneQueue<P>(k: Kernel<P>, steps: seq<Step<P>>, p: P, x: Place, i: nat, y: Place, j: nat)
    requires Core(k) && Runs(k, steps)
    requires var k' := After(k, steps);
             i < |Queue(k', x)| && j < |Queue(k', y)| && Queue(k', x)[i] == p == Queue(k', y)[j]
    ensures x == y && i == j && StateOf(After(k, steps), p) == Block
    ensures AllPlaced(k) ==> p in After(k, steps).active || LostOver(k, steps)[p] == 1
  {
    RunKeeps(k, steps);
    var k' := After(k, steps);
    var q := Queues(k');
    assert p in q(x) && p in q(y);
    assert NoRepeat(q(x));
    QueuedIsBlocked(k', x, p);
    if AllPlaced(k) {
      WaitsActive(k, steps, p);
    }
  }

  lemma WaitsActive<P>(k: Kernel<P>, steps: seq<Step<P>>, p: P)
    requires Core(k) && AllPlaced(k) && Runs(k, steps) && p in Blocked(After(k, steps))
    ensures p in After(k, steps).active || LostOver(k, steps)[p] == 1
  {
    RunKeeps(k, steps);
    OnePlace(k, steps, p);
    BlockedIsPresent(After(k, steps), p);
  }

  /** Nobody is in BLOCK without being waited for. */
  lemma BlockedIffQueued<P>(k: Kernel<P>, steps: seq<Step<P>>, p: P)
    requires Core(k) && Runs(k, steps)
    ensures p in Blocked(After(k, steps)) <==> exists x :: p in Queue(After(k, steps), x)
  {
    RunKeeps(k, steps);
    var k' := After(k, steps);
    if p in Blocked(k') {
      assert Somewhere(Queues(k'), p);
      var x :| p in Queues(k')(x);
      assert p in Queue(k', x);
    }
    if x :| p in Queue(k', x) {
      QueuedIsBlocked(k', x, p);
    }
  }

  /** At most `max + 1` processes are active or running. */
  lemma Multiprogramming<P>(k: Kernel<P>, steps: seq<Step<P>>)
    requires Core(k) && Runs(k, steps)
    ensures |After(k, steps).active| + |AsBag(After(k, steps).running)| <= After(k, steps).config.max + 1
  {
    RunKeeps(k, steps);
  }

  // ----- semaphores over time

  ghost predicate Later<P>(t: Tally<P>, t': Tally<P>) {
    t'.initial == t.initial && t.grants <= t'.grants && t.released <= t'.released && t.blocked <= t'.blocked &&
      t.woken <= t'.woken
  }

  ghost predicate AllLater<P>(k: Kernel<P>, k': Kernel<P>) {
    k'.resources.Keys == k.resources.Keys &&
      forall name :: name in k.resources ==> Later(k.resources[name].tally, k'.resources[name].tally)
  }

  lemma WaitLater<P>(k: Kernel<P>, p: P, name: string)
    ensures AllLater(k, OnWait(k, p, name))
  {
  }

  lemma SignalLater<P>(k: Kernel<P>, name: string)
    requires name in k.resources
    ensures AllLater(k, SignalAt(k, name))
  {
  }

  lemma SwitchLater<P>(k: Kernel<P>, p: P, req: Request)
    ensures AllLater(k, Switch(k, p, req))
  {
    if req.Wait? {
      WaitLater(k, p, req.name);
    } else if req.Signal? && req.name in k.resources {
      SignalLater(k, req.name);
      SameLater(SignalAt(k, req.name), OnSignal(k, p, req.name));
      LaterStill(k, SignalAt(k, req.name), OnSignal(k, p, req.name));
    } else {
      PlainResources(k, p, req);
      SameLater(k, Switch(k, p, req));
    }
  }

  lemma {:induction false} ReleaseLater<P>(k: Kernel<P>, p: P, names: seq<string>)
    ensures AllLater(k, ReleaseAll(k, p, names))
  {
    if names != [] {
      var n := |names| - 1;
      ReleaseLater(k, p, names[..n]);
      ReleaseOneLater(ReleaseAll(k, p, names[..n]), p, names[n]);
    }
  }

  lemma ReleaseOneLater<P>(k: Kernel<P>, p: P, name: string)
    ensures AllLater(k, ReleaseOne(k, p, name))
  {
  }

  lemma {:induction false} ReapLater<P>(k: Kernel<P>, i: nat)
    ensures AllLater(k, Reap(k, i))
    decreases |k.active| - i
  {
    if i < |k.active| {
      if StateOf(k, k.active[i]) == Exit {
        ReleaseLater(k.(active := Without(k.active, i)), k.active[i], k.config.names);
        ReapLater(Finish(k, i), i + 1);
      } else {
        ReapLater(k, i + 1);
      }
    }
  }

  lemma SameLater<P>(k: Kernel<P>, k': Kernel<P>)
    requires k'.resources == k.resources
    ensures AllLater(k, k')
  {
  }

  lemma LaterStill<P>(a: Kernel<P>, b: Kernel<P>, c: Kernel<P>)
    requires AllLater(a, b) && AllLater(b, c)
    ensures AllLater(a, c)
  {
    forall name | name in a.resources ensures Later(a.resources[name].tally, c.resources[name].tally) {
      assert Later(a.resources[name].tally, b.resources[name].tally) &&
        Later(b.resources[name].tally, c.resources[name].tally);
    }
  }

  lemma RescheduleLater<P>(k: Kernel<P>, byMain: bool)
    ensures AllLater(k, Do(k, Reschedule(byMain)))
  {
    ReapLater(k, 0);
    SameLater(Reap(k, 0), Do(k, Reschedule(byMain)));
    LaterStill(k, Reap(k, 0), Do(k, Reschedule(byMain)));
  }

  lemma ServeLater<P>(k: Kernel<P>, req: Request)
    requires k.running.Some?
    ensures AllLater(k, Do(k, Serve(req)))
  {
    var k1 := Switch(k, k.running.value, req);
    SwitchLater(k, k.running.value, req);
    SameLater(k1, Do(k, Serve(req)));
    LaterStill(k, k1, Do(k, Serve(req)));
  }

  lemma StepLater<P>(k: Kernel<P>, step: Step<P>)
    requires Legal(k, step)
    ensures AllLater(k, Do(k, step))
  {
    if step.Reschedule? {
      RescheduleLater(k, step.byMain);
    } else if step.Serve? {
      ServeLater(k, step.req);
    } else {
      QuietStep(k, step);
      SameLater(k, Do(k, step));
    }
  }

  lemma {:induction false} RunLater<P>(k: Kernel<P>, steps: seq<Step<P>>)
    requires Runs(k, steps)
    ensures AllLater(k, After(k, steps))
    decreases steps
  {
    if steps == [] {
      SameLater(k, After(k, steps));
    } else {
      StepLater(k, steps[0]);
      RunLater(Do(k, steps[0]), steps[1..]);
      LaterStill(k, Do(k, steps[0]), After(k, steps));
    }
  }

  /**
   Over every run: who blocked first at a resource is woken first, instances are conserved
   and never negative, and there are none while somebody waits.
   */
  lemma SemaphoreLaw<P>(k: Kernel<P>, steps: seq<Step<P>>, name: string, i: nat)
    requires Core(k) && Runs(k, steps) && name in k.resources
    ensures name in After(k, steps).resources
    ensures var r, was := After(k, steps).resources[name], k.resources[name];
            && r.available >= 0 && (r.waiting != [] ==> r.available == 0)
            && r.available - was.available
               == (r.tally.released - was.tally.released) - (r.tally.grants - was.tally.grants)
            && was.tally.blocked <= r.tally.blocked && was.tally.woken <= r.tally.woken
            && (i < |r.tally.woken| ==> i < |r.tally.blocked| && r.tally.woken[i] == r.tally.blocked[i])
  {
    RunLater(k, steps);
    RunKeeps(k, steps);
    assert Balanced(k.resources[name]);
  }

  // ----- files over time

  ghost predicate AlwaysClosesOwn<P>(k: Kernel<P>, steps: seq<Step<P>>)
    requires Runs(k, steps)
    decreases steps
  {
    steps == [] || (ClosesOwn(k, steps[0]) && AlwaysClosesOwn(Do(k, steps[0]), steps[1..]))
  }

  ghost predicate AlwaysFilesOk<P>(k: Kernel<P>, steps: seq<Step<P>>)
    requires Runs(k, steps)
    decreases steps
  {
    FilesOk(k) && (steps == [] || AlwaysFilesOk(Do(k, steps[0]), steps[1..]))
  }

  /** At every moment of a run a file is open for one process at most exactly if nobody closes another's file. */
  lemma {:induction false} OneHolderIff<P>(k: Kernel<P>, steps: seq<Step<P>>)
    requires Core(k) && FilesOk(k) && Runs(k, steps)
    ensures AlwaysFilesOk(k, steps) <==> AlwaysClosesOwn(k, steps)
    decreases steps
  {
    if steps != [] {
      StepKeepsCore(k, steps[0]);
      StepFilesIff(k, steps[0]);
      if FilesOk(Do(k, steps[0])) {
        OneHolderIff(Do(k, steps[0]), steps[1..]);
      }
    }
  }

  lemma {:induction false} EndsFilesOk<P>(k: Kernel<P>, steps: seq<Step<P>>)
    requires Runs(k, steps) && AlwaysFilesOk(k, steps)
    ensures FilesOk(After(k, steps))
    decreases steps
  {
    if steps != [] {
      EndsFilesOk(Do(k, steps[0]), steps[1..]);
    }
  }

  /** So then two processes never hold a file, and the kernel has every file that is held. */
  lemma OneHolder<P>(k: Kernel<P>, steps: seq<Step<P>>, p: P, q: P, name: string)
    requires Core(k) && FilesOk(k) && Runs(k, steps) && AlwaysClosesOwn(k, steps)
    requires var k' := After(k, steps); p in k'.local && q in k'.local && Holds(k', p, name) && Holds(k', q, name)
    ensures p == q && name in After(k, steps).files
  {
    OneHolderIff(k, steps);
    EndsFilesOk(k, steps);
  }

  lemma SwitchKeepsEntry<P>(k: Kernel<P>, p: P, req: Request, name: string)
    requires name in k.files && k.files[name] != []
    ensures name in Switch(k, p, req).files
  {
    match req
    case FOpen(other, found) => assert name in OnOpen(k, p, other, found).files;
    case FClose(other) => assert name in OnClose(k, p, other).files;
    case Wait(other) => assert OnWait(k, p, other).files == k.files;
    case Signal(other) => assert OnSignal(k, p, other).files == k.files;
    case _ =>
  }

  lemma {:induction false} ReapKeepsFiles<P>(k: Kernel<P>, i: nat)
    ensures Reap(k, i).files == k.files
    decreases |k.active| - i
  {
    if i < |k.active| {
      ReapKeepsFiles(if StateOf(k, k.active[i]) == Exit then Finish(k, i) else k, i + 1);
    }
  }

  lemma ChosenKeeps<P>(k: Kernel<P>, c: Choice<P>)
    ensures Chosen(k, c).files == k.files && Chosen(k, c).resources == k.resources
  {
  }

  lemma ArriveQuiet<P>(k: Kernel<P>, p: P, now: real)
    ensures Do(k, Arrive(p, now)).files == k.files && Do(k, Arrive(p, now)).resources == k.resources
  {
  }

  lemma FsQuiet<P>(k: Kernel<P>, ok: bool)
    ensures k.serving.Some? ==> Do(k, FsReply(ok)).files == k.files && Do(k, FsReply(ok)).resources == k.resources
    ensures k.transfers != [] ==> Do(k, FsTake).files == k.files && Do(k, FsTake).resources == k.resources
  {
  }

  /** Only serving and the long-term scheduler change files and resources. */
  lemma QuietStep<P>(k: Kernel<P>, step: Step<P>)
    requires Legal(k, step) && !step.Serve? && !step.Reschedule?
    ensures Do(k, step).files == k.files && Do(k, step).resources == k.resources
  {
    match step
    case Dispatch(now) => ChosenKeeps(k, Choose(k, now));
    case Arrive(p, now) => ArriveQuiet(k, p, now);
    case IoDone(p) =>
    case FsTake => FsQuiet(k, true);
    case FsReply(ok) => FsQuiet(k, ok);
  }

  lemma LongTermKeepsFiles<P>(k: Kernel<P>, byMain: bool)
    ensures Do(k, Reschedule(byMain)).files == k.files
  {
    ReapKeepsFiles(k, 0);
  }

  /** Whatever step is taken, the kernel does not forget a file that somebody waits for. */
  lemma EntryKept<P>(k: Kernel<P>, step: Step<P>, name: string)
    requires Legal(k, step) && name in k.files && k.files[name] != []
    ensures name in Do(k, step).files
  {
    if step.Reschedule? {
      LongTermKeepsFiles(k, step.byMain);
    } else if step.Serve? {
      SwitchKeepsEntry(k, k.running.value, step.req, name);
    } else {
      QuietStep(k, step);
    }
  }

  /** What closing does to one file, whoever closes it. */
  lemma CloseParts<P>(k: Kernel<P>, p: P, name: string)
    requires Entered(k, p) && p in k.state && FilesOk(k) && Holds(k, p, name)
    requires name in k.files && k.files[name] != [] ==> k.files[name][0] in k.local && k.files[name][0] != p
    ensures var k' := Requeue(Switch(k, p, FClose(name)), p);
            && name in k.files && (name !in k'.files <==> k.files[name] == [])
            && (k.files[name] != [] ==> var next := k.files[name][0];
                Holds(k', next, name) && StateOf(k', next) == Ready && k'.files[name] == k.files[name][1..])
    ensures forall q :: q in k.local && Holds(Requeue(Switch(k, p, FClose(name)), p), q, name) ==>
            k.files[name] != [] && q == k.files[name][0]
  {
    assert p in k.local;
    forall q | q in k.local && Holds(Requeue(Switch(k, p, FClose(name)), p), q, name)
      ensures k.files[name] != [] && q == k.files[name][0] {
      CloseHolders(k, p, name, q, name);
    }
  }

  /** Closing a file that is open hands it to who waited first; the kernel forgets the file only when nobody waits. */
  lemma CloseHandsOver<P>(k: Kernel<P>, name: string)
    requires Core(k) && FilesOk(k) && k.running.Some? && Holds(k, k.running.value, name)
    ensures name in k.files
    ensures var p, k' := k.running.value, Do(k, Serve(FClose(name)));
            && (name !in k'.files <==> k.files[name] == [])
            && (k.files[name] != [] ==> var next := k.files[name][0];
                next != p && Holds(k', next, name) && StateOf(k', next) == Ready &&
                  k'.files[name] == k.files[name][1..])
            && forall q :: q in k.local && Holds(k', q, name) ==> k.files[name] != [] && q == k.files[name][0]
  {
    var p := k.running.value;
    MemberIsKnown(k, p);
    CloseHead(k, p, name);
    CloseParts(k, p, name);
  }

  lemma CloseHead<P>(k: Kernel<P>, p: P, name: string)
    requires Core(k) && k.running == Some(p)
    ensures name in k.files && k.files[name] != [] ==> k.files[name][0] in k.local && k.files[name][0] != p
  {
    if name in k.files && k.files[name] != [] {
      HeadIsPresent(k, OnFile(name));
    }
  }
}
