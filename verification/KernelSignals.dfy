/** Signals and owners: which signal finds neither a waiter nor an owner, and so reads through a null pointer. */
module KernelSignals {
  import opened Options
  import opened Scheduling
  import opened WaitQueues
  import opened KernelState
  import opened KernelInvariant
  import opened KernelSteps
  import opened KernelReaping
  import opened KernelRuns

  /** A signal of this resource would report the number of an owner there is not. */
  predicate ReadsNull<P(==)>(k: Kernel<P>, name: string) {
    name in k.resources && k.resources[name].waiting == [] && k.resources[name].owner.None?
  }

  predicate IsNullSignal<P(==)>(k: Kernel<P>, step: Step<P>, name: string) {
    step == Serve(Signal(name)) && ReadsNull(k, name)
  }

  // ----- one step, one resource

  /** A step leaves a resource as it is, gives an instance, queues a process, or signals. */
  ghost predicate OneEvent<P>(r: Resource<P>, r': Resource<P>) {
    || r' == r
    || (r.available > 0 && r'.owner.Some? && r' == Grant(r, r'.owner.value))
    || (r.available <= 0 && r'.waiting != [] && r' == Enqueue(r, r'.waiting[|r'.waiting| - 1]))
    || r' == SignalOne(r)
  }

  lemma WaitEvent<P>(k: Kernel<P>, p: P, name: string)
    requires name in k.resources
    ensures OneEvent(k.resources[name], OnWait(k, p, name).resources[name])
    ensures OnWait(k, p, name).resources[name].tally.released == k.resources[name].tally.released
  {
  }

  lemma SwitchEvent<P>(k: Kernel<P>, p: P, req: Request, name: string)
    requires name in k.resources
    ensures name in Switch(k, p, req).resources && OneEvent(k.resources[name], Switch(k, p, req).resources[name])
    ensures Switch(k, p, req).resources[name].tally.released > k.resources[name].tally.released ==> req == Signal(name)
  {
    if req == Wait(name) {
      WaitEvent(k, p, name);
    } else if req == Signal(name) {
      assert OnSignal(k, p, name).resources[name] == SignalOne(k.resources[name]);
    } else if req.Wait? {
      assert OnWait(k, p, req.name).resources[name] == k.resources[name];
    } else if req.Signal? {
      assert OnSignal(k, p, req.name).resources[name] == k.resources[name];
    } else {
      PlainResources(k, p, req);
    }
  }

  lemma ReapEvent<P>(k: Kernel<P>, name: string)
    requires Core(k) && name in k.resources
    ensures name in Reap(k, 0).resources
    ensures var r, r' := k.resources[name], Reap(k, 0).resources[name]; r' == r || (r.owner.Some? && r' == SignalOne(r))
  {
    if NoneExited(k, 0) {
      ReapNone(k, 0);
    } else {
      var e := FirstExited(k);
      FinishKeeps(k, e);
      ReapOne(k, 0, e);
      ExitReleases(k, e, name);
    }
  }

  /**
   Every step is one event at each resource; only a signal that reads through null releases an
   instance without owner.
   */
  ghost predicate Event<P>(k: Kernel<P>, step: Step<P>, k': Kernel<P>, name: string)
    requires name in k.resources && name in k'.resources
  {
    var r, r' := k.resources[name], k'.resources[name];
    OneEvent(r, r') && (r'.tally.released > r.tally.released && r.owner.None? ==> IsNullSignal(k, step, name))
  }

  lemma LongTermEvent<P>(k: Kernel<P>, byMain: bool, name: string)
    requires Core(k) && name in k.resources
    ensures name in Do(k, Reschedule(byMain)).resources && Event(k, Reschedule(byMain), Do(k, Reschedule(byMain)), name)
  {
    ReapEvent(k, name);
    assert Do(k, Reschedule(byMain)).resources == Reap(k, 0).resources;
  }

  lemma ServeEvent<P>(k: Kernel<P>, req: Request, name: string)
    requires k.running.Some? && name in k.resources
    ensures name in Do(k, Serve(req)).resources && Event(k, Serve(req), Do(k, Serve(req)), name)
  {
    SwitchEvent(k, k.running.value, req, name);
    assert Do(k, Serve(req)).resources == Switch(k, k.running.value, req).resources;
  }

  lemma StepEvent<P>(k: Kernel<P>, step: Step<P>, name: string)
    requires Core(k) && Legal(k, step) && name in k.resources
    ensures name in Do(k, step).resources && Event(k, step, Do(k, step), name)
  {
    if step.Reschedule? {
      LongTermEvent(k, step.byMain, name);
    } else if step.Serve? {
      ServeEvent(k, step.req, name);
    } else {
      QuietStep(k, step);
    }
  }

  // ----- who owns, over a run

  function TallyAt<P>(k: Kernel<P>, name: string): Tally<P> {
    if name in k.resources then k.resources[name].tally else Tally(0, 0, 0, [], [])
  }

  /** The count of gifts after a step, from the count before: a release with nobody waiting starts it anew. */
  function GivenNow<P>(t: Tally<P>, t': Tally<P>, given: int): int {
    if t'.released > t.released then 0 else given + (t'.grants - t.grants) + (|t'.woken| - |t.woken|)
  }

  /** How often the resource was given, at once or to a waiter, since an instance last came back with nobody waiting. */
  function GivenSince<P>(k: Kernel<P>, steps: seq<Step<P>>, name: string, given: int): int
    requires Runs(k, steps)
    decreases steps
  {
    if steps == [] then given
    else
      var k' := Do(k, steps[0]);
      GivenSince(k', steps[1..], name, GivenNow(TallyAt(k, name), TallyAt(k', name), given))
  }

  lemma EventOwner<P>(r: Resource<P>, r': Resource<P>, given: int)
    requires OneEvent(r, r') && given >= 0 && (r.owner.Some? <==> given > 0)
    ensures var now := GivenNow(r.tally, r'.tally, given); now >= 0 && (r'.owner.Some? <==> now > 0)
  {
  }

  lemma StepOwner<P>(k: Kernel<P>, step: Step<P>, name: string, given: int)
    requires Core(k) && Legal(k, step) && name in k.resources
    requires given >= 0 && (k.resources[name].owner.Some? <==> given > 0)
    ensures Core(Do(k, step)) && name in Do(k, step).resources
    ensures var now := GivenNow(TallyAt(k, name), TallyAt(Do(k, step), name), given);
            now >= 0 && (Do(k, step).resources[name].owner.Some? <==> now > 0)
  {
    StepKeepsCore(k, step);
    StepEvent(k, step, name);
    EventOwner(k.resources[name], Do(k, step).resources[name], given);
  }

  lemma {:induction false} OwnedIff<P>(k: Kernel<P>, steps: seq<Step<P>>, name: string, given: int)
    requires Core(k) && Runs(k, steps) && name in k.resources
    requires given >= 0 && (k.resources[name].owner.Some? <==> given > 0)
    ensures name in After(k, steps).resources
    ensures After(k, steps).resources[name].owner.Some? <==> GivenSince(k, steps, name, given) > 0
    decreases steps
  {
    if steps != [] {
      var k' := Do(k, steps[0]);
      StepOwner(k, steps[0], name, given);
      OwnedIff(k', steps[1..], name, GivenNow(TallyAt(k, name), TallyAt(k', name), given));
    }
  }

  /**
   Over every run from the start, whatever the number of instances: a signal reads through
   null exactly when nobody waits and nobody was given the resource since an instance last
   came back with nobody waiting, or at all.
   */
  lemma SignalReadsNullIff<P>(config: Config, instances: map<string, nat>, steps: seq<Step<P>>, name: string)
    requires config.max >= 0 && (forall n :: n in instances ==> n in config.names) && name in instances
    requires Runs(Start0(config, instances), steps)
    ensures name in After(Start0(config, instances), steps).resources
    ensures ReadsNull(After(Start0(config, instances), steps), name)
       <==> && After(Start0(config, instances), steps).resources[name].waiting == []
            && GivenSince(Start0(config, instances), steps, name, 0) <= 0
  {
    StartInv<P>(config, instances);
    OwnedIff(Start0(config, instances), steps, name, 0);
  }

  // ----- resources with one instance

  /** No signal of the run read through null. */
  ghost predicate NoNullSignal<P>(k: Kernel<P>, steps: seq<Step<P>>, name: string)
    requires Runs(k, steps)
    decreases steps
  {
    steps == [] || (!IsNullSignal(k, steps[0], name) && NoNullSignal(Do(k, steps[0]), steps[1..], name))
  }

  /** The one instance is there or somebody owns it. */
  ghost predicate Sole<P>(r: Resource<P>) {
    r.available == if r.owner.Some? then 0 else 1
  }

  lemma EventKeepsSole<P>(r: Resource<P>, r': Resource<P>)
    requires Balanced(r) && Sole(r) && OneEvent(r, r')
    requires r'.tally.released > r.tally.released ==> r.owner.Some?
    ensures Sole(r')
  {
  }

  lemma {:induction false} RunKeepsSole<P>(k: Kernel<P>, steps: seq<Step<P>>, name: string)
    requires Core(k) && Runs(k, steps) && NoNullSignal(k, steps, name) && name in k.resources && Sole(k.resources[name])
    ensures Core(After(k, steps)) && name in After(k, steps).resources && Sole(After(k, steps).resources[name])
    decreases steps
  {
    if steps != [] {
      StepKeepsCore(k, steps[0]);
      StepEvent(k, steps[0], name);
      assert Balanced(k.resources[name]);
      EventKeepsSole(k.resources[name], Do(k, steps[0]).resources[name]);
      RunKeepsSole(Do(k, steps[0]), steps[1..], name);
    }
  }

  /**
   With one instance the first signal that reads through null is one while the instance is
   available; all before are safe.
   */
  lemma SoleSignalIff<P>(config: Config, instances: map<string, nat>, steps: seq<Step<P>>, name: string)
    requires config.max >= 0 && (forall n :: n in instances ==> n in config.names)
    requires name in instances && instances[name] == 1
    requires Runs(Start0(config, instances), steps) && NoNullSignal(Start0(config, instances), steps, name)
    ensures var k := After(Start0(config, instances), steps);
            name in k.resources && (ReadsNull(k, name) <==> k.resources[name].available > 0)
  {
    StartInv<P>(config, instances);
    RunKeepsSole(Start0(config, instances), steps, name);
    assert Balanced(After(Start0(config, instances), steps).resources[name]);
  }
}
