/** Orders and estimates over whole runs of the kernel. */
module KernelHistory {
  import opened Options
  import opened Scheduling
  import opened WaitQueues
  import opened KernelState
  import opened KernelInvariant
  import opened KernelSteps
  import opened KernelReaping
  import opened KernelRuns
  import opened KernelChoices

  // ----- steps that are not about it

  lemma DispatchQuiet<P>(k: Kernel<P>, c: Choice<P>)
    ensures Chosen(k, c).transfers == k.transfers && Chosen(k, c).entrants == k.entrants
    ensures Chosen(k, c).times == c.times
  {
    if c.pcb.Some? {
      StartQuiet(k, c.pcb.value, c.rest);
    }
  }

  lemma StartQuiet<P>(k: Kernel<P>, p: P, rest: seq<P>)
    ensures var k' := Start(k, p, rest); k'.transfers == k.transfers && k'.entrants == k.entrants
  {
  }

  ghost predicate Quiet<P>(k: Kernel<P>, k': Kernel<P>) {
    k'.transfers == k.transfers && k'.entrants == k.entrants && k'.times == k.times
  }

  lemma IoQuiet<P>(k: Kernel<P>, p: P)
    ensures Quiet(k, Do(k, IoDone(p)))
  {
  }

  lemma ReplyQuiet<P>(k: Kernel<P>, ok: bool)
    requires k.serving.Some?
    ensures Quiet(k, Do(k, FsReply(ok)))
  {
  }

  lemma ArriveQuiet<P>(k: Kernel<P>, p: P, now: real)
    ensures var k' := Do(k, Arrive(p, now));
            && k'.transfers == k.transfers && k'.entrants == k.entrants + [p]
            && k'.times == k.times[p := Times(now, k.config.defaultBurst)]
  {
  }

  lemma TakeQuiet<P>(k: Kernel<P>)
    requires k.transfers != []
    ensures var k' := Do(k, FsTake);
            && k'.serving == Some(k.transfers[0]) && k'.transfers == k.transfers[1..]
            && k'.entrants == k.entrants && k'.times == k.times
  {
  }

  // ----- transfers are served in the order they were asked for

  function AskedBy<P(==)>(k: Kernel<P>, step: Step<P>): seq<P> {
    if step.Serve? && step.req.FTransfer? && k.running.Some? && Holds(k, k.running.value, step.req.name) then
      [k.running.value]
    else []
  }

  /** Whom the filesystem thread takes up. */
  ghost function TakenBy<P>(k: Kernel<P>, step: Step<P>): seq<P>
    requires Legal(k, step)
  {
    if step.FsTake? && Do(k, step).serving.Some? then [Do(k, step).serving.value] else []
  }

  ghost function AskedOver<P>(k: Kernel<P>, steps: seq<Step<P>>): seq<P>
    requires Runs(k, steps)
    decreases steps
  {
    if steps == [] then [] else AskedBy(k, steps[0]) + AskedOver(Do(k, steps[0]), steps[1..])
  }

  ghost function TakenOver<P>(k: Kernel<P>, steps: seq<Step<P>>): seq<P>
    requires Runs(k, steps)
    decreases steps
  {
    if steps == [] then [] else TakenBy(k, steps[0]) + TakenOver(Do(k, steps[0]), steps[1..])
  }

  lemma StepTransfers<P>(k: Kernel<P>, step: Step<P>)
    requires Core(k) && Legal(k, step)
    ensures k.transfers + AskedBy(k, step) == TakenBy(k, step) + Do(k, step).transfers
  {
    match step
    case Arrive(p, now) => ArriveQuiet(k, p, now);
    case Reschedule(byMain) => RescheduleAdmits(k, byMain);
    case Dispatch(now) => DispatchQuiet(k, Choose(k, now));
    case Serve(req) => ServeHelperQueues(k, req);
    case FsTake => TakeQuiet(k);
    case IoDone(p) => IoQuiet(k, p);
    case FsReply(ok) => ReplyQuiet(k, ok);
  }

  lemma Chain<P>(a: seq<P>, b: seq<P>, c: seq<P>, d: seq<P>, e: seq<P>, f: seq<P>, g: seq<P>)
    requires a + b == c + d && d + e == f + g
    ensures a + (b + e) == (c + f) + g
  {
    assert a + (b + e) == (a + b) + e == (c + d) + e == c + (d + e) == c + (f + g) == (c + f) + g;
  }

  /** Over every run: those waiting and those who asked since are those taken up since and those waiting, in order. */
  lemma {:induction false} TransfersInOrder<P>(k: Kernel<P>, steps: seq<Step<P>>)
    requires Core(k) && Runs(k, steps)
    ensures k.transfers + AskedOver(k, steps) == TakenOver(k, steps) + After(k, steps).transfers
    decreases steps
  {
    if steps != [] {
      var k' := Do(k, steps[0]);
      StepKeepsCore(k, steps[0]);
      StepTransfers(k, steps[0]);
      TransfersInOrder(k', steps[1..]);
      Chain(k.transfers, AskedBy(k, steps[0]), TakenBy(k, steps[0]), k'.transfers, AskedOver(k', steps[1..]),
            TakenOver(k', steps[1..]), After(k, steps).transfers);
    }
  }

  // ----- processes are admitted in the order they arrived

  function ArrivedBy<P>(step: Step<P>): seq<P> {
    if step.Arrive? then [step.p] else []
  }

  /** Whom the long-term scheduler puts at the end of the active queue. */
  ghost function AdmittedBy<P>(k: Kernel<P>, step: Step<P>): seq<P>
    requires Legal(k, step)
  {
    if step.Reschedule? && Do(k, step).entrants != k.entrants && Do(k, step).active != [] then
      [Do(k, step).active[|Do(k, step).active| - 1]]
    else []
  }

  ghost function ArrivedOver<P>(steps: seq<Step<P>>): seq<P> {
    if steps == [] then [] else ArrivedBy(steps[0]) + ArrivedOver(steps[1..])
  }

  ghost function AdmittedOver<P>(k: Kernel<P>, steps: seq<Step<P>>): seq<P>
    requires Runs(k, steps)
    decreases steps
  {
    if steps == [] then [] else AdmittedBy(k, steps[0]) + AdmittedOver(Do(k, steps[0]), steps[1..])
  }

  lemma StepEntrants<P>(k: Kernel<P>, step: Step<P>)
    requires Core(k) && Legal(k, step)
    ensures k.entrants + ArrivedBy(step) == AdmittedBy(k, step) + Do(k, step).entrants
  {
    match step
    case Arrive(p, now) => ArriveQuiet(k, p, now);
    case Reschedule(byMain) =>
      RescheduleAdmits(k, byMain);
      FirstAndRest(k.entrants);
    case Dispatch(now) => DispatchQuiet(k, Choose(k, now));
    case Serve(req) => ServeHelperQueues(k, req);
    case FsTake => TakeQuiet(k);
    case IoDone(p) => IoQuiet(k, p);
    case FsReply(ok) => ReplyQuiet(k, ok);
  }

  lemma FirstAndRest<P>(s: seq<P>)
    ensures s != [] ==> [s[0]] + s[1..] == s && |s[1..]| < |s|
  {
  }

  lemma {:induction false} AdmittedInOrder<P>(k: Kernel<P>, steps: seq<Step<P>>)
    requires Core(k) && Runs(k, steps)
    ensures k.entrants + ArrivedOver(steps) == AdmittedOver(k, steps) + After(k, steps).entrants
    decreases steps
  {
    if steps != [] {
      var k' := Do(k, steps[0]);
      StepKeepsCore(k, steps[0]);
      StepEntrants(k, steps[0]);
      AdmittedInOrder(k', steps[1..]);
      Chain(k.entrants, ArrivedBy(steps[0]), AdmittedBy(k, steps[0]), k'.entrants, ArrivedOver(steps[1..]),
            AdmittedOver(k', steps[1..]), After(k, steps).entrants);
    }
  }

  // ----- estimates

  /** The new estimate is the configured one and the last burst, weighed by alfa, and so between them. */
  lemma EstimateIs(config: Config, lastBurst: real)
    ensures NextBurst(config, lastBurst) == config.alfa * config.defaultBurst + (1.0 - config.alfa) * lastBurst
    ensures 0.0 <= config.alfa <= 1.0 && lastBurst <= config.defaultBurst ==>
              lastBurst <= NextBurst(config, lastBurst) <= config.defaultBurst
    ensures 0.0 <= config.alfa <= 1.0 && lastBurst >= config.defaultBurst ==>
              lastBurst >= NextBurst(config, lastBurst) >= config.defaultBurst
  {
    var a, d, b := config.alfa, config.defaultBurst, lastBurst;
    assert a * d + (1.0 - a) * b == b + a * (d - b) == d + (1.0 - a) * (b - d);
    if 0.0 <= a <= 1.0 && b <= d {
      NotNegative(a, d - b);
      NotNegative(1.0 - a, d - b);
      assert (1.0 - a) * (b - d) == -((1.0 - a) * (d - b));
    } else if 0.0 <= a <= 1.0 {
      NotNegative(a, b - d);
      NotNegative(1.0 - a, b - d);
      assert a * (d - b) == -(a * (b - d));
    }
  }

  lemma NotNegative(x: real, y: real)
    requires x >= 0.0 && y >= 0.0
    ensures x * y >= 0.0 && (x > 0.0 && y > 0.0 ==> x * y > 0.0)
  {
  }

  lemma YieldTimes<P>(k: Kernel<P>, lastBurst: real)
    requires Core(k) && k.running.Some?
    ensures var p := k.running.value;
            && p in k.times
            && Do(k, Serve(Yield(lastBurst))).times
            == if k.config.hrrn then k.times[p := Times(k.times[p].lastReady, NextBurst(k.config, lastBurst))]
               else k.times
  {
    RunningEnters(k);
  }

  lemma ServeTimes<P>(k: Kernel<P>, req: Request)
    requires k.running.Some? && !req.Yield?
    ensures Do(k, Serve(req)).times == k.times
  {
    SwitchTimes(k, k.running.value, req);
  }

  lemma SwitchTimes<P>(k: Kernel<P>, p: P, req: Request)
    requires !req.Yield?
    ensures Switch(k, p, req).times == k.times
  {
    match req
    case Wait(name) => WaitTimes(k, p, name);
    case Signal(name) => SignalTimes(k, p, name);
    case FClose(name) => CloseTimes(k, p, name);
    case _ =>
  }

  lemma WaitTimes<P>(k: Kernel<P>, p: P, name: string)
    ensures OnWait(k, p, name).times == k.times
  {
  }

  lemma SignalTimes<P>(k: Kernel<P>, p: P, name: string)
    ensures OnSignal(k, p, name).times == k.times
  {
  }

  lemma CloseTimes<P>(k: Kernel<P>, p: P, name: string)
    ensures OnClose(k, p, name).times == k.times
  {
  }

  /** An arrival, a YIELD under HRRN and a scan change the times of one process each, and nothing else does. */
  function TimesAfter<P(==)>(k: Kernel<P>, step: Step<P>, first: nat): map<P, Times>
    requires step.Dispatch? && Scans(k) ==> first < |k.active| && k.active[first] in k.times
  {
    match step
    case Arrive(p, now) => k.times[p := Times(now, k.config.defaultBurst)]
    case Dispatch(now) =>
      if Scans(k) then k.times[k.active[first] := Times(now, k.times[k.active[first]].burst)] else k.times
    case Serve(Yield(lastBurst)) =>
      if k.config.hrrn && k.running.Some? && k.running.value in k.times then
        var p := k.running.value;
        k.times[p := Times(k.times[p].lastReady, NextBurst(k.config, lastBurst))]
      else k.times
    case _ => k.times
  }

  /** What a step makes of the times; a scan sets that of the process first in turn. */
  lemma StepTimes<P>(k: Kernel<P>, step: Step<P>, first: nat)
    requires Core(k) && Legal(k, step)
    requires step.Dispatch? && Scans(k) ==> EstimatesPositive(k) && FirstInTurn(k, step.now, first)
    ensures Do(k, step).times == TimesAfter(k, step, first)
  {
    match step
    case Arrive(p, now) => ArriveQuiet(k, p, now);
    case Reschedule(byMain) => RescheduleTimes(k, byMain);
    case Dispatch(now) => DispatchTimes(k, now, first);
    case Serve(req) => if req.Yield? { YieldTimes(k, req.lastBurst); } else { ServeTimes(k, req); }
    case FsTake => TakeQuiet(k);
    case IoDone(p) => IoQuiet(k, p);
    case FsReply(ok) => ReplyQuiet(k, ok);
  }

  lemma RescheduleTimes<P>(k: Kernel<P>, byMain: bool)
    requires Core(k)
    ensures Do(k, Reschedule(byMain)).times == k.times
  {
    ReapStays(k);
    assert Do(k, Reschedule(byMain)).times == Reap(k, 0).times;
  }

  lemma DispatchTimes<P>(k: Kernel<P>, now: real, i: nat)
    requires Core(k) && Legal(k, Dispatch(now))
    requires Scans(k) ==> EstimatesPositive(k) && FirstInTurn(k, now, i)
    ensures Do(k, Dispatch(now)).times
         == if Scans(k) then k.times[k.active[i] := Times(now, k.times[k.active[i]].burst)] else k.times
  {
    if Scans(k) {
      HrrnRuns(k, now, i);
    } else {
      DispatchQuiet(k, Choose(k, now));
    }
  }

  // ----- what HRRN needs holds

  /** Estimates start positive and are weighed by a positive alfa. */
  predicate Weighed(config: Config) {
    config.defaultBurst > 0.0 && 0.0 < config.alfa <= 1.0
  }

  predicate NoNegativeBurst<P>(step: Step<P>) {
    step.Serve? && step.req.Yield? ==> step.req.lastBurst >= 0.0
  }

  ghost predicate Positive<P>(times: map<P, Times>) {
    forall p :: p in times ==> times[p].burst > 0.0
  }

  ghost predicate AllPositive<P>(k: Kernel<P>) {
    Positive(k.times)
  }

  lemma StepConfig<P>(k: Kernel<P>, step: Step<P>)
    requires Core(k) && Legal(k, step)
    ensures Do(k, step).config == k.config
  {
    match step
    case Arrive(p, now) => ArriveConfig(k, p, now);
    case Reschedule(byMain) => RescheduleConfig(k, byMain);
    case Dispatch(now) => ChosenConfig(k, Choose(k, now));
    case Serve(req) => ServeConfig(k, req);
    case IoDone(p) => IoConfig(k, p);
    case FsTake => TakeConfig(k);
    case FsReply(ok) => ReplyConfig(k, ok);
  }

  lemma ArriveConfig<P>(k: Kernel<P>, p: P, now: real)
    ensures Do(k, Arrive(p, now)).config == k.config
  {
  }

  lemma RescheduleConfig<P>(k: Kernel<P>, byMain: bool)
    requires Core(k)
    ensures Do(k, Reschedule(byMain)).config == k.config
  {
    ReapStays(k);
    assert Do(k, Reschedule(byMain)).config == Reap(k, 0).config;
  }

  lemma ChosenConfig<P>(k: Kernel<P>, c: Choice<P>)
    ensures Chosen(k, c).config == k.config
  {
  }

  lemma ServeConfig<P>(k: Kernel<P>, req: Request)
    requires Core(k) && k.running.Some?
    ensures Do(k, Serve(req)).config == k.config
  {
    SwitchIsSwitched(k, k.running.value, req);
    assert Do(k, Serve(req)).config == Switch(k, k.running.value, req).config;
  }

  lemma IoConfig<P>(k: Kernel<P>, p: P)
    ensures Do(k, IoDone(p)).config == k.config
  {
  }

  lemma TakeConfig<P>(k: Kernel<P>)
    requires k.transfers != []
    ensures Do(k, FsTake).config == k.config
  {
  }

  lemma ReplyConfig<P>(k: Kernel<P>, ok: bool)
    requires k.serving.Some?
    ensures Do(k, FsReply(ok)).config == k.config
  {
  }

  lemma StepPositive<P>(k: Kernel<P>, step: Step<P>)
    requires Core(k) && Legal(k, step) && AllPositive(k) && Weighed(k.config) && NoNegativeBurst(step)
    ensures AllPositive(Do(k, step)) && Do(k, step).config == k.config
  {
    StepConfig(k, step);
    var first := 0;
    if step.Dispatch? && Scans(k) {
      first := SomebodyIsFirst(k, step.now);
    }
    StepTimes(k, step, first);
    TimesPositive(k, step, first);
  }

  lemma TimesPositive<P>(k: Kernel<P>, step: Step<P>, first: nat)
    requires step.Dispatch? && Scans(k) ==> first < |k.active| && k.active[first] in k.times
    requires AllPositive(k) && Weighed(k.config) && NoNegativeBurst(step)
    ensures Positive(TimesAfter(k, step, first))
  {
    if step.Serve? && step.req.Yield? {
      EstimatePositive(k.config, step.req.lastBurst);
    }
  }

  lemma EstimatePositive(config: Config, lastBurst: real)
    requires Weighed(config) && lastBurst >= 0.0
    ensures NextBurst(config, lastBurst) > 0.0
  {
    NotNegative(config.alfa, config.defaultBurst);
    NotNegative(1.0 - config.alfa, lastBurst);
  }

  ghost predicate NoNegativeBursts<P>(steps: seq<Step<P>>) {
    forall i :: 0 <= i < |steps| ==> NoNegativeBurst(steps[i])
  }

  /** Estimates stay positive over every run. */
  lemma {:induction false} RunPositive<P>(k: Kernel<P>, steps: seq<Step<P>>)
    requires Core(k) && Runs(k, steps) && AllPositive(k) && Weighed(k.config) && NoNegativeBursts(steps)
    ensures Core(After(k, steps)) && AllPositive(After(k, steps))
    decreases steps
  {
    if steps != [] {
      StepKeepsCore(k, steps[0]);
      StepPositive(k, steps[0]);
      assert NoNegativeBurst(steps[0]);
      forall i | 0 <= i < |steps[1..]| ensures NoNegativeBurst(steps[1..][i]) {
        assert steps[1..][i] == steps[i + 1];
      }
      RunPositive(Do(k, steps[0]), steps[1..]);
    }
  }

  /**
   So the main loop can always dispatch: over every run with positive estimates to start with, an HRRN
   scan divides by no zero and meets a positive ratio, if the clock is not behind.
   */
  lemma CanDispatch<P>(k: Kernel<P>, steps: seq<Step<P>>, now: real)
    requires Core(k) && Runs(k, steps) && AllPositive(k) && Weighed(k.config) && NoNegativeBursts(steps)
    requires var k' := After(k, steps); !k'.owing && k'.running.None?
    requires var k' := After(k, steps); forall p :: p in k'.times ==> k'.times[p].lastReady <= now
    ensures Legal(After(k, steps), Dispatch(now))
  {
    RunPositive(k, steps);
    var k' := After(k, steps);
    if Scans(k') {
      ActiveAreTimed(k');
      RatioIsPositive(k', now, k'.active[0]);
    }
  }

  lemma ActiveAreTimed<P>(k: Kernel<P>)
    requires Core(k) && AllPositive(k)
    ensures Timed(k)
  {
    forall i | 0 <= i < |k.active| ensures k.active[i] in k.times && k.times[k.active[i]].burst != 0.0 {
      MemberIsKnown(k, k.active[i]);
    }
  }

  lemma RatioIsPositive<P>(k: Kernel<P>, now: real, p: P)
    requires Timed(k) && p in k.active && k.times[p].burst > 0.0 && k.times[p].lastReady <= now
    ensures Ratios(k, now)[p] > 0.0
  {
    var t := k.times[p];
    CrossIff(0.0, 1.0, now - t.lastReady + t.burst, t.burst);
  }
}
