/**
 Files over whole runs of the kernel: those that stay open with nobody to close them, and those
 whose position was never set.
 */
module KernelFiles {
  import opened Options
  import opened Scheduling
  import opened WaitQueues
  import opened KernelState
  import opened KernelInvariant
  import opened KernelSteps
  import opened KernelReaping
  import opened KernelRuns

  // ----- files that nobody has open

  /** The kernel has the file, and no process does. */
  ghost predicate Orphan<P>(k: Kernel<P>, name: string) {
    name in k.files && forall p :: p in k.local ==> !Holds(k, p, name)
  }

  predicate Leaving<P(==)>(k: Kernel<P>, p: P) {
    p in k.active && StateOf(k, p) == Exit
  }

  /** Each process that holds the file, if any, has just exited. */
  ghost predicate HoldersLeave<P>(k: Kernel<P>, name: string) {
    forall p :: p in k.local && Holds(k, p, name) ==> Leaving(k, p)
  }

  /** The file is open for the same processes as before, and the kernel has it if it had. */
  ghost predicate SameHolding<P>(k: Kernel<P>, k': Kernel<P>, name: string) {
    && (name in k'.files <==> name in k.files) && k.local.Keys <= k'.local.Keys
    && forall p :: p in k'.local ==> (Holds(k', p, name) <==> p in k.local && Holds(k, p, name))
  }

  lemma SameOrphan<P>(k: Kernel<P>, k': Kernel<P>, name: string)
    requires SameHolding(k, k', name)
    ensures Orphan(k', name) <==> Orphan(k, name)
  {
  }

  lemma OpenHolding<P>(k: Kernel<P>, p: P, other: string, found: bool, name: string)
    requires Entered(k, p)
    ensures var k' := OnOpen(k, p, other, found);
            if other == name && name !in k.files && found then name in k'.files && p in k'.local && Holds(k', p, name)
            else SameHolding(k, k', name)
  {
  }

  lemma SeekHolding<P>(k: Kernel<P>, p: P, other: string, position: string, name: string)
    requires Entered(k, p)
    ensures SameHolding(k, OnSeek(k, p, other, position), name)
  {
  }

  lemma CloseOtherHolding<P>(k: Kernel<P>, p: P, other: string, name: string)
    requires Entered(k, p) && other != name
    requires other in k.files && k.files[other] != [] ==> k.files[other][0] in k.local && k.files[other][0] != p
    ensures SameHolding(k, OnClose(k, p, other), name)
  {
  }

  /** Closing takes the file from the kernel, or gives it to the process that waited first. */
  lemma CloseHolding<P>(k: Kernel<P>, p: P, name: string)
    requires Entered(k, p)
    requires name in k.files && k.files[name] != [] ==> k.files[name][0] in k.local && k.files[name][0] != p
    ensures !Orphan(OnClose(k, p, name), name)
  {
    if name in k.files && k.files[name] != [] {
      CloseHolders(k, p, name, k.files[name][0], name);
    }
  }

  lemma SwitchOrphan<P>(k: Kernel<P>, p: P, req: Request, name: string)
    requires Entered(k, p)
    requires req.FClose? && req.name in k.files && k.files[req.name] != [] ==>
               k.files[req.name][0] in k.local && k.files[req.name][0] != p
    ensures Orphan(Switch(k, p, req), name) <==> Orphan(k, name) && req != FClose(name)
  {
    match req
    case FOpen(other, found) =>
      OpenHolding(k, p, other, found, name);
      if SameHolding(k, OnOpen(k, p, other, found), name) { SameOrphan(k, OnOpen(k, p, other, found), name); }
    case FClose(other) =>
      if other == name {
        CloseHolding(k, p, name);
      } else {
        CloseOtherHolding(k, p, other, name);
        SameOrphan(k, OnClose(k, p, other), name);
      }
    case FSeek(other, position) =>
      SeekHolding(k, p, other, position, name);
      SameOrphan(k, OnSeek(k, p, other, position), name);
    case _ =>
      PlainKeepsFiles(k, p, req);
      EqualFiles(k, Switch(k, p, req), name);
  }

  lemma WaitKeepsFiles<P>(k: Kernel<P>, p: P, name: string)
    ensures OnWait(k, p, name).files == k.files && OnWait(k, p, name).local == k.local
  {
  }

  lemma SignalKeepsFiles<P>(k: Kernel<P>, p: P, name: string)
    ensures OnSignal(k, p, name).files == k.files && OnSignal(k, p, name).local == k.local
  {
  }

  lemma PlainKeepsFiles<P>(k: Kernel<P>, p: P, req: Request)
    requires !req.FOpen? && !req.FClose? && !req.FSeek?
    ensures Switch(k, p, req).files == k.files && Switch(k, p, req).local == k.local
  {
    if req.Wait? {
      WaitKeepsFiles(k, p, req.name);
    } else if req.Signal? {
      SignalKeepsFiles(k, p, req.name);
    } else {
      NeitherKeepsFiles(k, p, req);
    }
  }

  lemma NeitherKeepsFiles<P>(k: Kernel<P>, p: P, req: Request)
    requires !req.FOpen? && !req.FClose? && !req.FSeek? && !req.Wait? && !req.Signal?
    ensures Switch(k, p, req).files == k.files && Switch(k, p, req).local == k.local
  {
  }

  lemma EqualFiles<P>(k: Kernel<P>, k': Kernel<P>, name: string)
    requires k'.files == k.files && k'.local == k.local
    ensures Orphan(k', name) <==> Orphan(k, name)
  {
    assert forall p :: Holds(k', p, name) <==> Holds(k, p, name);
  }

  lemma ServeOrphan<P>(k: Kernel<P>, req: Request, name: string)
    requires Core(k) && k.running.Some?
    ensures Orphan(Do(k, Serve(req)), name) <==> Orphan(k, name) && req != FClose(name)
  {
    var p := k.running.value;
    RunningEnters(k);
    if req.FClose? && req.name in k.files && k.files[req.name] != [] {
      HeadIsPresent(k, OnFile(req.name));
    }
    SwitchOrphan(k, p, req, name);
    EqualFiles(Switch(k, p, req), Do(k, Serve(req)), name);
  }

  // ----- the long-term scheduler

  /** Whom the long-term scheduler takes out, if anybody. */
  lemma ReapsOne<P>(k: Kernel<P>) returns (gone: Option<P>)
    requires Core(k)
    ensures gone.Some? ==> Leaving(k, gone.value) && gone.value in k.local
    ensures forall p :: Leaving(k, p) ==> gone == Some(p)
    ensures Reap(k, 0).local == if gone.Some? then k.local[gone.value := map[]] else k.local
  {
    if NoneExited(k, 0) {
      gone := None;
      ReapNone(k, 0);
    } else {
      var e := FirstExited(k);
      gone := Some(k.active[e]);
      FinishKeeps(k, e);
      ReapOne(k, 0, e);
      MemberIsKnown(k, k.active[e]);
    }
  }

  lemma AdmitKeepsFiles<P>(k: Kernel<P>, byMain: bool)
    ensures Do(k, Reschedule(byMain)).local == Reap(k, 0).local
    ensures Do(k, Reschedule(byMain)).files == Reap(k, 0).files
  {
  }

  lemma ReapClosesAll<P>(k: Kernel<P>, name: string)
    requires Core(k)
    ensures Reap(k, 0).files == k.files && Reap(k, 0).local.Keys == k.local.Keys
    ensures forall p :: p in k.local ==> (Holds(Reap(k, 0), p, name) <==> Holds(k, p, name) && !Leaving(k, p))
  {
    ReapKeepsFiles(k, 0);
    var gone := ReapsOne(k);
    ClosesAll(k, Reap(k, 0), gone, name);
  }

  lemma ClosesAll<P>(k: Kernel<P>, k': Kernel<P>, gone: Option<P>, name: string)
    requires gone.Some? ==> Leaving(k, gone.value) && gone.value in k.local
    requires forall p :: Leaving(k, p) ==> gone == Some(p)
    requires k'.local == if gone.Some? then k.local[gone.value := map[]] else k.local
    ensures k'.local.Keys == k.local.Keys
    ensures forall p :: p in k.local ==> (Holds(k', p, name) <==> Holds(k, p, name) && !Leaving(k, p))
  {
  }

  lemma RescheduleOrphan<P>(k: Kernel<P>, byMain: bool, name: string)
    requires Core(k)
    ensures Orphan(Do(k, Reschedule(byMain)), name) <==> name in k.files && HoldersLeave(k, name)
  {
    ReapClosesAll(k, name);
    AllClosedIff(k, Reap(k, 0), name);
    AdmitKeepsFiles(k, byMain);
    EqualFiles(Reap(k, 0), Do(k, Reschedule(byMain)), name);
  }

  lemma AllClosedIff<P>(k: Kernel<P>, k': Kernel<P>, name: string)
    requires k'.files == k.files && k'.local.Keys == k.local.Keys
    requires forall p :: p in k.local ==> (Holds(k', p, name) <==> Holds(k, p, name) && !Leaving(k, p))
    ensures Orphan(k', name) <==> name in k.files && HoldersLeave(k, name)
  {
  }

  // ----- the other steps

  lemma ArriveOrphan<P>(k: Kernel<P>, p: P, now: real, name: string)
    requires Core(k) && p !in k.state
    ensures Orphan(Do(k, Arrive(p, now)), name) <==> Orphan(k, name)
  {
    SameOrphan(k, Do(k, Arrive(p, now)), name);
  }

  lemma OtherOrphan<P>(k: Kernel<P>, step: Step<P>, name: string)
    requires Legal(k, step) && !step.Serve? && !step.Reschedule? && !step.Arrive?
    ensures Orphan(Do(k, step), name) <==> Orphan(k, name)
  {
    QuietStep(k, step);
    QuietLocal(k, step);
    EqualFiles(k, Do(k, step), name);
  }

  lemma QuietLocal<P>(k: Kernel<P>, step: Step<P>)
    requires Legal(k, step) && !step.Serve? && !step.Reschedule? && !step.Arrive?
    ensures Do(k, step).local == k.local
  {
    if step.Dispatch? {
      ChosenLocal(k, Choose(k, step.now));
    } else {
      WakeLocal(k, step);
    }
  }

  lemma ChosenLocal<P>(k: Kernel<P>, c: Choice<P>)
    ensures Chosen(k, c).local == k.local
  {
  }

  lemma IoLocal<P>(k: Kernel<P>, p: P)
    ensures Do(k, IoDone(p)).local == k.local
  {
  }

  lemma TakeLocal<P>(k: Kernel<P>)
    requires k.transfers != []
    ensures Do(k, FsTake).local == k.local
  {
  }

  lemma ReplyLocal<P>(k: Kernel<P>, ok: bool)
    requires k.serving.Some?
    ensures Do(k, FsReply(ok)).local == k.local
  {
  }

  lemma WakeLocal<P>(k: Kernel<P>, step: Step<P>)
    requires Legal(k, step) && (step.IoDone? || step.FsTake? || step.FsReply?)
    ensures Do(k, step).local == k.local
  {
    match step
    case IoDone(p) => IoLocal(k, p);
    case FsTake => TakeLocal(k);
    case FsReply(ok) => ReplyLocal(k, ok);
    case _ => assert false;
  }

  /**
   A file comes to be open with nobody to close it exactly when the long-term scheduler takes out
   the process that has it, and stays so until somebody who does not have it closes it.
   */
  lemma OrphanIff<P>(k: Kernel<P>, step: Step<P>, name: string)
    requires Core(k) && Legal(k, step)
    ensures Orphan(Do(k, step), name)
       <==> if Orphan(k, name) then step != Serve(FClose(name))
            else step.Reschedule? && name in k.files && HoldersLeave(k, name)
  {
    match step
    case Arrive(p, now) => ArriveOrphan(k, p, now, name);
    case Reschedule(byMain) => RescheduleOrphan(k, byMain, name);
    case Serve(req) => ServeOrphan(k, req, name);
    case _ => OtherOrphan(k, step, name);
  }

  // ----- who waits for such a file

  lemma SwitchKeepsQueue<P>(k: Kernel<P>, p: P, req: Request, name: string)
    requires name in k.files && req != FClose(name)
    ensures name in Switch(k, p, req).files && k.files[name] <= Switch(k, p, req).files[name]
  {
    match req
    case FOpen(other, found) => assert k.files[name] <= OnOpen(k, p, other, found).files[name];
    case FClose(other) => assert OnClose(k, p, other).files[name] == k.files[name];
    case FSeek(other, position) =>
    case _ => PlainKeepsFiles(k, p, req);
  }

  lemma StepKeepsQueue<P>(k: Kernel<P>, step: Step<P>, name: string)
    requires Legal(k, step) && name in k.files && step != Serve(FClose(name))
    ensures name in Do(k, step).files && k.files[name] <= Do(k, step).files[name]
  {
    if step.Reschedule? {
      LongTermKeepsFiles(k, step.byMain);
    } else if step.Serve? {
      SwitchKeepsQueue(k, k.running.value, step.req, name);
    } else {
      QuietStep(k, step);
    }
  }

  /**
   Over every run in which nobody closes such a file it stays so, and whoever waits for it, from the
   start or since, is still in its queue, in the same place, in BLOCK.
   */
  lemma {:induction false} OrphanStays<P>(k: Kernel<P>, steps: seq<Step<P>>, name: string, i: nat)
    requires Core(k) && Runs(k, steps) && Orphan(k, name) && Serve(FClose(name)) !in steps
    ensures Orphan(After(k, steps), name) && k.files[name] <= After(k, steps).files[name]
    ensures i < |k.files[name]| ==> StateOf(After(k, steps), k.files[name][i]) == Block
    decreases steps
  {
    if steps == [] {
      if i < |k.files[name]| {
        QueuedIsBlocked(k, OnFile(name), k.files[name][i]);
      }
    } else {
      StepKeepsCore(k, steps[0]);
      OrphanIff(k, steps[0], name);
      StepKeepsQueue(k, steps[0], name);
      OrphanStays(Do(k, steps[0]), steps[1..], name, i);
    }
  }

  // ----- positions that were never set

  /** A transfer asked for now would put a null pointer into the instruction for the filesystem. */
  predicate TransfersNull<P(==)>(k: Kernel<P>, p: P, name: string) {
    Holds(k, p, name) && FilesOf(k, p)[name] == None
  }

  /** The step opens the file for the process, or hands it over to it. */
  predicate Gets<P(==)>(k: Kernel<P>, step: Step<P>, p: P, name: string) {
    && step.Serve? && k.running.Some?
    && match step.req
       case FOpen(other, found) => other == name && found && name !in k.files && k.running.value == p
       case FClose(other) => other == name && name in k.files && k.files[name] != [] && k.files[name][0] == p
       case _ => false
  }

  predicate Seeks<P(==)>(k: Kernel<P>, step: Step<P>, p: P, name: string) {
    step.Serve? && step.req.FSeek? && step.req.name == name && k.running == Some(p)
  }

  /** The position the process last asked for since it got the file, if it did. */
  function SoughtNow<P(==)>(k: Kernel<P>, step: Step<P>, p: P, name: string, sought: Option<string>): Option<string> {
    if Gets(k, step, p, name) then None
    else if Seeks(k, step, p, name) then Some(step.req.position)
    else sought
  }

  function SoughtSince<P>(k: Kernel<P>, steps: seq<Step<P>>, p: P, name: string, sought: Option<string>): Option<string>
    requires Runs(k, steps)
    decreases steps
  {
    if steps == [] then sought
    else SoughtSince(Do(k, steps[0]), steps[1..], p, name, SoughtNow(k, steps[0], p, name, sought))
  }

  ghost predicate Tracks<P>(k: Kernel<P>, p: P, name: string, sought: Option<string>) {
    Holds(k, p, name) ==> FilesOf(k, p)[name] == sought
  }

  lemma SwitchSought<P>(k: Kernel<P>, p: P, req: Request, q: P, name: string, sought: Option<string>)
    requires Entered(k, p) && Tracks(k, q, name, sought)
    requires req.FClose? && req.name in k.files && k.files[req.name] != [] ==> k.files[req.name][0] != p
    ensures Tracks(Switch(k, p, req), q, name, SoughtNow(k, Serve(req), q, name, sought))
  {
    match req
    case FOpen(other, found) =>
    case FClose(other) =>
    case FSeek(other, position) =>
    case _ => PlainKeepsFiles(k, p, req);
  }

  lemma StepSought<P>(k: Kernel<P>, step: Step<P>, p: P, name: string, sought: Option<string>)
    requires Core(k) && Legal(k, step) && Tracks(k, p, name, sought)
    ensures Tracks(Do(k, step), p, name, SoughtNow(k, step, p, name, sought))
  {
    match step
    case Arrive(q, now) =>
    case Reschedule(byMain) => RescheduleSought(k, byMain, p, name, sought);
    case Serve(req) => ServeSought(k, req, p, name, sought);
    case _ => QuietLocal(k, step);
  }

  lemma ServeSought<P>(k: Kernel<P>, req: Request, p: P, name: string, sought: Option<string>)
    requires Core(k) && k.running.Some? && Tracks(k, p, name, sought)
    ensures Tracks(Do(k, Serve(req)), p, name, SoughtNow(k, Serve(req), p, name, sought))
  {
    RunningEnters(k);
    if req.FClose? && req.name in k.files && k.files[req.name] != [] {
      HeadIsPresent(k, OnFile(req.name));
    }
    SwitchSought(k, k.running.value, req, p, name, sought);
    assert Do(k, Serve(req)).local == Switch(k, k.running.value, req).local;
  }

  lemma RescheduleSought<P>(k: Kernel<P>, byMain: bool, p: P, name: string, sought: Option<string>)
    requires Core(k) && Tracks(k, p, name, sought)
    ensures Tracks(Do(k, Reschedule(byMain)), p, name, sought)
  {
    var gone := ReapsOne(k);
    AdmitKeepsFiles(k, byMain);
  }

  lemma {:induction false} SoughtOver<P>(k: Kernel<P>, steps: seq<Step<P>>, p: P, name: string, sought: Option<string>)
    requires Core(k) && Runs(k, steps) && Tracks(k, p, name, sought)
    ensures Tracks(After(k, steps), p, name, SoughtSince(k, steps, p, name, sought))
    decreases steps
  {
    if steps != [] {
      StepKeepsCore(k, steps[0]);
      StepSought(k, steps[0], p, name, sought);
      SoughtOver(Do(k, steps[0]), steps[1..], p, name, SoughtNow(k, steps[0], p, name, sought));
    }
  }

  /**
   Over every run from the start: the position a process has in a file is the one it last asked for
   since the file was opened for it or handed to it.
   */
  lemma PositionIs<P>(config: Config, instances: map<string, nat>, steps: seq<Step<P>>, p: P, name: string)
    requires config.max >= 0 && (forall n :: n in instances ==> n in config.names)
    requires Runs(Start0(config, instances), steps) && Holds(After(Start0(config, instances), steps), p, name)
    ensures FilesOf(After(Start0(config, instances), steps), p)[name]
         == SoughtSince(Start0(config, instances), steps, p, name, None)
  {
    StartInv<P>(config, instances);
    SoughtOver(Start0(config, instances), steps, p, name, None);
  }

  /** So a transfer is handed a null position exactly when it has asked for none. */
  lemma TransferReadsNullIff<P>(config: Config, instances: map<string, nat>, steps: seq<Step<P>>, p: P, name: string)
    requires config.max >= 0 && (forall n :: n in instances ==> n in config.names)
    requires Runs(Start0(config, instances), steps)
    ensures TransfersNull(After(Start0(config, instances), steps), p, name)
       <==> && Holds(After(Start0(config, instances), steps), p, name)
            && SoughtSince(Start0(config, instances), steps, p, name, None) == None
  {
    if Holds(After(Start0(config, instances), steps), p, name) {
      PositionIs(config, instances, steps, p, name);
    }
  }
}
