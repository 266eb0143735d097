/** Runs of the kernel, from its start, that end where the code goes wrong. */
module KernelExamples {
  import opened Options
  import opened Scheduling
  import opened WaitQueues
  import opened KernelState
  import opened KernelInvariant
  import opened KernelSteps
  import opened KernelReaping
  import opened KernelRuns
  import opened KernelSignals
  import opened KernelFiles

  ghost predicate ComesTo(start: Kernel<nat>, steps: seq<Step<nat>>, k: Kernel<nat>) {
    Runs(start, steps) && After(start, steps) == k
  }

  /** One step more. */
  lemma Go(start: Kernel<nat>, steps: seq<Step<nat>>, k: Kernel<nat>, step: Step<nat>)
    returns (steps': seq<Step<nat>>, k': Kernel<nat>)
    requires ComesTo(start, steps, k) && Legal(k, step)
    ensures k' == Do(k, step) && ComesTo(start, steps', k')
  {
    RunSnoc(start, steps, step);
    steps', k' := steps + [step], Do(k, step);
  }

  // ----- what is needed of the states on the way

  /** The active queue, who runs and who has priority; nobody is new, nobody has exited. */
  ghost predicate At(k: Kernel<nat>, active: seq<nat>, running: Option<nat>, prioritized: Option<nat>) {
    && k.active == active && k.running == running && k.prioritized == prioritized && !k.owing && k.entrants == []
    && forall i :: 0 <= i < |active| ==> StateOf(k, active[i]) != Exit
  }

  /** Of the resource "R": what is there, who owns it, how often it was given and came back; nobody waits. */
  ghost predicate Has(k: Kernel<nat>, available: int, owner: Option<nat>, grants: nat, released: nat) {
    && "R" in k.resources
    && var r := k.resources["R"];
      && r.available == available && r.owner == owner && r.waiting == []
      && r.tally.grants == grants && r.tally.released == released
  }

  ghost predicate Same(k: Kernel<nat>, k': Kernel<nat>) {
    && k'.config == k.config && k'.resources == k.resources && k'.files == k.files && k'.local == k.local
    && k'.sleeping == k.sleeping && k'.transfers == k.transfers && k'.serving == k.serving
  }

  // ----- steps

  /** A new process, admitted at once. */
  lemma Enters(start: Kernel<nat>, steps: seq<Step<nat>>, k: Kernel<nat>, active: seq<nat>, p: nat, now: real)
    returns (steps': seq<Step<nat>>, k': Kernel<nat>)
    requires ComesTo(start, steps, k) && At(k, active, None, None) && p !in k.state && |active| < k.config.max
    ensures ComesTo(start, steps', k') && At(k', active + [p], None, None)
    ensures k'.state == k.state[p := Ready] && k'.local == k.local[p := map[]]
    ensures k'.times == k.times[p := Times(now, k.config.defaultBurst)]
    ensures k'.config == k.config && k'.resources == k.resources && k'.files == k.files && k'.sleeping == k.sleeping
    ensures k'.transfers == k.transfers && k'.serving == k.serving
  {
    var steps1, k1 := Go(start, steps, k, Arrive(p, now));
    ReapNone(k1, 0);
    assert k1.entrants[0] == p && k1.state[p := Ready] == k.state[p := Ready];
    steps', k' := Go(start, steps1, k1, Reschedule(false));
  }

  /** Under FIFO the first of the queue runs, if it is READY and nobody has priority. */
  lemma FirstRuns(start: Kernel<nat>, steps: seq<Step<nat>>, k: Kernel<nat>, p: nat, other: nat)
    returns (steps': seq<Step<nat>>, k': Kernel<nat>)
    requires ComesTo(start, steps, k) && At(k, [p, other], None, None) && !k.config.hrrn && StateOf(k, p) == Ready &&
             other != p
    ensures ComesTo(start, steps', k') && Same(k, k') && At(k', [other], Some(p), None) &&
            k'.state == k.state[p := Exec]
  {
    assert FirstReady(k.active, k.state) == 0 && Without(k.active, 0) == [other];
    assert k.active[1] == other;
    steps', k' := Go(start, steps, k, Dispatch(0.0));
  }

  /** Who has priority runs, though last in the queue. */
  lemma PriorityRuns(start: Kernel<nat>, steps: seq<Step<nat>>, k: Kernel<nat>, p: nat, other: nat)
    returns (steps': seq<Step<nat>>, k': Kernel<nat>)
    requires ComesTo(start, steps, k) && At(k, [other, p], None, Some(p)) && other != p
    ensures ComesTo(start, steps', k') && Same(k, k') && At(k', [other], Some(p), None) &&
            k'.state == k.state[p := Exec]
  {
    assert k.active[1..] == [p] && RemoveFirst(k.active[1..], p) == [];
    assert k.active[0] == other;
    steps', k' := Go(start, steps, k, Dispatch(0.0));
  }

  lemma GivesWay(start: Kernel<nat>, steps: seq<Step<nat>>, k: Kernel<nat>, p: nat, other: nat)
    returns (steps': seq<Step<nat>>, k': Kernel<nat>)
    requires ComesTo(start, steps, k) && At(k, [other], Some(p), None) && StateOf(k, p) == Exec && other != p
    ensures ComesTo(start, steps', k') && Same(k, k') && At(k', [other, p], None, None) &&
            k'.state == k.state[p := Ready]
  {
    steps', k' := Go(start, steps, k, Serve(Other));
  }

  lemma IsGiven(start: Kernel<nat>, steps: seq<Step<nat>>, k: Kernel<nat>, p: nat, other: nat, n: int,
    owner: Option<nat>, g: nat)
    returns (steps': seq<Step<nat>>, k': Kernel<nat>)
    requires ComesTo(start, steps, k) && At(k, [other], Some(p), None) && StateOf(k, p) == Exec && other != p
    requires Has(k, n, owner, g, 0) && n > 0
    ensures ComesTo(start, steps', k') && At(k', [other, p], None, Some(p)) && k'.state == k.state[p := Ready]
    ensures Has(k', n - 1, Some(p), g + 1, 0) && k'.config == k.config
  {
    steps', k' := Go(start, steps, k, Serve(Wait("R")));
  }

  lemma GivesBack(start: Kernel<nat>, steps: seq<Step<nat>>, k: Kernel<nat>, p: nat, other: nat, n: int,
    owner: Option<nat>, g: nat)
    returns (steps': seq<Step<nat>>, k': Kernel<nat>)
    requires ComesTo(start, steps, k) && At(k, [other], Some(p), None) && StateOf(k, p) == Exec && other != p &&
             Has(k, n, owner, g, 0)
    ensures ComesTo(start, steps', k') && At(k', [other, p], None, Some(p)) && k'.state == k.state[p := Ready]
    ensures Has(k', n + 1, None, g, 1) && k'.config == k.config
  {
    steps', k' := Go(start, steps, k, Serve(Signal("R")));
  }

  lemma Opens(start: Kernel<nat>, steps: seq<Step<nat>>, k: Kernel<nat>, p: nat, other: nat, name: string)
    returns (steps': seq<Step<nat>>, k': Kernel<nat>)
    requires ComesTo(start, steps, k) && At(k, [other], Some(p), None) && StateOf(k, p) == Exec && other != p &&
             name !in k.files
    ensures ComesTo(start, steps', k') && At(k', [other, p], None, None) && k'.state == k.state[p := Ready]
    ensures k'.files == k.files[name := []] && k'.local == k.local[p := FilesOf(k, p)[name := None]]
    ensures k'.config == k.config && k'.transfers == k.transfers && k'.serving == k.serving
  {
    steps', k' := Go(start, steps, k, Serve(FOpen(name, true)));
  }

  /** The process opens a file that another has open, and waits for it. */
  lemma WaitsForFile(start: Kernel<nat>, steps: seq<Step<nat>>, k: Kernel<nat>, p: nat, other: nat, name: string)
    returns (steps': seq<Step<nat>>, k': Kernel<nat>)
    requires ComesTo(start, steps, k) && At(k, [other], Some(p), None) && StateOf(k, p) == Exec && other != p
    requires name in k.files && k.files[name] == []
    ensures ComesTo(start, steps', k') && At(k', [other, p], None, None) && k'.state == k.state[p := Block]
    ensures k'.files == k.files[name := [p]] && k'.local == k.local && k'.config == k.config
  {
    assert k.files[name] + [p] == [p];
    steps', k' := Go(start, steps, k, Serve(FOpen(name, true)));
  }

  /** The process closes a file that nobody waits for, whoever has it. */
  lemma Closes(start: Kernel<nat>, steps: seq<Step<nat>>, k: Kernel<nat>, p: nat, other: nat, name: string)
    returns (steps': seq<Step<nat>>, k': Kernel<nat>)
    requires ComesTo(start, steps, k) && At(k, [other], Some(p), None) && StateOf(k, p) == Exec && other != p
    requires name in k.files && k.files[name] == []
    ensures ComesTo(start, steps', k') && At(k', [other, p], None, None) && k'.state == k.state[p := Ready]
    ensures k'.files == k.files - {name} && k'.local == k.local[p := FilesOf(k, p) - {name}] && k'.config == k.config
  {
    steps', k' := Go(start, steps, k, Serve(FClose(name)));
  }

  lemma Seeks(start: Kernel<nat>, steps: seq<Step<nat>>, k: Kernel<nat>, p: nat, other: nat, name: string)
    returns (steps': seq<Step<nat>>, k': Kernel<nat>)
    requires ComesTo(start, steps, k) && At(k, [other], Some(p), None) && StateOf(k, p) == Exec && other != p
    requires Holds(k, p, name)
    ensures ComesTo(start, steps', k') && At(k', [other, p], None, None) && k'.state == k.state[p := Ready]
    ensures Holds(k', p, name) && k'.transfers == k.transfers && k'.serving == k.serving && k'.config == k.config
  {
    steps', k' := Go(start, steps, k, Serve(FSeek(name, "0")));
  }

  /** A transfer is asked for, and the filesystem thread takes it. */
  lemma TransferStarts(start: Kernel<nat>, steps: seq<Step<nat>>, k: Kernel<nat>, p: nat, other: nat, name: string)
    returns (steps': seq<Step<nat>>, k': Kernel<nat>)
    requires ComesTo(start, steps, k) && At(k, [other], Some(p), None) && StateOf(k, p) == Exec && other != p
    requires Holds(k, p, name) && k.transfers == [] && k.serving == None
    ensures ComesTo(start, steps', k') && At(k', [other, p], None, None) && k'.state == k.state[p := Block]
    ensures k'.transfers == [] && k'.serving == Some(p) && k'.config == k.config
  {
    var steps1, k1 := Go(start, steps, k, Serve(FTransfer(name)));
    steps', k' := Go(start, steps1, k1, FsTake);
  }

  // ----- two processes under FIFO

  /** No process but this one has any file. */
  ghost predicate OnlyHolder(local: map<nat, map<string, Option<string>>>, p: nat) {
    forall q, x :: q in local && x in local[q] ==> q == p
  }

  const FIFO := Config(false, 2, 0.5, 1.0, ["R"])

  /** Processes 7 and 8 are READY in the queue, 7 first. */
  lemma TwoReady(instances: map<string, nat>) returns (start: Kernel<nat>, steps: seq<Step<nat>>, k: Kernel<nat>)
    ensures start == Start0(FIFO, instances) && ComesTo(start, steps, k) && At(k, [7, 8], None, None)
    ensures StateOf(k, 7) == Ready && StateOf(k, 8) == Ready && FilesOf(k, 8) == map[] && 7 in k.local && 8 in k.local
    ensures k.config == FIFO && k.resources == start.resources && k.files == map[]
    ensures k.transfers == [] && k.serving == None && OnlyHolder(k.local, 7)
  {
    start := Start0(FIFO, instances);
    steps, k := [], start;
    assert ComesTo(start, steps, k);
    steps, k := Enters(start, steps, k, [], 7, 0.0);
    steps, k := Enters(start, steps, k, [7], 8, 0.0);
  }

  /** A process signals a resource nobody was given. */
  lemma SignalWithoutWait() returns (start: Kernel<nat>, steps: seq<Step<nat>>, k: Kernel<nat>)
    ensures start == Start0(FIFO, map["R" := 1]) && ComesTo(start, steps, k)
    ensures k.running == Some(7) && ReadsNull(k, "R")
  {
    start, steps, k := TwoReady(map["R" := 1]);
    steps, k := FirstRuns(start, steps, k, 7, 8);
  }

  /** Both processes are given one of two instances; 8 gives its own back. */
  lemma BothGiven() returns (start: Kernel<nat>, steps: seq<Step<nat>>, k: Kernel<nat>)
    ensures start == Start0(FIFO, map["R" := 2]) && ComesTo(start, steps, k) && At(k, [7, 8], None, Some(8))
    ensures StateOf(k, 7) == Ready && StateOf(k, 8) == Ready && Has(k, 0, Some(8), 2, 0) && k.config == FIFO
  {
    start, steps, k := TwoReady(map["R" := 2]);
    steps, k := FirstRuns(start, steps, k, 7, 8);
    steps, k := IsGiven(start, steps, k, 7, 8, 2, None, 0);
    steps, k := PriorityRuns(start, steps, k, 7, 8);
    steps, k := GivesWay(start, steps, k, 7, 8);
    steps, k := FirstRuns(start, steps, k, 8, 7);
    steps, k := IsGiven(start, steps, k, 8, 7, 1, Some(7), 1);
  }

  /** With two instances given and one of them back, the process that still has one cannot give it back. */
  lemma HolderCannotSignal() returns (start: Kernel<nat>, steps: seq<Step<nat>>, k: Kernel<nat>)
    ensures start == Start0(FIFO, map["R" := 2]) && ComesTo(start, steps, k)
    ensures k.running == Some(7) && Has(k, 1, None, 2, 1) && ReadsNull(k, "R")
  {
    start, steps, k := BothGiven();
    steps, k := PriorityRuns(start, steps, k, 8, 7);
    steps, k := GivesBack(start, steps, k, 8, 7, 0, Some(8), 2);
    steps, k := PriorityRuns(start, steps, k, 8, 7);
    steps, k := GivesWay(start, steps, k, 8, 7);
    steps, k := FirstRuns(start, steps, k, 7, 8);
  }

  /** Process 7 has file "f" open; process 8, which does not, runs and may close it. */
  lemma ForeignClose() returns (start: Kernel<nat>, steps: seq<Step<nat>>, k: Kernel<nat>)
    ensures start == Start0(FIFO, map[]) && ComesTo(start, steps, k)
    ensures k.running == Some(8) && Holds(k, 7, "f") && !Holds(k, 8, "f")
    ensures Legal(k, Serve(FClose("f"))) && !MayClose(k, 8, "f")
    ensures At(k, [7], Some(8), None) && StateOf(k, 7) == Ready && StateOf(k, 8) == Exec && k.config == FIFO
    ensures "f" in k.files && k.files["f"] == [] && 7 in k.local && 8 in k.local
  {
    start, steps, k := TwoReady(map[]);
    steps, k := FirstRuns(start, steps, k, 7, 8);
    steps, k := Opens(start, steps, k, 7, 8, "f");
    steps, k := FirstRuns(start, steps, k, 8, 7);
    assert 7 in k.local && Holds(k, 7, "f");
  }

  /** That done, process 8 opens the file too: two processes have it. */
  lemma TwoHolders() returns (start: Kernel<nat>, steps: seq<Step<nat>>, k: Kernel<nat>)
    ensures start == Start0(FIFO, map[]) && ComesTo(start, steps, k)
    ensures 7 in k.local && 8 in k.local && Holds(k, 7, "f") && Holds(k, 8, "f")
  {
    start, steps, k := ForeignClose();
    steps, k := Closes(start, steps, k, 8, 7, "f");
    steps, k := FirstRuns(start, steps, k, 7, 8);
    steps, k := GivesWay(start, steps, k, 7, 8);
    steps, k := FirstRuns(start, steps, k, 8, 7);
    steps, k := Opens(start, steps, k, 8, 7, "f");
  }

  /** Process 7 has file "f" open and runs, and never set its position. */
  lemma TransferWithoutSeek() returns (start: Kernel<nat>, steps: seq<Step<nat>>, k: Kernel<nat>)
    ensures start == Start0(FIFO, map[]) && ComesTo(start, steps, k) && At(k, [8], Some(7), None)
    ensures TransfersNull(k, 7, "f") && StateOf(k, 7) == Exec && StateOf(k, 8) == Ready
    ensures k.config == FIFO && k.transfers == [] && k.serving == None
  {
    start, steps, k := TwoReady(map[]);
    steps, k := FirstRuns(start, steps, k, 7, 8);
    steps, k := Opens(start, steps, k, 7, 8, "f");
    steps, k := FirstRuns(start, steps, k, 8, 7);
    steps, k := GivesWay(start, steps, k, 8, 7);
    steps, k := FirstRuns(start, steps, k, 7, 8);
  }

  /** Process 8 may be told to compact while the filesystem thread is busy with process 7. */
  lemma CompactionWhileServing() returns (start: Kernel<nat>, steps: seq<Step<nat>>, k: Kernel<nat>)
    ensures start == Start0(FIFO, map[]) && ComesTo(start, steps, k)
    ensures k.running == Some(8) && k.serving == Some(7) && Legal(k, Serve(CreateSegment(CompactRequest, Made)))
  {
    start, steps, k := TransferWithoutSeek();
    steps, k := Seeks(start, steps, k, 7, 8, "f");
    steps, k := FirstRuns(start, steps, k, 8, 7);
    steps, k := GivesWay(start, steps, k, 8, 7);
    steps, k := FirstRuns(start, steps, k, 7, 8);
    steps, k := TransferStarts(start, steps, k, 7, 8, "f");
    steps, k := FirstRuns(start, steps, k, 8, 7);
  }

  /** Process 7 alone has file "f" open, process 8 waits for it. */
  lemma FileIsWaitedFor() returns (start: Kernel<nat>, steps: seq<Step<nat>>, k: Kernel<nat>)
    ensures start == Start0(FIFO, map[]) && ComesTo(start, steps, k) && At(k, [8], Some(7), None)
    ensures "f" in k.files && k.files["f"] == [8] && OnlyHolder(k.local, 7)
  {
    start, steps, k := TwoReady(map[]);
    steps, k := FirstRuns(start, steps, k, 7, 8);
    steps, k := Opens(start, steps, k, 7, 8, "f");
    steps, k := FirstRuns(start, steps, k, 8, 7);
    steps, k := WaitsForFile(start, steps, k, 8, 7, "f");
    steps, k := FirstRuns(start, steps, k, 7, 8);
  }

  /** Process 7 exits with the file open: nobody has it, and process 8 waits. */
  lemma OrphanedFile() returns (start: Kernel<nat>, steps: seq<Step<nat>>, k: Kernel<nat>)
    ensures start == Start0(FIFO, map[]) && ComesTo(start, steps, k)
    ensures Orphan(k, "f") && k.files["f"] == [8]
  {
    start, steps, k := FileIsWaitedFor();
    var k0 := k;
    steps, k := Go(start, steps, k0, Serve(ExitProcess));
    HolderExits(k0, k, 7, "f");
    StartInv<nat>(FIFO, map[]);
    RunKeeps(start, steps);
    RescheduleOrphan(k, true, "f");
    LongTermKeepsFiles(k, true);
    steps, k := Go(start, steps, k, Reschedule(true));
  }

  lemma HolderExits(k: Kernel<nat>, k': Kernel<nat>, p: nat, name: string)
    requires k.running == Some(p) && k' == Do(k, Serve(ExitProcess)) && OnlyHolder(k.local, p)
    ensures k'.files == k.files && k'.owing && HoldersLeave(k', name)
  {
    assert k'.active[|k.active|] == p;
    assert forall q :: Holds(k', q, name) <==> Holds(k, q, name);
  }

  // ----- a process lost in a scan

  const HRRN := Config(true, 2, 0.5, 1.0, [])

  /** The only active process runs and asks for I/O. */
  lemma Sleeps(start: Kernel<nat>, steps: seq<Step<nat>>, k: Kernel<nat>, p: nat)
    returns (steps': seq<Step<nat>>, k': Kernel<nat>)
    requires ComesTo(start, steps, k) && At(k, [p], None, None) && StateOf(k, p) == Ready && k.sleeping == []
    ensures ComesTo(start, steps', k') && At(k', [p], None, None) && k'.state == k.state[p := Block]
    ensures k'.sleeping == [p] && k'.config == k.config && k'.times == k.times
  {
    assert FirstReady(k.active, k.state) == 0 && Without(k.active, 0) == [];
    var steps1, k1 := Go(start, steps, k, Dispatch(0.0));
    steps', k' := Go(start, steps1, k1, Serve(Io));
  }

  /** Process 7 sleeps and has the highest ratio, process 8 is READY: the scan would drop 7 for good. */
  lemma ScanLosesSleeper() returns (start: Kernel<nat>, steps: seq<Step<nat>>, k: Kernel<nat>)
    ensures start == Start0(HRRN, map[]) && ComesTo(start, steps, k)
    ensures Scans(k) && Legal(k, Dispatch(10.0)) && k.sleeping == [7] && k.active == [7, 8] && StateOf(k, 7) == Block
    ensures Ratios(k, 10.0)[7] == 11.0 && Ratios(k, 10.0)[8] == 6.0
    ensures !LeadersReady(k.active, Ratios(k, 10.0), k.state)
  {
    start := Start0(HRRN, map[]);
    steps, k := [], start;
    assert ComesTo(start, steps, k);
    steps, k := Enters(start, steps, k, [], 7, 0.0);
    steps, k := Sleeps(start, steps, k, 7);
    steps, k := Enters(start, steps, k, [7], 8, 5.0);
    assert k.active == [7, 8];
    SleeperLeads(k);
  }

  /** The scan done, process 7 is nowhere, though its sleep is not over. */
  lemma SleeperIsLost() returns (start: Kernel<nat>, steps: seq<Step<nat>>, k: Kernel<nat>)
    ensures start == Start0(HRRN, map[]) && ComesTo(start, steps, k) && k.sleeping == [7]
    ensures 7 in k.state && 7 !in k.active && k.running != Some(7) && 7 !in k.entrants && 7 !in k.finished
  {
    start, steps, k := ScanLosesSleeper();
    var steps1, k1 := steps, k;
    ScanDrops(k1);
    StartInv<nat>(HRRN, map[]);
    RunKeeps(start, steps1);
    MemberIsKnown(k1, 7);
    steps, k := Go(start, steps1, k1, Dispatch(10.0));
  }

  lemma ScanDrops(k: Kernel<nat>)
    requires k.active == [7, 8] && StateOf(k, 7) == Block && Scans(k) && Timed(k)
    requires Ratios(k, 10.0)[7] == 11.0 && Ratios(k, 10.0)[8] == 6.0
    ensures Choose(k, 10.0).pcb == None && Choose(k, 10.0).rest == [8]
  {
    var ratios := Ratios(k, 10.0);
    var one := k.active[..1];
    assert one == [7] && one[..0] == [];
    assert ScanAll(one, ratios, k.state) == ScanOne(ScanAll(one[..0], ratios, k.state), 7, 11.0, k.state);
    assert ScanAll(k.active, ratios, k.state) == ScanOne(ScanAll(one, ratios, k.state), 8, 6.0, k.state);
  }

  lemma SleeperLeads(k: Kernel<nat>)
    requires k.config.hrrn && k.active == [7, 8] && StateOf(k, 7) == Block && 7 in k.state
    requires k.running.None? && k.prioritized.None? && !k.owing
    requires k.times == map[7 := Times(0.0, 1.0), 8 := Times(5.0, 1.0)]
    ensures Scans(k) && Legal(k, Dispatch(10.0)) && !LeadersReady(k.active, Ratios(k, 10.0), k.state)
    ensures Ratios(k, 10.0)[7] == 11.0 && Ratios(k, 10.0)[8] == 6.0
  {
    assert k.active[0] == 7 && k.active[1] == 8;
    assert Ratios(k, 10.0)[7] == 11.0;
    assert Leads(k.active, Ratios(k, 10.0), 0);
  }
}
