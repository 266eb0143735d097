/**
 The kernel as the source has it. Control blocks and resources are objects: a control block is
 shared by the queues of the schedulers, of resources and of files, by the I/O and filesystem
 threads and by a resource's owner field, and every change to it is seen through all of them.
 Each method is proved to do to the state's value (`View`) what the step of the same name does.
 */
module KernelServer {
  import opened Options
  import opened Scheduling
  import opened WaitQueues
  import opened KernelState
  import opened KernelInvariant
  import opened KernelSteps
  import opened KernelReaping
  import opened KernelRuns

  class Pcb {
    const pid: int
    var state: State
    var localFiles: map<string, Option<string>>
    var lastReadyTime: real
    var aproxBurstTime: real

    constructor (pid: int)
      ensures this.pid == pid
    {
      this.pid := pid;
    }

    method Start(now: real, burst: real)
      modifies this
      ensures state == New && localFiles == map[] && lastReadyTime == now && aproxBurstTime == burst
    {
      state, localFiles, lastReadyTime, aproxBurstTime := New, map[], now, burst;
    }
  }

  class Semaphore {
    var availableInstances: int
    var assignedTo: Pcb?
    var enqueuedProcesses: seq<Pcb>
    ghost var tally: Tally<Pcb>

    ghost function Value(): Resource<Pcb>
      reads this
    {
      Resource(availableInstances, Opt(assignedTo), enqueuedProcesses, tally)
    }

    constructor (instances: int)
      ensures Value() == FreshResource(instances)
    {
      availableInstances, assignedTo, enqueuedProcesses := instances, null, [];
      tally := Tally(instances, 0, 0, [], []);
    }

    /** resource_signal, but for the state of the process that is woken. */
    method Signal() returns (woken: Pcb?)
      modifies this
      ensures Value() == SignalOne(old(Value()))
      ensures woken == if old(enqueuedProcesses) == [] then null else old(enqueuedProcesses[0])
      ensures assignedTo == woken
    {
      if enqueuedProcesses != [] {
        woken := enqueuedProcesses[0];
        enqueuedProcesses := enqueuedProcesses[1..];
        tally := tally.(woken := tally.woken + [woken]);
      } else {
        woken := null;
        availableInstances := availableInstances + 1;
        tally := tally.(released := tally.released + 1);
      }
      assignedTo := woken;
    }

    /** One instance for the process, or a place in the queue. */
    method Wait(p: Pcb) returns (granted: bool)
      modifies this
      ensures granted == (old(availableInstances) > 0)
      ensures Value() == if granted then Grant(old(Value()), p) else Enqueue(old(Value()), p)
    {
      granted := availableInstances > 0;
      if granted {
        assignedTo := p;
        availableInstances := availableInstances - 1;
        tally := tally.(grants := tally.grants + 1);
      } else {
        enqueuedProcesses := enqueuedProcesses + [p];
        tally := tally.(blocked := tally.blocked + [p]);
      }
    }

    /** Takes the process out of the queue, skipping one element past each removal. */
    method Purge(p: Pcb)
      modifies this`enqueuedProcesses
      ensures Value() == old(Value()).(waiting := KernelState.Purge(old(enqueuedProcesses), p, 0))
    {
      ghost var queue := enqueuedProcesses;
      var j := 0;
      while j < |enqueuedProcesses|
        invariant 0 <= j && KernelState.Purge(enqueuedProcesses, p, j) == KernelState.Purge(queue, p, 0)
        decreases |enqueuedProcesses| - j
      {
        if enqueuedProcesses[j] == p {
          enqueuedProcesses := enqueuedProcesses[..j] + enqueuedProcesses[j + 1..];
        }
        j := j + 1;
      }
    }
  }

  function Opt(p: Pcb?): Option<Pcb> {
    if p == null then None else Some(p)
  }

  /** The configured instances by name; of a name given twice the last count holds. */
  function Instances(names: seq<string>, counts: seq<nat>): (m: map<string, nat>)
    requires |names| == |counts|
    ensures forall name :: name in m ==> name in names
  {
    if names == [] then map[]
    else
      var n := |names| - 1;
      Instances(names[..n], counts[..n])[names[n] := counts[n]]
  }

  /** The variables of the scan's loop have these values. */
  ghost predicate Shows(s: Scan<Pcb>, next: Pcb?, highest: real, temporal: seq<Pcb>, fifo: seq<Pcb>) {
    s.next == Opt(next) && s.highest == highest && s.temporal == temporal && s.ties == fifo
  }

  // ----- the values of objects

  ghost function StatesOf(ps: set<Pcb>): map<Pcb, State>
    reads ps
  {
    map p | p in ps :: p.state
  }

  ghost function LocalsOf(ps: set<Pcb>): map<Pcb, map<string, Option<string>>>
    reads ps
  {
    map p | p in ps :: p.localFiles
  }

  ghost function TimesOf(ps: set<Pcb>): map<Pcb, Times>
    reads ps
  {
    map p | p in ps :: Times(p.lastReadyTime, p.aproxBurstTime)
  }

  ghost function ObjectsOf(resources: map<string, Semaphore>): set<Semaphore> {
    set name | name in resources :: resources[name]
  }

  ghost function ValuesOf(resources: map<string, Semaphore>): map<string, Resource<Pcb>>
    reads ObjectsOf(resources)
  {
    map name | name in resources :: resources[name].Value()
  }

  /** An object for each configured resource; a name given twice keeps the last. */
  method LoadResources(names: seq<string>, counts: seq<nat>) returns (resources: map<string, Semaphore>)
    requires |names| == |counts|
    ensures fresh(ObjectsOf(resources)) && resources.Keys == Instances(names, counts).Keys
    ensures forall x, y :: x in resources && y in resources && x != y ==> resources[x] != resources[y]
    ensures forall x :: x in resources ==> resources[x].Value() == FreshResource(Instances(names, counts)[x])
  {
    resources := map[];
    for i := 0 to |names|
      invariant fresh(ObjectsOf(resources)) && resources.Keys == Instances(names[..i], counts[..i]).Keys
      invariant forall x, y :: x in resources && y in resources && x != y ==> resources[x] != resources[y]
      invariant forall x :: x in resources ==>
                resources[x].Value() == FreshResource(Instances(names[..i], counts[..i])[x])
    {
      assert names[..i + 1][..i] == names[..i] && counts[..i + 1][..i] == counts[..i];
      ghost var before := resources;
      var resource := new Semaphore(counts[i]);
      assert resource !in ObjectsOf(before);
      resources := resources[names[i] := resource];
      assert ObjectsOf(resources) <= ObjectsOf(before) + {resource};
    }
    assert names[..|names|] == names && counts[..|counts|] == counts;
  }

  /** Where the element is for the first time. */
  method FindElement(list: seq<Pcb>, p: Pcb) returns (i: nat)
    ensures i <= |list|
    ensures RemoveFirst(list, p) == if i < |list| then Without(list, i) else list
  {
    i := 0;
    while i < |list| && list[i] != p
      invariant i <= |list| && forall j :: 0 <= j < i ==> list[j] != p
    {
      i := i + 1;
    }
    RemoveFirstAt(list, p, i);
  }

  lemma {:induction false} RemoveFirstAt<P>(list: seq<P>, p: P, i: nat)
    requires i <= |list| && (forall j :: 0 <= j < i ==> list[j] != p) && (i < |list| ==> list[i] == p)
    ensures RemoveFirst(list, p) == if i < |list| then Without(list, i) else list
  {
    if i > 0 {
      RemoveFirstAt(list[1..], p, i - 1);
      assert list == [list[0]] + list[1..];
    }
  }

  class Server {
    const config: Config
    const resources: map<string, Semaphore>
    var newPcbs: seq<Pcb>
    var activePcbs: seq<Pcb>
    var prioritizedPcb: Pcb?
    var running: Pcb?
    var owing: bool
    var globalFiles: map<string, seq<Pcb>>
    var sleeping: seq<Pcb>
    var fileInstructions: seq<Pcb>
    var serving: Pcb?
    ghost var all: set<Pcb>
    ghost var finished: set<Pcb>
    ghost var stuck: seq<Pcb>

    ghost function View(): Kernel<Pcb>
      reads this, all, ObjectsOf(resources)
    {
      Kernel(config, StatesOf(all), LocalsOf(all), TimesOf(all), newPcbs, activePcbs, Opt(running), finished,
             Opt(prioritizedPcb), owing, ValuesOf(resources), globalFiles,
             sleeping, fileInstructions, Opt(serving), stuck)
    }

    /** No resource is under two names. */
    ghost predicate Wired() {
      forall x, y :: x in resources && y in resources && x != y ==> resources[x] != resources[y]
    }

    ghost predicate Valid()
      reads this, all, ObjectsOf(resources)
    {
      Wired() && Core(View())
    }

    /** The objects' fields are what they were. */
    twostate predicate Kept()
      reads this`all, all, ObjectsOf(resources)
    {
      && all == old(all) && StatesOf(all) == old(StatesOf(all)) && LocalsOf(all) == old(LocalsOf(all))
      && TimesOf(all) == old(TimesOf(all)) && ValuesOf(resources) == old(ValuesOf(resources))
    }

    constructor (config: Config, counts: seq<nat>)
      requires config.max >= 0 && |counts| == |config.names|
      ensures Valid() && View() == Start0(config, Instances(config.names, counts))
      ensures fresh(ObjectsOf(resources))
    {
      this.config := config;
      var loaded := LoadResources(config.names, counts);
      resources := loaded;
      newPcbs, activePcbs, prioritizedPcb, running, owing := [], [], null, null, false;
      globalFiles, sleeping, fileInstructions, serving := map[], [], [], null;
      all, finished, stuck := {}, {}, [];
      new;
      assert View() == Start0(config, Instances(config.names, counts));
      StartInv<Pcb>(config, Instances(config.names, counts));
    }

    // ----- one object

    method SetPcbState(p: Pcb, state: State)
      requires p in all
      modifies p`state
      ensures p.state == state && StatesOf(all) == old(StatesOf(all))[p := state]
      ensures LocalsOf(all) == old(LocalsOf(all)) && TimesOf(all) == old(TimesOf(all))
      ensures ValuesOf(resources) == old(ValuesOf(resources))
    {
      p.state := state;
    }

    method SetLocalFiles(p: Pcb, files: map<string, Option<string>>)
      requires p in all
      modifies p`localFiles
      ensures p.localFiles == files && LocalsOf(all) == old(LocalsOf(all))[p := files]
      ensures StatesOf(all) == old(StatesOf(all)) && TimesOf(all) == old(TimesOf(all))
      ensures ValuesOf(resources) == old(ValuesOf(resources))
    {
      p.localFiles := files;
    }

    method SetTimes(p: Pcb, lastReady: real, burst: real)
      requires p in all
      modifies p`lastReadyTime, p`aproxBurstTime
      ensures TimesOf(all) == old(TimesOf(all))[p := Times(lastReady, burst)]
      ensures StatesOf(all) == old(StatesOf(all)) && LocalsOf(all) == old(LocalsOf(all))
      ensures ValuesOf(resources) == old(ValuesOf(resources))
    {
      p.lastReadyTime, p.aproxBurstTime := lastReady, burst;
    }

    /** Of all processes only these may have changed. */
    twostate predicate SamePcbs(changed: set<Pcb>)
      reads this`all, all
    {
      forall p :: p in old(all) && p in all && p !in changed ==> unchanged(p)
    }

    // ----- resources

    /** Of all objects only this resource has changed. */
    twostate lemma OneChanged(name: string)
      requires Wired() && name in resources && all == old(all)
      requires forall x :: x in resources && x != name ==> unchanged(resources[x])
      requires forall p :: p in all ==> unchanged(p)
      ensures ValuesOf(resources) == old(ValuesOf(resources))[name := resources[name].Value()]
      ensures StatesOf(all) == old(StatesOf(all)) && LocalsOf(all) == old(LocalsOf(all)) &&
              TimesOf(all) == old(TimesOf(all))
    {
    }

    /** resource_signal: whoever waited first owns the resource and, through whatever queue it is met, is READY. */
    method ResourceSignal(name: string)
      requires Wired() && name in resources
      requires resources[name].enqueuedProcesses != [] ==> resources[name].enqueuedProcesses[0] in all
      modifies resources[name], all
      ensures View() == SignalAt(old(View()), name)
      ensures if old(resources[name].enqueuedProcesses) == [] then resources[name].assignedTo == null && SamePcbs({})
              else var p := old(resources[name].enqueuedProcesses[0]);
                   p.state == Ready && resources[name].assignedTo == p && SamePcbs({p})
    {
      var woken := resources[name].Signal();
      OneChanged(name);
      if woken != null {
        SetPcbState(woken, Ready);
      }
    }

    // ----- the request switch, for the running process

    method RequestIo(p: Pcb)
      requires p in all
      modifies this`sleeping, p`state
      ensures View() == OnIo(old(View()), p)
    {
      sleeping := sleeping + [p];
      assert Kept();
      SetPcbState(p, Block);
    }

    method RequestOpen(p: Pcb, filename: string, found: bool)
      requires p in all
      modifies this`globalFiles, p
      ensures View() == OnOpen(old(View()), p, filename, found) && SamePcbs({p})
      ensures if filename in old(globalFiles) then p.state == Block && p in globalFiles[filename]
              else p.state == old(p.state) && (found ==> filename in p.localFiles && globalFiles[filename] == [])
    {
      if filename in globalFiles {
        globalFiles := globalFiles[filename := globalFiles[filename] + [p]];
        assert Kept();
        SetPcbState(p, Block);
      } else if found {
        globalFiles := globalFiles[filename := []];
        assert Kept();
        SetLocalFiles(p, p.localFiles[filename := None]);
      }
    }

    /** The file goes to whoever waited first, who becomes READY; nobody waiting, its entry goes. */
    method RequestClose(p: Pcb, filename: string)
      requires p in all && (filename in globalFiles && globalFiles[filename] != [] ==> globalFiles[filename][0] in all)
      modifies this`globalFiles, all
      ensures View() == OnClose(old(View()), p, filename)
      ensures filename in old(globalFiles) ==> filename !in p.localFiles
      ensures if filename !in old(globalFiles) || old(globalFiles[filename]) == [] then SamePcbs({p})
              else var next := old(globalFiles[filename][0]);
                   next.state == Ready && SamePcbs({p, next}) && (next != p ==> filename in next.localFiles)
    {
      if filename !in globalFiles {
        return;
      }
      if globalFiles[filename] == [] {
        globalFiles := globalFiles - {filename};
        assert Kept();
      } else {
        HandOver(filename);
      }
      SetLocalFiles(p, p.localFiles - {filename});
    }

    /** The file to whoever waited first. */
    method HandOver(filename: string)
      requires filename in globalFiles && globalFiles[filename] != [] && globalFiles[filename][0] in all
      modifies this`globalFiles, all
      ensures var k, next := old(View()), old(globalFiles[filename][0]);
              View() == SetState(k, next, Ready).(files := k.files[filename := k.files[filename][1..]],
                                                  local := k.local[next := FilesOf(k, next)[filename := None]])
      ensures var next := old(globalFiles[filename][0]);
              next.state == Ready && filename in next.localFiles && SamePcbs({next})
    {
      var unlocked := globalFiles[filename][0];
      globalFiles := globalFiles[filename := globalFiles[filename][1..]];
      assert Kept();
      SetLocalFiles(unlocked, unlocked.localFiles[filename := None]);
      SetPcbState(unlocked, Ready);
    }

    method RequestSeek(p: Pcb, filename: string, position: string)
      requires p in all
      modifies p
      ensures View() == OnSeek(old(View()), p, filename, position)
    {
      if filename in p.localFiles {
        SetLocalFiles(p, p.localFiles[filename := Some(position)]);
      }
    }

    method RequestTransfer(p: Pcb, filename: string)
      requires p in all
      modifies this`fileInstructions, p
      ensures View() == OnTransfer(old(View()), p, filename)
    {
      if filename in p.localFiles {
        fileInstructions := fileInstructions + [p];
        assert Kept();
        SetPcbState(p, Block);
      }
    }

    method RequestCreateSegment(p: Pcb, first: Answer, second: Answer)
      requires p in all
      modifies p
      ensures View() == OnCreateSegment(old(View()), p, first, second)
    {
      var package := first;
      if package == CompactRequest {
        package := second;
      }
      if package == OutOfMemory {
        SetPcbState(p, Exit);
      }
    }

    method RequestYield(p: Pcb, lastBurst: real)
      requires p in all
      modifies p
      ensures View() == OnYield(old(View()), p, lastBurst)
    {
      if config.hrrn {
        SetTimes(p, p.lastReadyTime, NextBurst(config, lastBurst));
      }
    }

    method RequestWait(p: Pcb, name: string)
      requires Wired() && p in all
      modifies this`prioritizedPcb, p, ObjectsOf(resources)
      ensures View() == OnWait(old(View()), p, name) && SamePcbs({p})
      ensures if name !in resources then p.state == Exit
              else if old(resources[name].availableInstances) > 0 then
                resources[name].assignedTo == p && prioritizedPcb == p && p.state == old(p.state)
              else p.state == Block && p in resources[name].enqueuedProcesses
    {
      if name !in resources {
        SetPcbState(p, Exit);
        return;
      }
      var granted := resources[name].Wait(p);
      OneChanged(name);
      if granted {
        Prioritize(p);
      } else {
        SetPcbState(p, Block);
      }
    }

    method Prioritize(p: Pcb)
      modifies this`prioritizedPcb
      ensures prioritizedPcb == p && Kept()
    {
      prioritizedPcb := p;
    }

    method RequestSignal(p: Pcb, name: string)
      requires Wired() && p in all
      requires name in resources && resources[name].enqueuedProcesses != [] ==>
               resources[name].enqueuedProcesses[0] in all
      modifies this`prioritizedPcb, all, ObjectsOf(resources)
      ensures View() == OnSignal(old(View()), p, name)
    {
      if name !in resources {
        SetPcbState(p, Exit);
        return;
      }
      Prioritize(p);
      ResourceSignal(name);
    }

    method HandleRequest(p: Pcb, req: Request)
      requires Wired() && p in all
      requires req.FClose? && req.name in globalFiles && globalFiles[req.name] != [] ==> globalFiles[req.name][0] in all
      requires req.Signal? && req.name in resources && resources[req.name].enqueuedProcesses != [] ==>
                 resources[req.name].enqueuedProcesses[0] in all
      modifies this`prioritizedPcb, this`globalFiles, this`sleeping, this`fileInstructions, all, ObjectsOf(resources)
      ensures View() == Switch(old(View()), p, req)
    {
      match req {
        case Io => RequestIo(p);
        case FOpen(name, found) => RequestOpen(p, name, found);
        case FClose(name) => RequestClose(p, name);
        case FSeek(name, position) => RequestSeek(p, name, position);
        case FTransfer(name) => RequestTransfer(p, name);
        case CreateSegment(first, second) => RequestCreateSegment(p, first, second);
        case Yield(lastBurst) => RequestYield(p, lastBurst);
        case Wait(name) => RequestWait(p, name);
        case Signal(name) => RequestSignal(p, name);
        case ExitProcess => SetPcbState(p, Exit);
        case Other =>
      }
    }

    /** The process goes back into the active queue. */
    method Requeued(p: Pcb)
      requires p in all
      modifies this`activePcbs, this`running, this`owing, p`state
      ensures View() == Requeue(old(View()), p)
    {
      Enqueued(p);
      if p.state == Exec {
        SetPcbState(p, Ready);
      }
    }

    method Enqueued(p: Pcb)
      modifies this`activePcbs, this`running, this`owing
      ensures Kept() && activePcbs == old(activePcbs) + [p] && running == null && owing == (p.state == Exit)
    {
      activePcbs := activePcbs + [p];
      running := null;
      owing := p.state == Exit;
    }

    /** The rest of the main loop's pass, after the process came back with a request. */
    method ServeRunning(req: Request)
      requires Wired() && RequestKnown(req)
      modifies this`prioritizedPcb, this`globalFiles, this`sleeping, this`fileInstructions
      modifies this`activePcbs, this`running, this`owing, all, ObjectsOf(resources)
      ensures View() == Do(old(View()), Serve(req))
    {
      var p := running;
      HandleRequest(p, req);
      Requeued(p);
    }

    /** The objects a request meets are among the processes. */
    ghost predicate RequestKnown(req: Request)
      reads this, ObjectsOf(resources)
    {
      && running != null && running in all
      && (req.FClose? && req.name in globalFiles && globalFiles[req.name] != [] ==> globalFiles[req.name][0] in all)
      && (req.Signal? && req.name in resources && resources[req.name].enqueuedProcesses != [] ==>
            resources[req.name].enqueuedProcesses[0] in all)
    }

    lemma RequestMeets(req: Request)
      requires Valid() && running != null
      ensures RequestKnown(req)
    {
      MemberIsKnown(View(), running);
      if req.FClose? && req.name in globalFiles && globalFiles[req.name] != [] {
        QueuedIsBlocked(View(), OnFile(req.name), globalFiles[req.name][0]);
      }
      if req.Signal? && req.name in resources && resources[req.name].enqueuedProcesses != [] {
        QueuedIsBlocked(View(), OnResource(req.name), resources[req.name].enqueuedProcesses[0]);
      }
    }

    // ----- the short-term scheduler

    ghost predicate QueueKnown()
      reads this`activePcbs, this`all
    {
      forall i :: 0 <= i < |activePcbs| ==> activePcbs[i] in all
    }

    /** The first READY process, taken out of the queue. */
    method PickWithFifo() returns (pcb: Pcb?)
      requires QueueKnown()
      modifies this`activePcbs
      ensures Kept()
      ensures var i := FirstReady(old(activePcbs), StatesOf(all));
              if i == -1 then pcb == null && activePcbs == old(activePcbs)
              else pcb == old(activePcbs)[i] && activePcbs == Without(old(activePcbs), i)
    {
      ghost var queue, state := activePcbs, StatesOf(all);
      var i := 0;
      while i < |activePcbs|
        invariant 0 <= i <= |activePcbs| && activePcbs == queue && QueueKnown() && Kept()
        invariant forall j :: 0 <= j < i ==> !IsReady(state, queue[j])
      {
        if activePcbs[i].state == Ready {
          pcb := activePcbs[i];
          activePcbs := activePcbs[..i] + activePcbs[i + 1..];
          return;
        }
        i := i + 1;
      }
      pcb := null;
    }

    /** The first occurrence of the process goes from the active queue. */
    method RemoveElement(p: Pcb)
      modifies this`activePcbs
      ensures Kept() && activePcbs == RemoveFirst(old(activePcbs), p)
    {
      var i := FindElement(activePcbs, p);
      if i < |activePcbs| {
        activePcbs := activePcbs[..i] + activePcbs[i + 1..];
      }
    }

    /** Ratios of the processes of a queue, from their fields at this time. */
    ghost predicate RatiosAre(queue: seq<Pcb>, ratios: map<Pcb, real>, now: real)
      reads queue
    {
      forall i :: 0 <= i < |queue| ==>
        && queue[i].aproxBurstTime != 0.0 && queue[i] in ratios
        && ratios[queue[i]] == ResponseRatio(now, Times(queue[i].lastReadyTime, queue[i].aproxBurstTime))
    }

    /** One pass of the scan's loop. */
    method ScanNext(p: Pcb, now: real, ghost s: Scan<Pcb>,
                    next: Pcb?, highest: real, temporal: seq<Pcb>, fifo: seq<Pcb>)
      returns (next': Pcb?, highest': real, temporal': seq<Pcb>, fifo': seq<Pcb>)
      requires p in all && (next != null ==> next in all) && p.aproxBurstTime != 0.0
      requires Shows(s, next, highest, temporal, fifo)
      ensures next' == next || next' == p
      ensures var ratio := ResponseRatio(now, Times(p.lastReadyTime, p.aproxBurstTime));
              Shows(ScanOne(s, p, ratio, StatesOf(all)), next', highest', temporal', fifo')
    {
      next', highest', temporal', fifo' := next, highest, temporal, fifo;
      var ratio := ResponseRatio(now, Times(p.lastReadyTime, p.aproxBurstTime));
      if ratio > highest {
        highest' := ratio;
        if next != null && next.state == Ready {
          temporal' := temporal + [next];
        }
        next' := p;
      } else if ratio == highest {
        fifo' := fifo + [p];
      } else {
        temporal' := temporal + [p];
      }
    }

    /** Drains the active queue into two others around a running maximum. */
    method ScanActive(now: real, ghost ratios: map<Pcb, real>) returns (next: Pcb?, temporal: seq<Pcb>, fifo: seq<Pcb>)
      requires QueueKnown() && RatiosAre(activePcbs, ratios, now)
      modifies this`activePcbs
      ensures HaveRatios(old(activePcbs), ratios) && Kept() && activePcbs == []
      ensures var s := ScanAll(old(activePcbs), ratios, StatesOf(all));
              s.next == Opt(next) && s.temporal == temporal && s.ties == fifo
    {
      ghost var queue, state := activePcbs, StatesOf(all);
      ghost var s := ScanAll([], ratios, state);
      var highest := 0.0;
      next, temporal, fifo := null, [], [];
      ghost var n := 0;
      assert queue[..0] == [];
      while activePcbs != []
        invariant n <= |queue| && activePcbs == queue[n..] && StatesOf(all) == state
        invariant s == ScanAll(queue[..n], ratios, state)
        invariant Shows(s, next, highest, temporal, fifo)
        invariant next != null ==> next in all
        decreases |activePcbs|
      {
        var p := activePcbs[0];
        assert p == queue[n] && queue[..n + 1][..n] == queue[..n] && queue[n..][1..] == queue[n + 1..];
        next, highest, temporal, fifo := ScanNext(p, now, s, next, highest, temporal, fifo);
        s := ScanOne(s, p, ratios[p], state);
        activePcbs := activePcbs[1..];
        n := n + 1;
      }
      assert queue[..n] == queue;
    }

    /** Fills the empty active queue from the two others. */
    method Refill(temporal: seq<Pcb>, fifo: seq<Pcb>)
      requires activePcbs == []
      modifies this`activePcbs
      ensures Kept() && activePcbs == temporal + fifo
    {
      var temporal', fifo' := temporal, fifo;
      while fifo' != []
        invariant temporal' + fifo' == temporal + fifo
        decreases |fifo'|
      {
        temporal', fifo' := temporal' + [fifo'[0]], fifo'[1..];
      }
      while temporal' != []
        invariant activePcbs + temporal' == temporal + fifo && Kept()
        decreases |temporal'|
      {
        activePcbs, temporal' := activePcbs + [temporal'[0]], temporal'[1..];
      }
    }

    /** The scan: the best, and the queue rebuilt without those it loses. */
    method ScanQueue(now: real, ghost ratios: map<Pcb, real>) returns (next: Pcb?)
      requires QueueKnown() && RatiosAre(activePcbs, ratios, now)
      modifies this`activePcbs
      ensures Kept() && HaveRatios(old(activePcbs), ratios)
      ensures var s := ScanAll(old(activePcbs), ratios, StatesOf(all));
              s.next == Opt(next) && activePcbs == s.temporal + s.ties
    {
      var temporal, fifo;
      next, temporal, fifo := ScanActive(now, ratios);
      Refill(temporal, fifo);
    }

    /**
     Takes the process of the highest response ratio; of those it passes over, only READY ones come
     back into the queue.
     */
    method PickByScan(now: real, ghost ratios: map<Pcb, real>) returns (pcb: Pcb?)
      requires QueueKnown() && RatiosAre(activePcbs, ratios, now)
      requires exists i :: 0 <= i < |activePcbs| && ratios[activePcbs[i]] > 0.0
      modifies this`activePcbs, all
      ensures SameButTimes() && HaveRatios(old(activePcbs), ratios)
      ensures (Opt(pcb), activePcbs) == PickHrrn(old(activePcbs), ratios, StatesOf(all))
      ensures TimesOf(all) == Stamp(old(TimesOf(all)), ScanAll(old(activePcbs), ratios, StatesOf(all)).next, now)
      ensures pcb != null ==> pcb in all
    {
      ScanPicks(activePcbs, ratios, StatesOf(all));
      var next := ScanQueue(now, ratios);
      SetTimes(next, now, next.aproxBurstTime);
      pcb := if next.state == Ready then next else null;
    }

    /** What choosing a process leaves of the objects' fields. */
    twostate predicate SameButTimes()
      reads this`all, all, ObjectsOf(resources)
    {
      && all == old(all) && StatesOf(all) == old(StatesOf(all)) && LocalsOf(all) == old(LocalsOf(all))
      && ValuesOf(resources) == old(ValuesOf(resources))
    }

    method PickWithHrrn(now: real) returns (pcb: Pcb?)
      requires QueueKnown()
      requires |activePcbs| >= 2 ==>
               Timed(View()) && exists i :: 0 <= i < |activePcbs| && Ratios(View(), now)[activePcbs[i]] > 0.0
      modifies this`activePcbs, all
      ensures SameButTimes() && (pcb != null ==> pcb in all)
      ensures Choice(Opt(pcb), activePcbs, TimesOf(all))
           == if |old(activePcbs)| >= 2 then ChooseScan(old(View()), Ratios(old(View()), now), now)
             else ChooseFirst(old(View()))
    {
      if activePcbs == [] {
        return null;
      }
      if |activePcbs| == 1 {
        pcb := PickOnly();
        return;
      }
      pcb := PickByScan(now, Ratios(View(), now));
    }

    method PickOnly() returns (pcb: Pcb?)
      requires QueueKnown() && |activePcbs| == 1
      modifies this`activePcbs
      ensures Kept() && (pcb != null ==> pcb in all)
      ensures Choice(Opt(pcb), activePcbs, TimesOf(all)) == ChooseFirst(old(View()))
    {
      pcb := activePcbs[0];
      if pcb.state == Ready {
        activePcbs := activePcbs[1..];
      } else {
        pcb := null;
      }
    }

    /** The process with priority, if there is one, otherwise the algorithm's choice. */
    method ShortTermScheduler(now: real) returns (pcb: Pcb?)
      requires QueueKnown() && (prioritizedPcb != null ==> prioritizedPcb in all)
      requires Scans(View()) ==>
               Timed(View()) && exists i :: 0 <= i < |activePcbs| && Ratios(View(), now)[activePcbs[i]] > 0.0
      modifies this`activePcbs, this`prioritizedPcb, all
      ensures pcb != null ==> pcb in all
      ensures var k := old(View()); var c := Choose(k, now);
              Opt(pcb) == c.pcb && View() == k.(active := c.rest, times := c.times, prioritized := None)
    {
      pcb := PickNext(now);
    }

    method PickNext(now: real) returns (pcb: Pcb?)
      requires QueueKnown() && (prioritizedPcb != null ==> prioritizedPcb in all)
      requires Scans(View()) ==>
               Timed(View()) && exists i :: 0 <= i < |activePcbs| && Ratios(View(), now)[activePcbs[i]] > 0.0
      modifies this`activePcbs, this`prioritizedPcb, all
      ensures SameButTimes() && prioritizedPcb == null && (pcb != null ==> pcb in all)
      ensures Choice(Opt(pcb), activePcbs, TimesOf(all)) == Choose(old(View()), now)
    {
      if prioritizedPcb != null {
        pcb := TakePrioritized();
      } else if config.hrrn {
        pcb := PickWithHrrn(now);
      } else {
        pcb := PickWithFifo();
      }
    }

    method TakePrioritized() returns (pcb: Pcb)
      requires prioritizedPcb != null
      modifies this`activePcbs, this`prioritizedPcb
      ensures Kept() && pcb == old(prioritizedPcb) && prioritizedPcb == null
      ensures activePcbs == RemoveFirst(old(activePcbs), pcb)
    {
      pcb := prioritizedPcb;
      prioritizedPcb := null;
      RemoveElement(pcb);
    }

    /** The start of the main loop's pass. */
    method DispatchNext(now: real)
      requires QueueKnown() && (prioritizedPcb != null ==> prioritizedPcb in all)
      requires Scans(View()) ==>
               Timed(View()) && exists i :: 0 <= i < |activePcbs| && Ratios(View(), now)[activePcbs[i]] > 0.0
      modifies this`activePcbs, this`prioritizedPcb, this`running, all
      ensures View() == Dispatched(old(View()), now)
    {
      var pcb := ShortTermScheduler(now);
      SetRunning(pcb);
    }

    method SetRunning(p: Pcb?)
      requires p != null ==> p in all
      modifies this`running, all
      ensures View() == if p == null then old(View()) else SetState(old(View()), p, Exec).(running := Some(p))
    {
      if p != null {
        running := p;
        assert Kept();
        SetPcbState(p, Exec);
      }
    }

    lemma QueueIsKnown()
      requires Valid()
      ensures QueueKnown() && (prioritizedPcb != null ==> prioritizedPcb in all)
    {
      forall i | 0 <= i < |activePcbs| ensures activePcbs[i] in all {
        MemberIsKnown(View(), activePcbs[i]);
      }
    }

    // ----- the long-term scheduler

    /** Takes the process out of the resource's queue. */
    method PurgeQueue(p: Pcb, name: string)
      requires Wired() && name in resources
      modifies resources[name]
      ensures var k, r := old(View()), old(resources[name].Value());
              View() == k.(resources := k.resources[name := r.(waiting := Purge(r.waiting, p, 0))])
    {
      resources[name].Purge(p);
      OneChanged(name);
    }

    method ReleaseResource(p: Pcb, name: string)
      requires Wired() && WaitersKnown(View())
      modifies all, ObjectsOf(resources)
      ensures View() == ReleaseOne(old(View()), p, name) && WaitersKnown(View())
    {
      if name in resources {
        assert SomeOf(View().resources[name].waiting, View().state.Keys);
        if resources[name].assignedTo == p {
          ResourceSignal(name);
        }
        PurgeQueue(p, name);
      }
      ReleaseKnown(old(View()), p, name);
    }

    /** Each resource the process owns is signalled, and the process waits for none. */
    method ReleaseResources(p: Pcb)
      requires Wired() && WaitersKnown(View())
      modifies all, ObjectsOf(resources)
      ensures View() == ReleaseAll(old(View()), p, config.names) && WaitersKnown(View())
    {
      ghost var k := View();
      var i := 0;
      while i < |config.names|
        invariant 0 <= i <= |config.names| && WaitersKnown(View()) && View() == ReleaseAll(k, p, config.names[..i])
      {
        assert config.names[..i + 1][..i] == config.names[..i];
        ReleaseResource(p, config.names[i]);
        i := i + 1;
      }
      assert config.names[..i] == config.names;
    }

    /** Takes out the process at `i`, which has exited. */
    method RemoveFinished(i: nat)
      requires Wired() && WaitersKnown(View()) && QueueKnown() && i < |activePcbs|
      modifies this`activePcbs, this`finished, all, ObjectsOf(resources)
      ensures View() == Finish(old(View()), i) && WaitersKnown(View()) && QueueKnown()
    {
      var p := activePcbs[i];
      activePcbs := activePcbs[..i] + activePcbs[i + 1..];
      assert Kept();
      ReleaseResources(p);
      FreePcb(p);
    }

    method FreePcb(p: Pcb)
      requires p in all
      modifies this`finished, p
      ensures View() == old(View()).(finished := old(finished) + {p}, local := old(View()).local[p := map[]])
    {
      finished := finished + {p};
      assert Kept();
      SetLocalFiles(p, map[]);
    }

    method ReapFinished()
      requires Wired() && WaitersKnown(View()) && QueueKnown()
      modifies this`activePcbs, this`finished, all, ObjectsOf(resources)
      ensures View() == Reap(old(View()), 0)
    {
      ghost var k := View();
      var i := 0;
      while i < |activePcbs|
        invariant 0 <= i && WaitersKnown(View()) && QueueKnown() && Reap(View(), i) == Reap(k, 0)
        decreases |activePcbs| - i
      {
        if activePcbs[i].state == Exit {
          RemoveFinished(i);
        }
        i := i + 1;
      }
    }

    /** At most one process moves from new to active. */
    method AdmitOne()
      requires newPcbs != [] ==> newPcbs[0] in all
      modifies this`newPcbs, this`activePcbs, all
      ensures View() == Admit(old(View()))
    {
      if |activePcbs| < config.max && newPcbs != [] {
        var p := newPcbs[0];
        newPcbs := newPcbs[1..];
        activePcbs := activePcbs + [p];
        assert Kept();
        SetPcbState(p, Ready);
      }
    }

    method LongTermSchedule(byMain: bool)
      requires Wired() && WaitersKnown(View()) && QueueKnown() && (newPcbs != [] ==> newPcbs[0] in all)
      modifies this, all, ObjectsOf(resources)
      ensures all == old(all) && View() == Do(old(View()), Reschedule(byMain))
    {
      ReapFinished();
      AdmitOne();
      SetOwing(byMain);
    }

    method SetOwing(byMain: bool)
      modifies this`owing
      ensures View() == old(View()).(owing := old(owing) && !byMain)
    {
      owing := owing && !byMain;
      assert Kept();
    }

    // ----- the helper threads

    /** A console's new process; the console then calls the long-term scheduler. */
    method HandleNewProcess(p: Pcb, now: real)
      requires p !in all
      modifies this`all, this`newPcbs, p
      ensures all == old(all) + {p} && View() == Do(old(View()), Arrive(p, now))
    {
      newPcbs := newPcbs + [p];
      assert Kept();
      NewPcb(p, now);
    }

    method NewPcb(p: Pcb, now: real)
      requires p !in all
      modifies this`all, p
      ensures all == old(all) + {p} && StatesOf(all) == old(StatesOf(all))[p := New]
      ensures LocalsOf(all) == old(LocalsOf(all))[p := map[]]
      ensures TimesOf(all) == old(TimesOf(all))[p := Times(now, config.defaultBurst)]
      ensures ValuesOf(resources) == old(ValuesOf(resources))
    {
      p.Start(now, config.defaultBurst);
      all := all + {p};
    }

    /** An I/O thread after its sleep. */
    method HandlePcbIo(p: Pcb)
      requires p in all
      modifies this`sleeping, p
      ensures View() == Do(old(View()), IoDone(p))
    {
      sleeping := RemoveFirst(sleeping, p);
      assert Kept();
      SetPcbState(p, Ready);
    }

    /** The filesystem thread takes the next transfer. */
    method TakeTransfer()
      requires fileInstructions != []
      modifies this`serving, this`fileInstructions
      ensures View() == Do(old(View()), FsTake)
    {
      serving := fileInstructions[0];
      fileInstructions := fileInstructions[1..];
      assert Kept();
    }

    /** The filesystem's answer; after an error the process stays in BLOCK. */
    method HandleFs(ok: bool)
      requires serving != null && serving in all
      modifies this`serving, this`stuck, all
      ensures View() == Do(old(View()), FsReply(ok))
    {
      var p := EndTransfer(ok);
      if ok {
        SetPcbState(p, Ready);
      }
    }

    method EndTransfer(ok: bool) returns (p: Pcb)
      requires serving != null
      modifies this`serving, this`stuck
      ensures p == old(serving) && serving == null && Kept()
      ensures stuck == if ok then old(stuck) else old(stuck) + [p]
    {
      p := serving;
      serving := null;
      if !ok {
        stuck := stuck + [p];
      }
    }

    // ----- the threads together

    /** The objects a step meets are among the processes. */
    ghost predicate Meets(step: Step<Pcb>)
      reads this, all, ObjectsOf(resources)
    {
      match step
      case Arrive(p, _) => p !in all
      case Reschedule(_) => WaitersKnown(View()) && QueueKnown() && (newPcbs != [] ==> newPcbs[0] in all)
      case Dispatch(_) => QueueKnown() && (prioritizedPcb != null ==> prioritizedPcb in all)
      case Serve(req) => RequestKnown(req)
      case IoDone(p) => p in all
      case FsTake => true
      case FsReply(_) => serving != null && serving in all
    }

    lemma ThreadMeets(step: Step<Pcb>)
      requires Valid() && Legal(View(), step)
      ensures Meets(step)
    {
      match step
      case Arrive(p, _) =>
      case Reschedule(_) =>
        QueueIsKnown();
        WaitersAreKnown();
        if newPcbs != [] {
          MemberIsKnown(View(), newPcbs[0]);
        }
      case Dispatch(_) => QueueIsKnown();
      case Serve(req) => RequestMeets(req);
      case IoDone(p) => QueuedIsBlocked(View(), Sleep, p);
      case FsTake =>
      case FsReply(_) => QueuedIsBlocked(View(), Serving, serving);
    }

    lemma WaitersAreKnown()
      requires Valid()
      ensures WaitersKnown(View())
    {
      forall name, i | name in resources && 0 <= i < |resources[name].enqueuedProcesses|
        ensures resources[name].enqueuedProcesses[i] in all
      {
        QueuedIsBlocked(View(), OnResource(name), resources[name].enqueuedProcesses[i]);
      }
    }

    method CarryOut(step: Step<Pcb>)
      requires Wired() && Legal(View(), step) && Meets(step)
      modifies this, all, ObjectsOf(resources), Arriving(step)
      ensures View() == Do(old(View()), step) && all == old(all) + Arriving(step)
    {
      match step {
        case Arrive(p, now) => HandleNewProcess(p, now);
        case Reschedule(byMain) => LongTermSchedule(byMain);
        case Dispatch(now) => DispatchNext(now);
        case Serve(req) => ServeRunning(req);
        case IoDone(p) => HandlePcbIo(p);
        case FsTake => TakeTransfer();
        case FsReply(ok) => HandleFs(ok);
      }
    }

    /** One step of one of the threads. */
    method Take(step: Step<Pcb>)
      requires Valid() && Legal(View(), step)
      modifies this, all, ObjectsOf(resources), Arriving(step)
      ensures Valid() && View() == Do(old(View()), step) && all == old(all) + Arriving(step)
    {
      StepKeepsCore(View(), step);
      ThreadMeets(step);
      CarryOut(step);
    }

    /** Any interleaving of the threads' steps. */
    method Interleave(steps: seq<Step<Pcb>>)
      requires Valid() && Runs(View(), steps)
      modifies this, all, ObjectsOf(resources), Arrivals(steps)
      ensures Valid() && View() == After(old(View()), steps)
    {
      ghost var k := View();
      var i := 0;
      while i < |steps|
        invariant 0 <= i <= |steps|
        invariant all <= old(all) + Arrivals(steps)
        invariant Valid() && Runs(View(), steps[i..]) && After(View(), steps[i..]) == After(k, steps)
      {
        assert steps[i..][1..] == steps[i + 1..];
        Take(steps[i]);
        i := i + 1;
      }
    }
  }

  /** The control blocks a step brings in. */
  function Arriving(step: Step<Pcb>): set<Pcb> {
    match step
    case Arrive(p, _) => {p}
    case _ => {}
  }

  function Arrivals(steps: seq<Step<Pcb>>): set<Pcb> {
    set step, p | step in steps && p in Arriving(step) :: p
  }

  /** Whoever waits for a resource is a process. */
  ghost predicate WaitersKnown<P>(k: Kernel<P>) {
    forall name :: name in k.resources ==> SomeOf(k.resources[name].waiting, k.state.Keys)
  }

  ghost predicate SomeOf<P>(queue: seq<P>, ps: set<P>) {
    forall i :: 0 <= i < |queue| ==> queue[i] in ps
  }

  lemma {:induction false} PurgeKnown<P>(queue: seq<P>, p: P, j: nat, ps: set<P>)
    requires SomeOf(queue, ps)
    ensures SomeOf(Purge(queue, p, j), ps)
    decreases |queue| - j
  {
    if j < |queue| {
      PurgeKnown(if queue[j] == p then Without(queue, j) else queue, p, j + 1, ps);
    }
  }

  lemma ReleaseKnown<P>(k: Kernel<P>, p: P, name: string)
    requires WaitersKnown(k)
    ensures WaitersKnown(ReleaseOne(k, p, name)) && ReleaseOne(k, p, name).state.Keys == k.state.Keys
  {
    if name in k.resources {
      var waiting := k.resources[name].waiting;
      PurgeKnown(waiting, p, 0, k.state.Keys);
      if waiting != [] {
        PurgeKnown(waiting[1..], p, 0, k.state.Keys);
      }
    }
  }
}
