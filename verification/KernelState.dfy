/**
 The kernel's state by value and its steps: what one pass of the main loop, of a console
 thread, of an I/O thread or of the filesystem thread changes. `P` identifies a control block.
 */
module KernelState {
  import opened Options
  import opened Scheduling

  /** What happened at a resource so far; the code does not keep it. */
  datatype Tally<P> = Tally(initial: int, grants: nat, released: nat, blocked: seq<P>, woken: seq<P>)

  datatype Resource<P> = Resource(available: int, owner: Option<P>, waiting: seq<P>, tally: Tally<P>)

  datatype Times = Times(lastReady: real, burst: real)

  datatype Config = Config(hrrn: bool, max: int, alfa: real, defaultBurst: real, names: seq<string>)

  /**
   `entrants` are the PCBs in NEW. `sleeping` are those an I/O thread sleeps for; `transfers`
   wait for the filesystem thread, which is busy with `serving`; `stuck` are those whose
   transfer failed. `finished` were reaped. After a process exits, the main loop owes a pass
   of the long-term scheduler.
   */
  datatype Kernel<P> = Kernel(
    config: Config, state: map<P, State>, local: map<P, map<string, Option<string>>>, times: map<P, Times>,
    entrants: seq<P>, active: seq<P>, running: Option<P>, finished: set<P>, prioritized: Option<P>, owing: bool,
    resources: map<string, Resource<P>>, files: map<string, seq<P>>,
    sleeping: seq<P>, transfers: seq<P>, serving: Option<P>, stuck: seq<P>)

  /** Memory's answer to a request for a segment. */
  datatype Answer = Made | OutOfMemory | CompactRequest | Unknown

  /** What the process asks of the kernel, with what other modules answer. */
  datatype Request =
    | Io
    | FOpen(name: string, found: bool)
    | FClose(name: string)
    | FSeek(name: string, position: string)
    | FTransfer(name: string)
    | CreateSegment(first: Answer, second: Answer)
    | Yield(lastBurst: real)
    | Wait(name: string)
    | Signal(name: string)
    | ExitProcess
    | Other

  datatype Step<P> =
    | Arrive(p: P, now: real)
    | Reschedule(byMain: bool)
    | Dispatch(now: real)
    | Serve(req: Request)
    | IoDone(p: P)
    | FsTake
    | FsReply(ok: bool)

  // ----- control blocks

  function StateOf<P(==)>(k: Kernel<P>, p: P): State {
    if p in k.state then k.state[p] else New
  }

  function FilesOf<P(==)>(k: Kernel<P>, p: P): map<string, Option<string>> {
    if p in k.local then k.local[p] else map[]
  }

  function SetState<P(==)>(k: Kernel<P>, p: P, s: State): Kernel<P> {
    k.(state := k.state[p := s])
  }

  function RemoveFirst<P(==)>(s: seq<P>, p: P): seq<P> {
    if s == [] then [] else if s[0] == p then s[1..] else [s[0]] + RemoveFirst(s[1..], p)
  }

  // ----- resources

  /** resource_signal: the first waiter becomes the owner, or one instance more is available. */
  function SignalOne<P>(r: Resource<P>): Resource<P> {
    if r.waiting != [] then
      r.(owner := Some(r.waiting[0]), waiting := r.waiting[1..],
        tally := r.tally.(woken := r.tally.woken + [r.waiting[0]]))
    else
      r.(available := r.available + 1, owner := None, tally := r.tally.(released := r.tally.released + 1))
  }

  function SignalAt<P(==)>(k: Kernel<P>, name: string): (k': Kernel<P>)
    requires name in k.resources
  {
    var r := k.resources[name];
    k.(state := if r.waiting != [] then k.state[r.waiting[0] := Ready] else k.state,
       resources := k.resources[name := SignalOne(r)])
  }

  function Grant<P>(r: Resource<P>, p: P): Resource<P> {
    r.(available := r.available - 1, owner := Some(p), tally := r.tally.(grants := r.tally.grants + 1))
  }

  function Enqueue<P>(r: Resource<P>, p: P): Resource<P> {
    r.(waiting := r.waiting + [p], tally := r.tally.(blocked := r.tally.blocked + [p]))
  }

  // ----- the request switch, for the running process

  function OnIo<P(==)>(k: Kernel<P>, p: P): Kernel<P> {
    SetState(k, p, Block).(sleeping := k.sleeping + [p])
  }

  function OnOpen<P(==)>(k: Kernel<P>, p: P, name: string, found: bool): Kernel<P> {
    if name in k.files then SetState(k, p, Block).(files := k.files[name := k.files[name] + [p]])
    else if found then k.(files := k.files[name := []], local := k.local[p := FilesOf(k, p)[name := None]])
    else k
  }

  function OnClose<P(==)>(k: Kernel<P>, p: P, name: string): Kernel<P> {
    if name !in k.files then k
    else if k.files[name] == [] then k.(files := k.files - {name}, local := k.local[p := FilesOf(k, p) - {name}])
    else
      var next := k.files[name][0];
      var handed := SetState(k, next, Ready).(files := k.files[name := k.files[name][1..]],
                                              local := k.local[next := FilesOf(k, next)[name := None]]);
      handed.(local := handed.local[p := FilesOf(handed, p) - {name}])
  }

  function OnSeek<P(==)>(k: Kernel<P>, p: P, name: string, position: string): Kernel<P> {
    if name in FilesOf(k, p) then k.(local := k.local[p := FilesOf(k, p)[name := Some(position)]]) else k
  }

  function OnTransfer<P(==)>(k: Kernel<P>, p: P, name: string): Kernel<P> {
    if name in FilesOf(k, p) then SetState(k, p, Block).(transfers := k.transfers + [p]) else k
  }

  function OnCreateSegment<P(==)>(k: Kernel<P>, p: P, first: Answer, second: Answer): Kernel<P> {
    if (if first == CompactRequest then second else first) == OutOfMemory then SetState(k, p, Exit) else k
  }

  /**
   The estimate after a burst; the last burst of a control block is never set, so the first formula
   is always used.
   */
  function NextBurst(config: Config, lastBurst: real): real {
    config.alfa * config.defaultBurst + (1.0 - config.alfa) * lastBurst
  }

  function OnYield<P(==)>(k: Kernel<P>, p: P, lastBurst: real): Kernel<P> {
    if k.config.hrrn && p in k.times then
      k.(times := k.times[p := k.times[p].(burst := NextBurst(k.config, lastBurst))])
    else k
  }

  function OnWait<P(==)>(k: Kernel<P>, p: P, name: string): Kernel<P> {
    if name !in k.resources then SetState(k, p, Exit)
    else
      var r := k.resources[name];
      if r.available > 0 then k.(resources := k.resources[name := Grant(r, p)], prioritized := Some(p))
      else SetState(k, p, Block).(resources := k.resources[name := Enqueue(r, p)])
  }

  function OnSignal<P(==)>(k: Kernel<P>, p: P, name: string): Kernel<P> {
    if name !in k.resources then SetState(k, p, Exit)
    else SignalAt(k, name).(prioritized := Some(p))
  }

  function Switch<P(==)>(k: Kernel<P>, p: P, req: Request): Kernel<P> {
    match req
    case Io => OnIo(k, p)
    case FOpen(name, found) => OnOpen(k, p, name, found)
    case FClose(name) => OnClose(k, p, name)
    case FSeek(name, position) => OnSeek(k, p, name, position)
    case FTransfer(name) => OnTransfer(k, p, name)
    case CreateSegment(first, second) => OnCreateSegment(k, p, first, second)
    case Yield(lastBurst) => OnYield(k, p, lastBurst)
    case Wait(name) => OnWait(k, p, name)
    case Signal(name) => OnSignal(k, p, name)
    case ExitProcess => SetState(k, p, Exit)
    case Other => k
  }

  /** The end of the main loop's pass: back into the active queue, READY if nothing else was decided. */
  function Requeue<P(==)>(k: Kernel<P>, p: P): Kernel<P> {
    k.(active := k.active + [p], running := None, owing := StateOf(k, p) == Exit,
       state := if StateOf(k, p) == Exec then k.state[p := Ready] else k.state)
  }

  // ----- the short-term scheduler

  function Start<P(==)>(k: Kernel<P>, p: P, rest: seq<P>): Kernel<P> {
    SetState(k, p, Exec).(active := rest, running := Some(p), prioritized := None)
  }

  predicate Timed<P>(k: Kernel<P>) {
    forall i :: 0 <= i < |k.active| ==> k.active[i] in k.times && k.times[k.active[i]].burst != 0.0
  }

  function ResponseRatio(now: real, t: Times): real
    requires t.burst != 0.0
  {
    (now - t.lastReady + t.burst) / t.burst
  }

  function Ratios<P(==)>(k: Kernel<P>, now: real): (m: map<P, real>)
    requires Timed(k)
    ensures HaveRatios(k.active, m)
  {
    map p | p in k.active :: ResponseRatio(now, k.times[p])
  }

  /** The scan takes place: nobody has priority, and there is a choice. */
  predicate Scans<P(==)>(k: Kernel<P>) {
    k.prioritized.None? && k.config.hrrn && |k.active| >= 2
  }

  /** What the short-term scheduler returns, and what it leaves of the queue and the times. */
  datatype Choice<P> = Choice(pcb: Option<P>, rest: seq<P>, times: map<P, Times>)

  function Stamp<P(==)>(times: map<P, Times>, p: Option<P>, now: real): map<P, Times> {
    if p.Some? && p.value in times then times[p.value := times[p.value].(lastReady := now)] else times
  }

  function ChooseFirst<P(==)>(k: Kernel<P>): Choice<P> {
    var i := FirstReady(k.active, k.state);
    if i == -1 then Choice(None, k.active, k.times) else Choice(Some(k.active[i]), Without(k.active, i), k.times)
  }

  function ChooseScan<P(==)>(k: Kernel<P>, ratios: map<P, real>, now: real): Choice<P>
    requires HaveRatios(k.active, ratios)
  {
    var (p, rest) := PickHrrn(k.active, ratios, k.state);
    Choice(p, rest, Stamp(k.times, ScanAll(k.active, ratios, k.state).next, now))
  }

  function Choose<P(==)>(k: Kernel<P>, now: real): Choice<P>
    requires Scans(k) ==> Timed(k)
  {
    if k.prioritized.Some? then Choice(k.prioritized, RemoveFirst(k.active, k.prioritized.value), k.times)
    else if Scans(k) then ChooseScan(k, Ratios(k, now), now)
    else ChooseFirst(k)
  }

  function Chosen<P(==)>(k: Kernel<P>, c: Choice<P>): Kernel<P> {
    if c.pcb.Some? then Start(k, c.pcb.value, c.rest).(times := c.times) else k.(active := c.rest, times := c.times)
  }

  function Dispatched<P(==)>(k: Kernel<P>, now: real): Kernel<P>
    requires Scans(k) ==> Timed(k)
  {
    Chosen(k, Choose(k, now))
  }

  // ----- the long-term scheduler

  /** Takes `p` out of a queue the way the loop does: past each removal it skips one element. */
  function Purge<P(==)>(list: seq<P>, p: P, j: nat): seq<P>
    decreases |list| - j
  {
    if j >= |list| then list
    else if list[j] == p then Purge(Without(list, j), p, j + 1)
    else Purge(list, p, j + 1)
  }

  function ReleaseOne<P(==)>(k: Kernel<P>, p: P, name: string): (k': Kernel<P>)
    ensures k' == k.(state := k'.state, resources := k'.resources)
  {
    if name !in k.resources then k
    else
      var signalled := if k.resources[name].owner == Some(p) then SignalAt(k, name) else k;
      var r := signalled.resources[name];
      signalled.(resources := signalled.resources[name := r.(waiting := Purge(r.waiting, p, 0))])
  }

  function ReleaseAll<P(==)>(k: Kernel<P>, p: P, names: seq<string>): (k': Kernel<P>)
    ensures k' == k.(state := k'.state, resources := k'.resources)
  {
    if names == [] then k
    else
      var n := |names| - 1;
      ReleaseOne(ReleaseAll(k, p, names[..n]), p, names[n])
  }

  /** The process at `i` is taken out, its resources are released and its control block goes. */
  function Finish<P(==)>(k: Kernel<P>, i: nat): (k': Kernel<P>)
    requires i < |k.active|
    ensures k'.active == Without(k.active, i)
  {
    var p := k.active[i];
    var released := ReleaseAll(k.(active := Without(k.active, i)), p, k.config.names);
    released.(finished := k.finished + {p}, local := k.local[p := map[]])
  }

  /** Past each process it takes out, the loop skips one. */
  function Reap<P(==)>(k: Kernel<P>, i: nat): Kernel<P>
    decreases |k.active| - i
  {
    if i >= |k.active| then k
    else if StateOf(k, k.active[i]) == Exit then Reap(Finish(k, i), i + 1)
    else Reap(k, i + 1)
  }

  function Admit<P(==)>(k: Kernel<P>): Kernel<P> {
    if |k.active| < k.config.max && k.entrants != [] then
      SetState(k, k.entrants[0], Ready).(entrants := k.entrants[1..], active := k.active + [k.entrants[0]])
    else k
  }

  function LongTerm<P(==)>(k: Kernel<P>): Kernel<P> {
    Admit(Reap(k, 0))
  }

  // ----- steps

  /** When a thread takes the step: what it waits for, and what the scan needs so as to find anybody. */
  predicate Legal<P(==)>(k: Kernel<P>, step: Step<P>) {
    match step
    case Arrive(p, _) => p !in k.state
    case Reschedule(byMain) => byMain ==> k.owing
    case Dispatch(now) =>
      && !k.owing && k.running.None?
      && (Scans(k) ==> Timed(k) && exists i :: 0 <= i < |k.active| && Ratios(k, now)[k.active[i]] > 0.0)
    case Serve(req) =>
      k.running.Some? && (req.CreateSegment? && req.first == CompactRequest ==> k.transfers == [])
    case IoDone(p) => p in k.sleeping
    case FsTake => k.transfers != [] && k.serving.None?
    case FsReply(_) => k.serving.Some?
  }

  function Do<P(==)>(k: Kernel<P>, step: Step<P>): Kernel<P>
    requires match step
             case Dispatch(_) => Scans(k) ==> Timed(k)
             case Serve(_) => k.running.Some?
             case FsTake => k.transfers != []
             case FsReply(_) => k.serving.Some?
             case _ => true
  {
    match step
    case Arrive(p, now) =>
      k.(state := k.state[p := New], local := k.local[p := map[]],
        times := k.times[p := Times(now, k.config.defaultBurst)],
         entrants := k.entrants + [p])
    case Reschedule(byMain) => LongTerm(k).(owing := k.owing && !byMain)
    case Dispatch(now) => Dispatched(k, now)
    case Serve(req) => Requeue(Switch(k, k.running.value, req), k.running.value)
    case IoDone(p) => SetState(k, p, Ready).(sleeping := RemoveFirst(k.sleeping, p))
    case FsTake => k.(serving := Some(k.transfers[0]), transfers := k.transfers[1..])
    case FsReply(ok) =>
      if ok then SetState(k, k.serving.value, Ready).(serving := None)
      else k.(serving := None, stuck := k.stuck + [k.serving.value])
  }
}
