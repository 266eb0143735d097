/** The long-term scheduler: taking out processes that exited, releasing what they own, admitting one. */
module KernelReaping {
  import opened Options
  import opened Scheduling
  import opened WaitQueues
  import opened KernelState
  import opened KernelInvariant
  import opened KernelSteps

  // ----- releasing what an exited process owns

  predicate OwnsNone<P(==)>(k: Kernel<P>, p: P, names: seq<string>) {
    forall name :: name in names && name in k.resources ==> k.resources[name].owner != Some(p)
  }

  /** Only waiters were woken. */
  ghost predicate OnlyWoke<P>(k: Kernel<P>, k': Kernel<P>) {
    && k'.state.Keys == k.state.Keys && k'.resources.Keys == k.resources.Keys
    && k' == k.(state := k'.state, resources := k'.resources)
    && forall q :: q in k.state ==> k'.state[q] == k.state[q] || (k.state[q] == Block && k'.state[q] == Ready)
  }

  lemma {:induction false} PurgeAbsent<P>(list: seq<P>, p: P, j: nat)
    requires p !in list
    ensures Purge(list, p, j) == list
    decreases |list| - j
  {
    if j < |list| {
      PurgeAbsent(list, p, j + 1);
    }
  }

  lemma ReleaseIs<P>(k: Kernel<P>, p: P, name: string)
    requires WaitsOk(k) && StateOf(k, p) != Block && name in k.resources
    ensures ReleaseOne(k, p, name) == if k.resources[name].owner == Some(p) then SignalAt(k, name) else k
  {
    var r := k.resources[name];
    if p in r.waiting {
      QueuedIsBlocked(k, OnResource(name), p);
    }
    assert p !in r.waiting;
    var signalled := if r.owner == Some(p) then SignalAt(k, name) else k;
    PurgeAbsent(signalled.resources[name].waiting, p, 0);
  }

  lemma HeadWakes<P>(k: Kernel<P>, name: string)
    requires WaitsOk(k) && name in k.resources
    ensures OnlyWoke(k, SignalAt(k, name))
    ensures k.resources[name].waiting != [] ==> StateOf(k, k.resources[name].waiting[0]) == Block
  {
    if k.resources[name].waiting != [] {
      QueuedIsBlocked(k, OnResource(name), k.resources[name].waiting[0]);
    }
  }

  lemma ReleaseOneKeeps<P>(k: Kernel<P>, p: P, name: string, names: seq<string>)
    requires WaitsOk(k) && StateOf(k, p) == Exit && ResourcesOk(k) && OwnsNone(k, p, names)
    requires forall q :: q in Blocked(k) ==> Present(k, q)
    ensures var k' := ReleaseOne(k, p, name);
            WaitsOk(k') && ResourcesOk(k') && OwnsNone(k', p, names + [name]) && OnlyWoke(k, k')
  {
    if name in k.resources {
      ReleaseIs(k, p, name);
      if k.resources[name].owner == Some(p) {
        HeadWakes(k, name);
        SignalWaits(k, name);
        SignalResources(k, name);
      }
    }
  }

  lemma OnlyWokeTwice<P>(a: Kernel<P>, b: Kernel<P>, c: Kernel<P>)
    requires OnlyWoke(a, b) && OnlyWoke(b, c)
    ensures OnlyWoke(a, c)
  {
  }

  lemma StillPresent<P>(k: Kernel<P>, k': Kernel<P>)
    requires OnlyWoke(k, k') && forall q :: q in Blocked(k) ==> Present(k, q)
    ensures forall q :: q in Blocked(k') ==> Present(k', q)
  {
    forall q | q in Blocked(k') ensures q in Blocked(k) {
    }
  }

  lemma {:induction false} ReleaseAllKeeps<P>(k: Kernel<P>, p: P, names: seq<string>)
    requires WaitsOk(k) && p in k.state && k.state[p] == Exit && ResourcesOk(k)
    requires forall q :: q in Blocked(k) ==> Present(k, q)
    ensures var k' := ReleaseAll(k, p, names);
            WaitsOk(k') && ResourcesOk(k') && OwnsNone(k', p, names) && OnlyWoke(k, k')
    decreases names
  {
    if names != [] {
      var n := |names| - 1;
      ReleaseAllKeeps(k, p, names[..n]);
      var k1 := ReleaseAll(k, p, names[..n]);
      StillPresent(k, k1);
      ReleaseOneKeeps(k1, p, names[n], names[..n]);
      OnlyWokeTwice(k, k1, ReleaseAll(k, p, names));
      assert names == names[..n] + [names[n]];
    }
  }

  /** What releasing for `p` makes of a resource: a signal if it was assigned to `p`, otherwise nothing. */
  function ReleasedBy<P(==)>(r: Resource<P>, p: P): Resource<P> {
    if r.owner == Some(p) then SignalOne(r) else r
  }

  lemma {:induction false} ReleaseAllIs<P>(k: Kernel<P>, p: P, names: seq<string>, name: string)
    requires WaitsOk(k) && p in k.state && k.state[p] == Exit && ResourcesOk(k) && name in k.resources
    requires forall q :: q in Blocked(k) ==> Present(k, q)
    ensures name in ReleaseAll(k, p, names).resources
    ensures ReleaseAll(k, p, names).resources[name] == if name in names then ReleasedBy(k.resources[name], p)
            else k.resources[name]
    decreases names
  {
    if names != [] {
      var n := |names| - 1;
      ReleaseAllKeeps(k, p, names[..n]);
      var k1 := ReleaseAll(k, p, names[..n]);
      ReleaseAllIs(k, p, names[..n], name);
      assert names == names[..n] + [names[n]];
      if names[n] in k1.resources {
        ReleaseIs(k1, p, names[n]);
      }
    }
  }

  // ----- taking one process out

  lemma FinishStarts<P>(k: Kernel<P>, i: nat)
    requires WaitsOk(k) && ResourcesOk(k) && i < |k.active|
    requires forall q :: q in Blocked(k) ==> Present(k, q)
    ensures var without := k.(active := Without(k.active, i));
            WaitsOk(without) && ResourcesOk(without) && forall q :: q in Blocked(without) ==> Present(without, q)
  {
    var without := k.(active := Without(k.active, i));
    SameWaits(k, without);
    SameResources(k, without);
  }

  lemma ReleasedWithout<P>(k: Kernel<P>, i: nat) returns (released: Kernel<P>)
    requires WaitsOk(k) && ResourcesOk(k) && i < |k.active| && k.active[i] in k.state && StateOf(k, k.active[i]) == Exit
    requires forall q :: q in Blocked(k) ==> Present(k, q)
    ensures released == ReleaseAll(k.(active := Without(k.active, i)), k.active[i], k.config.names)
    ensures WaitsOk(released) && ResourcesOk(released) && OwnsNone(released, k.active[i], k.config.names)
    ensures OnlyWoke(k.(active := Without(k.active, i)), released)
  {
    FinishStarts(k, i);
    ReleaseAllKeeps(k.(active := Without(k.active, i)), k.active[i], k.config.names);
    released := ReleaseAll(k.(active := Without(k.active, i)), k.active[i], k.config.names);
  }

  lemma FinishReleases<P>(k: Kernel<P>, i: nat)
    requires WaitsOk(k) && ResourcesOk(k) && i < |k.active| && k.active[i] in k.state && StateOf(k, k.active[i]) == Exit
    requires forall q :: q in Blocked(k) ==> Present(k, q)
    ensures var p, k' := k.active[i], Finish(k, i);
            WaitsOk(k') && ResourcesOk(k') && OwnsNone(k', p, k.config.names) && Finished(k, k', i)
  {
    var released := ReleasedWithout(k, i);
    SameWaits(released, Finish(k, i));
    FinishIsFinished(k, i);
    LeaverOwnsNothing(released, Finish(k, i), k.active[i]);
  }

  /** Who owns none of the resources may finish. */
  lemma LeaverOwnsNothing<P>(k: Kernel<P>, k': Kernel<P>, p: P)
    requires ResourcesOk(k) && OwnsNone(k, p, k.config.names)
    requires k' == k.(finished := k.finished + {p}, local := k'.local)
    ensures ResourcesOk(k') && OwnsNone(k', p, k.config.names)
  {
  }

  lemma FinishIsFinished<P>(k: Kernel<P>, i: nat)
    requires i < |k.active|
    requires var without := k.(active := Without(k.active, i));
             OnlyWoke(without, ReleaseAll(without, k.active[i], k.config.names))
    ensures Finished(k, Finish(k, i), i)
  {
  }

  /** What taking out the process at `i` leaves. */
  ghost predicate Finished<P>(k: Kernel<P>, k': Kernel<P>, i: nat)
    requires i < |k.active|
  {
    var p := k.active[i];
    && k' == k.(active := Without(k.active, i), finished := k.finished + {p}, local := k.local[p := map[]],
                state := k'.state, resources := k'.resources)
    && k'.state.Keys == k.state.Keys && k'.resources.Keys == k.resources.Keys
    && forall q :: q in k.state ==> k'.state[q] == k.state[q] || (k.state[q] == Block && k'.state[q] == Ready)
  }

  lemma FinishPlaces<P>(k: Kernel<P>, k': Kernel<P>, i: nat)
    requires PlacesOk(k) && i < |k.active| && StateOf(k, k.active[i]) == Exit && Finished(k, k', i)
    ensures PlacesOk(k') && Members(k') == Members(k)
    ensures forall q :: q in k'.active ==> q in k.active && q in k.state && q != k.active[i]
    ensures forall q :: q in k.active ==> q == k.active[i] || q in k'.active
  {
    var p := k.active[i];
    MemberIsKnown(k, p);
    WithoutMultiset(k.active, i);
    BagOfRest(k.active, k'.active, p);
    assert multiset(k'.finished) == multiset(k.finished) + multiset{p};
    MoveMember(multiset(k.entrants) + AsBag(k.running), multiset(k'.active), p, multiset(k.finished));
    assert Members(k') == Members(k);
    forall q | q in k'.entrants ensures StateOf(k', q) == New {
      MemberIsKnown(k, q);
    }
    forall q | q in k.finished ensures StateOf(k', q) == Exit {
      MemberIsKnown(k, q);
    }
    forall q | q in k'.active ensures q != p {
      MemberIsKnown(k', q);
    }
    forall q | q in k'.active ensures q in k.state {
      MemberIsKnown(k, q);
    }
  }

  lemma MoveMember<P>(others: multiset<P>, rest: multiset<P>, p: P, finished: multiset<P>)
    ensures others + (rest + multiset{p}) + finished == others + rest + (finished + multiset{p})
  {
  }

  lemma FinishFiles<P>(k: Kernel<P>, k': Kernel<P>, i: nat)
    requires FilesOk(k) && i < |k.active| && Finished(k, k', i)
    ensures FilesOk(k')
  {
    assert forall q, x :: Holds(k', q, x) ==> q in k.local && Holds(k, q, x);
  }

  /** The one process that exited is taken out: the core is kept and nobody in EXIT is left. */
  lemma FinishKeeps<P>(k: Kernel<P>, i: nat)
    requires Core(k) && i < |k.active| && StateOf(k, k.active[i]) == Exit
    ensures Core(Finish(k, i)) && Finished(k, Finish(k, i), i) && Members(Finish(k, i)) == Members(k)
    ensures FilesOk(k) ==> FilesOk(Finish(k, i))
    ensures forall q :: q in Finish(k, i).active ==> StateOf(Finish(k, i), q) != Exit
  {
    var k' := Finish(k, i);
    BlockedArePresent(k);
    MemberIsKnown(k, k.active[i]);
    FinishReleases(k, i);
    FinishPlaces(k, k', i);
    if FilesOk(k) {
      FinishFiles(k, k', i);
    }
    FinishTurn(k, k', i);
  }

  lemma BlockedArePresent<P>(k: Kernel<P>)
    requires PlacesOk(k) && TurnOk(k)
    ensures forall q :: q in Blocked(k) ==> Present(k, q)
  {
    forall q | q in Blocked(k) ensures Present(k, q) {
      BlockedIsPresent(k, q);
    }
  }

  /** A process that exits gives back one instance of each resource last assigned to it, and nothing else. */
  lemma ExitReleases<P>(k: Kernel<P>, i: nat, name: string)
    requires Core(k) && i < |k.active| && StateOf(k, k.active[i]) == Exit && name in k.resources
    ensures name in Finish(k, i).resources && Finish(k, i).resources[name] == ReleasedBy(k.resources[name], k.active[i])
  {
    BlockedArePresent(k);
    MemberIsKnown(k, k.active[i]);
    FinishStarts(k, i);
    ReleaseAllIs(k.(active := Without(k.active, i)), k.active[i], k.config.names, name);
  }

  lemma FinishTurn<P>(k: Kernel<P>, k': Kernel<P>, i: nat)
    requires PlacesOk(k) && ActiveOk(k) && LimitOk(k) && TurnOk(k)
    requires i < |k.active| && StateOf(k, k.active[i]) == Exit && Finished(k, k', i)
    requires forall q :: q in k'.active ==> q in k.active && q in k.state && q != k.active[i]
    requires forall q :: q in k.active ==> q == k.active[i] || q in k'.active
    ensures ActiveOk(k') && LimitOk(k') && TurnOk(k')
    ensures forall q :: q in k'.active ==> StateOf(k', q) != Exit
  {
    assert k.owing && k.running.None?;
  }

  // ----- the loop

  ghost predicate NoneExited<P>(k: Kernel<P>, from: nat) {
    forall j :: from <= j < |k.active| ==> StateOf(k, k.active[j]) != Exit
  }

  lemma {:induction false} ReapNone<P>(k: Kernel<P>, i: nat)
    requires NoneExited(k, i)
    ensures Reap(k, i) == k
    decreases |k.active| - i
  {
    if i < |k.active| {
      ReapNone(k, i + 1);
    }
  }

  lemma {:induction false} ReapOne<P>(k: Kernel<P>, i: nat, e: nat)
    requires i <= e < |k.active| && StateOf(k, k.active[e]) == Exit
    requires forall j :: i <= j < e ==> StateOf(k, k.active[j]) != Exit
    requires NoneExited(Finish(k, e), e + 1)
    ensures Reap(k, i) == Finish(k, e)
    decreases |k.active| - i
  {
    if i == e {
      ReapNone(Finish(k, e), e + 1);
    } else {
      ReapOne(k, i + 1, e);
    }
  }

  lemma FirstExited<P>(k: Kernel<P>) returns (e: nat)
    requires !NoneExited(k, 0)
    ensures e < |k.active| && StateOf(k, k.active[e]) == Exit &&
            forall j :: 0 <= j < e ==> StateOf(k, k.active[j]) != Exit
  {
    e := 0;
    while StateOf(k, k.active[e]) != Exit
      invariant e < |k.active| && forall j :: 0 <= j < e ==> StateOf(k, k.active[j]) != Exit
      decreases |k.active| - e
    {
      e := e + 1;
    }
  }

  /** Files of those taken out are closed, and no others. */
  ghost predicate Reaped<P>(k: Kernel<P>, k': Kernel<P>) {
    Moved(k, k') && (FilesOk(k) ==> FilesOk(k'))
  }

  /** In every state of a run one pass of the loop takes out whoever exited. */
  lemma ReapKeeps<P>(k: Kernel<P>)
    requires Core(k)
    ensures NoneExited(Reap(k, 0), 0) && Reap(k, 0).owing == k.owing && Reaped(k, Reap(k, 0))
  {
    if NoneExited(k, 0) {
      ReapNone(k, 0);
    } else {
      var e := FirstExited(k);
      FinishKeeps(k, e);
      ReapOne(k, 0, e);
    }
  }

  // ----- admission

  lemma OwingKeeps<P>(k: Kernel<P>, owing: bool)
    requires Core(k) && NoneExited(k, 0) && (owing ==> k.owing)
    ensures StaysPut(k, k.(owing := owing))
  {
    var k' := k.(owing := owing);
    OwingTurn(k, k');
    SameWaits(k, k');
    SameFiles(k, k');
    SameResources(k, k');
  }

  lemma OwingTurn<P>(k: Kernel<P>, k': Kernel<P>)
    requires PlacesOk(k) && ActiveOk(k) && TurnOk(k) && NoneExited(k, 0) && (k'.owing ==> k.owing) &&
             k' == k.(owing := k'.owing)
    ensures PlacesOk(k') && ActiveOk(k') && TurnOk(k') && Members(k') == Members(k)
  {
    assert Members(k') == Members(k);
  }

  /** One process moves from NEW to READY. */
  ghost predicate Admitted<P>(k: Kernel<P>, k': Kernel<P>) {
    && k.entrants != [] && |k.active| < k.config.max
    && k' == SetState(k, k.entrants[0], Ready).(entrants := k.entrants[1..], active := k.active + [k.entrants[0]])
  }

  lemma AdmitKeeps<P>(k: Kernel<P>, k': Kernel<P>)
    requires Core(k) && Admitted(k, k')
    ensures StaysPut(k, k')
  {
    MemberIsKnown(k, k.entrants[0]);
    AdmitMembers(k, k');
    AdmitPlaces(k, k');
    AdmitWaits(k, k');
    SameFiles(k, k');
    SameResources(k, k');
  }

  lemma AdmitWaits<P>(k: Kernel<P>, k': Kernel<P>)
    requires WaitsOk(k) && Admitted(k, k') && StateOf(k, k.entrants[0]) == New
    ensures WaitsOk(k')
  {
    assert Blocked(k') == Blocked(k);
    SameWaits(k, k');
  }

  lemma AdmitPlaces<P>(k: Kernel<P>, k': Kernel<P>)
    requires PlacesOk(k) && ActiveOk(k) && TurnOk(k) && Admitted(k, k') && Members(k') == Members(k) &&
             k.entrants[0] in k.state
    ensures PlacesOk(k') && ActiveOk(k') && TurnOk(k')
  {
    var p := k.entrants[0];
    assert k'.state.Keys == k.state.Keys;
    assert PlacesOk(k) && p in k.entrants;
    forall q | q in k.active || k.running == Some(q) || q in k.finished ensures q != p {
      MemberIsKnown(k, q);
    }
    forall q | q in k'.entrants ensures q != p && q in k.entrants {
      AdmittedOnce(k, p, q);
    }
  }

  lemma AdmittedOnce<P>(k: Kernel<P>, p: P, q: P)
    requires Members(k) <= multiset(k.state.Keys) && k.entrants != [] && p == k.entrants[0] && q in k.entrants[1..]
    ensures q != p && q in k.entrants
  {
    assert k.entrants == [p] + k.entrants[1..];
    assert Members(k)[p] <= multiset(k.state.Keys)[p];
    assert multiset(k.entrants)[p] == 1 + multiset(k.entrants[1..])[p];
  }

  lemma AdmitMembers<P>(k: Kernel<P>, k': Kernel<P>)
    requires Admitted(k, k')
    ensures Members(k') == Members(k)
  {
    var p := k.entrants[0];
    assert k.entrants == [p] + k.entrants[1..];
    MoveMember(AsBag(k.running), multiset(k'.entrants), p, multiset(k.active));
    assert multiset(k'.active) == multiset(k.active) + multiset{p};
    assert multiset(k.entrants) == multiset(k'.entrants) + multiset{p};
  }

  lemma SettleKeeps<P>(k: Kernel<P>, owing: bool, k': Kernel<P>)
    requires Core(k) && NoneExited(k, 0) && (owing ==> k.owing) && k' == Admit(k).(owing := owing)
    ensures StaysPut(k, k')
  {
    OwingKeeps(k, owing);
    var settled := k.(owing := owing);
    if |settled.active| < settled.config.max && settled.entrants != [] {
      AdmittedIs(k, settled, k');
      AdmitKeeps(settled, k');
    } else {
      assert k' == settled;
    }
  }

  lemma AdmittedIs<P>(k: Kernel<P>, settled: Kernel<P>, k': Kernel<P>)
    requires |k.active| < k.config.max && k.entrants != [] && settled == k.(owing := settled.owing)
    requires k' == Admit(k).(owing := settled.owing)
    ensures Admitted(settled, k')
  {
  }

  lemma RescheduleKeeps<P>(k: Kernel<P>, byMain: bool)
    requires Core(k)
    ensures Reaped(k, Do(k, Reschedule(byMain)))
  {
    ReapKeeps(k);
    SettleKeeps(Reap(k, 0), k.owing && !byMain, Do(k, Reschedule(byMain)));
  }
}
