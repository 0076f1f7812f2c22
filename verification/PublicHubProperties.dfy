/** What every run of the public hub keeps, whatever the commands and whichever spawns fail. */
module PublicHubProperties {
  import opened Basics
  import opened Subscriptions
  import opened PublicHub

  ghost predicate NoDuplicates<T>(s: seq<T>) {
    forall i, j :: 0 <= i < j < |s| ==> s[i] != s[j]
  }

  lemma NoDuplicatesConcat<T>(a: seq<T>, b: seq<T>)
    requires NoDuplicates(a) && NoDuplicates(b)
    requires forall x :: x in a ==> x !in b
    ensures NoDuplicates(a + b)
  {
    forall i, j | 0 <= i < j < |a + b| ensures (a + b)[i] != (a + b)[j] {
      if i < |a| <= j {
        assert a[i] in a && b[j - |a|] in b;
      }
    }
  }

  /** `h` is the handle of a current stream. */
  ghost predicate Live(st: State, h: nat) {
    exists r :: r in st.streams && st.streams[r] == h
  }

  /** Stream conservation: a spawned stream either runs, as the one stream of its route, exactly
      the recorded subscription, or has been aborted exactly once. */
  ghost predicate Conserved(st: State) {
    && st.streams.Keys == st.subscriptions.Keys
    && (forall r :: r in st.streams ==>
          st.streams[r] < |st.spawned| && st.spawned[st.streams[r]] == Stream(r, st.subscriptions[r]))
    && NoDuplicates(st.aborted)
    && (forall h: nat :: h in st.aborted <==> h < |st.spawned| && !Live(st, h))
  }

  // ----- the pieces of a switch ---------------------------------------------------------------

  lemma {:induction false} SerialsSpec(base: nat, n: nat)
    ensures NoDuplicates(Serials(base, n))
    ensures forall h: nat :: h in Serials(base, n) <==> base <= h < base + n
  {
    if n > 0 {
      SerialsSpec(base, n - 1);
      NoDuplicatesConcat(Serials(base, n - 1), [base + n - 1]);
    }
  }

  /** `need` lists, once each, the routes among `rs` that want a new stream. */
  ghost predicate IsNeeded(current: Plan, desired: Plan, rs: seq<PublicStreamRoute>, need: seq<Stream>) {
    && (forall i :: 0 <= i < |need| ==>
          var s := need[i];
          s.route in rs && s.route in desired && !Same(current, desired, s.route) && s.subscription == desired[s.route])
    && (forall r :: r in rs && r in desired && !Same(current, desired, r) ==> Stream(r, desired[r]) in need)
    && (forall i, j :: 0 <= i < j < |need| ==> need[i].route != need[j].route)
  }

  lemma {:induction false} NeededSpec(current: Plan, desired: Plan, rs: seq<PublicStreamRoute>)
    requires NoDuplicates(rs)
    ensures IsNeeded(current, desired, rs, Needed(current, desired, rs))
  {
    if rs != [] {
      var init := rs[..|rs| - 1];
      NeededSpec(current, desired, init);
      assert rs == init + [rs[|rs| - 1]];
      assert rs[|rs| - 1] !in init;
    }
  }

  lemma {:induction false} DroppedSpec(
    current: Plan, desired: Plan, streams: map<PublicStreamRoute, nat>, rs: seq<PublicStreamRoute>)
    requires NoDuplicates(rs)
    requires forall r, q :: r in streams && q in streams && streams[r] == streams[q] ==> r == q
    ensures NoDuplicates(Dropped(current, desired, streams, rs))
    ensures forall h: nat :: h in Dropped(current, desired, streams, rs)
                   <==> exists r :: r in rs && Stale(current, desired, r) && r in streams && streams[r] == h
  {
    if rs != [] {
      var init, r := rs[..|rs| - 1], rs[|rs| - 1];
      DroppedSpec(current, desired, streams, init);
      assert rs == init + [r] && r !in init;
      if Stale(current, desired, r) && r in streams {
        NoDuplicatesConcat(Dropped(current, desired, streams, init), [streams[r]]);
      }
    }
  }

  /** A route that gets no replacement keeps what it has. */
  lemma {:induction false} InstallKeeps(
    streams: map<PublicStreamRoute, nat>, need: seq<Stream>, base: nat, r: PublicStreamRoute)
    requires forall i :: 0 <= i < |need| ==> need[i].route != r
    ensures r in Install(streams, need, base) <==> r in streams
    ensures r in streams ==> Install(streams, need, base)[r] == streams[r]
  {
    if need != [] {
      InstallKeeps(streams, need[..|need| - 1], base, r);
    }
  }

  /** The `i`-th replacement becomes the stream of its route. */
  lemma {:induction false} InstallSets(streams: map<PublicStreamRoute, nat>, need: seq<Stream>, base: nat, i: nat)
    requires i < |need|
    requires forall j :: i < j < |need| ==> need[j].route != need[i].route
    ensures need[i].route in Install(streams, need, base)
    ensures Install(streams, need, base)[need[i].route] == base + i
  {
    if i < |need| - 1 {
      InstallSets(streams, need[..|need| - 1], base, i);
    }
  }

  /** With the stale routes gone, an insertion displaces nothing: the abort of a displaced stream
      is dead code. */
  lemma {:induction false} NothingDisplaced(streams: map<PublicStreamRoute, nat>, need: seq<Stream>, base: nat)
    requires forall i :: 0 <= i < |need| ==> need[i].route !in streams
    requires forall i, j :: 0 <= i < j < |need| ==> need[i].route != need[j].route
    ensures Displaced(streams, need, base) == []
  {
    if need != [] {
      var init := need[..|need| - 1];
      NothingDisplaced(streams, init, base);
      InstallKeeps(streams, init, base, need[|need| - 1].route);
    }
  }

  // ----- a switch -----------------------------------------------------------------------------

  lemma FailedSwitchConserves(st: State, desired: Plan, successes: nat)
    requires Conserved(st) && !Switch(st, desired, successes).1
    ensures Conserved(Switch(st, desired, successes).0)
  {
    var st' := Switch(st, desired, successes).0;
    SerialsSpec(|st.spawned|, successes);
    NoDuplicatesConcat(st.aborted, Serials(|st.spawned|, successes));
    assert forall h: nat :: Live(st', h) <==> Live(st, h);
  }

  ghost predicate RouteSwitched(
    st: State, desired: Plan, streams: map<PublicStreamRoute, nat>, need: seq<Stream>, r: PublicStreamRoute)
  {
    && (r in streams <==> r in desired)
    && (Same(st.subscriptions, desired, r) ==> r in st.streams && streams[r] == st.streams[r])
    && (r in desired && !Same(st.subscriptions, desired, r) ==>
          |st.spawned| <= streams[r] < |st.spawned| + |need|
          && need[streams[r] - |st.spawned|] == Stream(r, desired[r]))
  }

  /** A successful switch from `st`, described: exactly the routes of `desired` run, unchanged
      routes keep their stream, changed routes get a new one, and every new stream is in use. */
  ghost predicate Switched(st: State, desired: Plan, streams: map<PublicStreamRoute, nat>, need: seq<Stream>) {
    && (forall r: PublicStreamRoute :: RouteSwitched(st, desired, streams, need, r))
    && (forall k :: 0 <= k < |need| ==> need[k].route in streams && streams[need[k].route] == |st.spawned| + k)
  }

  lemma InstalledStreams(st: State, desired: Plan, rs: seq<PublicStreamRoute>)
    requires Conserved(st) && NoDuplicates(rs) && forall r: PublicStreamRoute :: r in rs
    ensures var need := Needed(st.subscriptions, desired, rs);
            var kept := st.streams - StaleRoutes(st.subscriptions, desired, rs);
            && Switched(st, desired, Install(kept, need, |st.spawned|), need)
            && Displaced(kept, need, |st.spawned|) == []
  {
    NeededSpec(st.subscriptions, desired, rs);
    StaleRoutesElements(st.subscriptions, desired, rs);
    InstallSwitches(st, desired, rs, st.streams - StaleRoutes(st.subscriptions, desired, rs),
                    Needed(st.subscriptions, desired, rs));
  }

  lemma InstallSwitches(
    st: State, desired: Plan, rs: seq<PublicStreamRoute>, kept: map<PublicStreamRoute, nat>, need: seq<Stream>)
    requires IsNeeded(st.subscriptions, desired, rs, need) && forall r: PublicStreamRoute :: r in rs
    requires forall r :: r in kept <==> Same(st.subscriptions, desired, r)
    requires forall r :: r in kept ==> r in st.streams && kept[r] == st.streams[r]
    ensures Switched(st, desired, Install(kept, need, |st.spawned|), need)
    ensures Displaced(kept, need, |st.spawned|) == []
  {
    forall r: PublicStreamRoute ensures RouteSwitched(st, desired, Install(kept, need, |st.spawned|), need, r) {
      InstallSwitchesRoute(st.subscriptions, desired, rs, kept, need, |st.spawned|, r);
    }
    forall k | 0 <= k < |need|
      ensures need[k].route in Install(kept, need, |st.spawned|)
      ensures Install(kept, need, |st.spawned|)[need[k].route] == |st.spawned| + k
    {
      InstallSets(kept, need, |st.spawned|, k);
    }
    NothingDisplaced(kept, need, |st.spawned|);
  }

  lemma InstallSwitchesRoute(
    current: Plan, desired: Plan, rs: seq<PublicStreamRoute>, kept: map<PublicStreamRoute, nat>,
    need: seq<Stream>, base: nat, r: PublicStreamRoute)
    requires IsNeeded(current, desired, rs, need) && r in rs
    requires r in kept <==> Same(current, desired, r)
    ensures var streams := Install(kept, need, base);
            && (r in streams <==> r in desired)
            && (r in kept ==> streams[r] == kept[r])
            && (r in desired && r !in kept ==>
                  base <= streams[r] < base + |need| && need[streams[r] - base] == Stream(r, desired[r]))
  {
    if r in desired && r !in kept {
      var i :| 0 <= i < |need| && need[i] == Stream(r, desired[r]);
      InstallSets(kept, need, base, i);
    } else {
      InstallKeeps(kept, need, base, r);
    }
  }

  /** Unchanged routes keep their stream, and the abort of a displaced stream never happens. */
  lemma SuccessfulSwitch(st: State, desired: Plan, successes: nat)
    requires Conserved(st) && Switch(st, desired, successes).1
    ensures var st' := Switch(st, desired, successes).0;
            && st'.subscriptions == desired
            && st.spawned <= st'.spawned
            && Switched(st, desired, st'.streams, st'.spawned[|st.spawned|..])
            && (if st.subscriptions == desired then st' == st
                else st'.aborted == st.aborted + Dropped(st.subscriptions, desired, st.streams, ROUTES))
  {
    if st.subscriptions != desired {
      EveryRoute();
      InstalledStreams(st, desired, ROUTES);
      var need := Needed(st.subscriptions, desired, ROUTES);
      assert (st.spawned + need)[|st.spawned|..] == need;
    }
  }

  lemma SuccessfulSwitchConserves(st: State, desired: Plan, successes: nat)
    requires Conserved(st) && Switch(st, desired, successes).1
    ensures Conserved(Switch(st, desired, successes).0)
  {
    SuccessfulSwitch(st, desired, successes);
    if st.subscriptions != desired {
      EveryRoute();
      assert NoDuplicates(ROUTES);
      SwitchedConserves(st, desired, Switch(st, desired, successes).0, ROUTES);
    }
  }

  lemma SwitchedConserves(st: State, desired: Plan, st': State, rs: seq<PublicStreamRoute>)
    requires Conserved(st) && NoDuplicates(rs) && forall r: PublicStreamRoute :: r in rs
    requires st'.subscriptions == desired && st.spawned <= st'.spawned
    requires Switched(st, desired, st'.streams, st'.spawned[|st.spawned|..])
    requires st'.aborted == st.aborted + Dropped(st.subscriptions, desired, st.streams, rs)
    ensures Conserved(st')
  {
    var need := st'.spawned[|st.spawned|..];
    var dropped := Dropped(st.subscriptions, desired, st.streams, rs);
    DroppedSpec(st.subscriptions, desired, st.streams, rs);
    forall h: nat
      ensures h in dropped <==> Live(st, h) && !Live(st', h)
      ensures h < |st'.spawned| && !Live(st', h) <==> h in st.aborted || h in dropped
    {
      LiveAfterSwitch(st, st', need, rs, h);
    }
    NoDuplicatesConcat(st.aborted, dropped);
    forall r: PublicStreamRoute
      ensures r in st'.streams <==> r in desired
      ensures r in st'.streams ==>
                st'.streams[r] < |st'.spawned| && st'.spawned[st'.streams[r]] == Stream(r, desired[r])
    {
      assert RouteSwitched(st, desired, st'.streams, need, r);
    }
  }

  lemma LiveAfterSwitch(st: State, st': State, need: seq<Stream>, rs: seq<PublicStreamRoute>, h: nat)
    requires Conserved(st) && forall r: PublicStreamRoute :: r in rs
    requires Switched(st, st'.subscriptions, st'.streams, need) && |st'.spawned| == |st.spawned| + |need|
    ensures Live(st, h) ==> h < |st.spawned|
    ensures Live(st', h) ==> h < |st'.spawned| && (Live(st, h) || |st.spawned| <= h)
    ensures |st.spawned| <= h < |st'.spawned| ==> Live(st', h)
    ensures Live(st, h) && !Live(st', h)
       <==> exists r :: r in rs && Stale(st.subscriptions, st'.subscriptions, r)
                     && r in st.streams && st.streams[r] == h
  {
    if |st.spawned| <= h < |st'.spawned| {
      assert st'.streams[need[h - |st.spawned|].route] == h;
    }
    if Live(st', h) {
      var r :| r in st'.streams && st'.streams[r] == h;
      assert RouteSwitched(st, st'.subscriptions, st'.streams, need, r);
    }
    if Live(st, h) {
      var r :| r in st.streams && st.streams[r] == h;
      assert RouteSwitched(st, st'.subscriptions, st'.streams, need, r);
      if Same(st.subscriptions, st'.subscriptions, r) {
        assert st'.streams[r] == h;
      }
    }
  }

  // ----- whole runs ---------------------------------------------------------------------------

  /** The leases that the current plan was last successfully switched to. It differs from the
      active leases only by releases whose switch failed. */
  ghost function Snapshot(venue: Venue, cs: seq<Command>): map<nat, PublicSubscription> {
    if cs == [] then map[]
    else
      var st, c := Run(venue, cs[..|cs| - 1]), cs[|cs| - 1];
      if !Step(venue, st, c).1 || (c.Release? && c.leaseId !in st.active)
      then Snapshot(venue, cs[..|cs| - 1])
      else Step(venue, st, c).0.active
  }

  ghost predicate Within(a: map<nat, PublicSubscription>, b: map<nat, PublicSubscription>) {
    forall k :: k in a ==> k in b && a[k] == b[k]
  }

  lemma {:induction false} RunInvariant(venue: Venue, cs: seq<Command>)
    ensures Conserved(Run(venue, cs))
    ensures Run(venue, cs).subscriptions == PlanOf(venue, Snapshot(venue, cs))
    ensures Within(Run(venue, cs).active, Snapshot(venue, cs))
  {
    if cs != [] {
      var init := cs[..|cs| - 1];
      RunInvariant(venue, init);
      StepInvariant(venue, Run(venue, init), Snapshot(venue, init), cs[|cs| - 1]);
    } else {
      assert Leases(map[]) == [];
    }
  }

  lemma StepInvariant(venue: Venue, st: State, snapshot: map<nat, PublicSubscription>, c: Command)
    requires Conserved(st) && st.subscriptions == PlanOf(venue, snapshot) && Within(st.active, snapshot)
    ensures var (st', ok) := Step(venue, st, c);
            var snapshot' := if !ok || (c.Release? && c.leaseId !in st.active) then snapshot else st'.active;
            Conserved(st') && st'.subscriptions == PlanOf(venue, snapshot') && Within(st'.active, snapshot')
  {
    match c
    case Acquire(leaseId, subscription, successes) =>
      SwitchConserves(st, PlanOf(venue, st.active[leaseId := subscription]), successes);
    case Release(leaseId, successes) =>
      var rest := st.(active := st.active - {leaseId});
      assert forall h: nat :: Live(rest, h) <==> Live(st, h);
      SwitchConserves(rest, PlanOf(venue, rest.active), successes);
  }

  lemma SwitchConserves(st: State, desired: Plan, successes: nat)
    requires Conserved(st)
    ensures var (st', ok) := Switch(st, desired, successes);
            && Conserved(st')
            && st'.active == st.active
            && (if ok then st'.subscriptions == desired
                else st'.subscriptions == st.subscriptions && st'.streams == st.streams)
            && forall a :: Conserved(st'.(active := a))
  {
    var (st', ok) := Switch(st, desired, successes);
    if ok {
      SuccessfulSwitchConserves(st, desired, successes);
    } else {
      FailedSwitchConserves(st, desired, successes);
    }
    forall a ensures Conserved(st'.(active := a)) {
      assert forall h: nat :: Live(st'.(active := a), h) <==> Live(st', h);
    }
  }

  /** Coverage over every run: whatever an active lease demands, some live stream was spawned to
      deliver, and it has not been aborted. */
  lemma EveryLeaseIsServed(venue: Venue, cs: seq<Command>, lease: nat, id: string, t: Topic)
    requires lease in Run(venue, cs).active && Demands(Run(venue, cs).active[lease], id, t)
    ensures var st := Run(venue, cs);
            exists r :: r in st.streams && st.streams[r] < |st.spawned| && st.streams[r] !in st.aborted
                     && Demands(st.spawned[st.streams[r]].subscription, id, t)
  {
    RunInvariant(venue, cs);
    var st, served := Run(venue, cs), Snapshot(venue, cs);
    LeasesElements(served);
    RouteCoversLease(venue, Leases(served), st.active[lease], id, t);
    var r :| Carries(st.subscriptions, r, id, t);
    assert Live(st, st.streams[r]);
  }

  /** A rejected acquire changes neither the leases, the plan nor the streams; what it spawned it
      has aborted. */
  lemma RejectedAcquire(venue: Venue, cs: seq<Command>, c: Command)
    requires c.Acquire? && !Step(venue, Run(venue, cs), c).1
    ensures var st, st' := Run(venue, cs), Step(venue, Run(venue, cs), c).0;
            && st'.active == st.active && st'.subscriptions == st.subscriptions && st'.streams == st.streams
            && (forall h: nat :: |st.spawned| <= h < |st'.spawned| ==> h in st'.aborted)
            && (forall h: nat :: h < |st.spawned| ==> (h in st'.aborted <==> h in st.aborted))
  {
    RunInvariant(venue, cs);
    var st := Run(venue, cs);
    SerialsSpec(|st.spawned|, c.successes);
  }

  /** No release has failed to switch since the last successful switch. */
  ghost predicate NoPendingRelease(venue: Venue, cs: seq<Command>) {
    cs == []
    || var init, c := cs[..|cs| - 1], cs[|cs| - 1];
       var ok := Step(venue, Run(venue, init), c).1;
       if c.Acquire? then ok || NoPendingRelease(venue, init)
       else if c.leaseId !in Run(venue, init).active then NoPendingRelease(venue, init)
       else ok
  }

  /** The plan is the route of the active leases exactly in that case; after a failed release it
      over-covers them until a later switch succeeds. */
  lemma {:induction false} PlanFollowsLeases(venue: Venue, cs: seq<Command>)
    ensures Run(venue, cs).subscriptions == PlanOf(venue, Run(venue, cs).active) <==> NoPendingRelease(venue, cs)
    ensures NoPendingRelease(venue, cs) ==> Snapshot(venue, cs) == Run(venue, cs).active
  {
    RunInvariant(venue, cs);
    if cs != [] {
      var init, c := cs[..|cs| - 1], cs[|cs| - 1];
      PlanFollowsLeases(venue, init);
      StepFollows(venue, Run(venue, init), c);
    }
  }

  lemma SwitchFollows(st: State, desired: Plan, successes: nat)
    ensures var (st', ok) := Switch(st, desired, successes);
            st'.active == st.active
            && (if ok then st'.subscriptions == desired else desired != st.subscriptions == st'.subscriptions)
  {
  }

  lemma StepFollows(venue: Venue, st: State, c: Command)
    ensures var (st', ok) := Step(venue, st, c);
            if !ok && c.Release? then st'.subscriptions != PlanOf(venue, st'.active)
            else if !ok || (c.Release? && c.leaseId !in st.active) then
              st'.subscriptions == st.subscriptions && st'.active == st.active
            else st'.subscriptions == PlanOf(venue, st'.active)
  {
    if c.Acquire? {
      SwitchFollows(st, PlanOf(venue, st.active[c.leaseId := c.subscription]), c.successes);
    } else if c.leaseId in st.active {
      var rest := st.(active := st.active - {c.leaseId});
      SwitchFollows(rest, PlanOf(venue, rest.active), c.successes);
    }
  }

  /** What a Bybit plan names: the one route carries exactly the instruments of the leases. */
  lemma BybitPlan(active: map<nat, PublicSubscription>, lease: nat, id: string)
    requires lease in active && active[lease].instrumentIds != []
    ensures var plan := PlanOf(Bybit, active);
            && plan.Keys == {Default}
            && (id in plan[Default].instrumentIds <==> exists k :: k in active && id in active[k].instrumentIds)
  {
    var leases := Leases(active);
    LeasesElements(active);
    AccumulateExact(leases, id, Ticker);
    AccumulateExact(leases, active[lease].instrumentIds[0], Ticker);
    assert active[lease] in leases;
  }

  lemma NeededSnoc(current: Plan, desired: Plan, rs: seq<PublicStreamRoute>, r: PublicStreamRoute)
    ensures Needed(current, desired, rs + [r])
         == Needed(current, desired, rs)
            + (if r in desired && !Same(current, desired, r) then [Stream(r, desired[r])] else [])
  {
    assert (rs + [r])[..|rs|] == rs;
  }

  lemma OneSpawn(current: Plan, desired: Plan)
    requires desired.Keys == {Default}
    ensures |Needed(current, desired, ROUTES)| == if Same(current, desired, Default) then 0 else 1
  {
    NeededSnoc(current, desired, [], Default);
    NeededSnoc(current, desired, [] + [Default], BinanceMarket);
    NeededSnoc(current, desired, [] + [Default] + [BinanceMarket], BinancePublic);
    assert ROUTES == [] + [Default] + [BinanceMarket] + [BinancePublic];
    assert BinanceMarket !in desired && BinancePublic !in desired;
  }

  /** A release whose spawns fail leaves plan and streams as they were. */
  lemma ReleaseFails(venue: Venue, st: State, lease: nat)
    requires lease in st.active
    requires Needed(st.subscriptions, PlanOf(venue, st.active - {lease}), ROUTES) != []
    ensures Step(venue, st, Release(lease, 0))
         == (st.(active := st.active - {lease}), false)
  {
    var rest := st.(active := st.active - {lease});
    var need := Needed(st.subscriptions, PlanOf(venue, rest.active), ROUTES);
    assert st.spawned + need[..0] == st.spawned && st.aborted + Serials(|st.spawned|, 0) == st.aborted;
    assert rest.subscriptions != PlanOf(venue, rest.active) by {
      NeededDiffers(st.subscriptions, PlanOf(venue, rest.active));
    }
  }

  lemma NeededDiffers(current: Plan, desired: Plan)
    requires Needed(current, desired, ROUTES) != []
    ensures current != desired
  {
    EveryRoute();
    NeededSpec(current, desired, ROUTES);
    assert Needed(current, desired, ROUTES)[0].route in desired;
  }

  lemma BybitAcquires(st: State, lease: nat, s: PublicSubscription)
    requires s.instrumentIds != []
    ensures var (st', ok) := Step(Bybit, st, Acquire(lease, s, 1));
            ok && st'.active == st.active[lease := s] && st'.subscriptions == PlanOf(Bybit, st'.active)
  {
    var candidate := st.active[lease := s];
    BybitPlan(candidate, lease, "");
    OneSpawn(st.subscriptions, PlanOf(Bybit, candidate));
  }

  lemma RunSnoc(venue: Venue, cs: seq<Command>, c: Command)
    ensures Run(venue, cs + [c]) == Step(venue, Run(venue, cs), c).0
    ensures NoPendingRelease(venue, cs + [c])
       <==> var ok := Step(venue, Run(venue, cs), c).1;
            if c.Acquire? then ok || NoPendingRelease(venue, cs)
            else if c.leaseId !in Run(venue, cs).active then NoPendingRelease(venue, cs)
            else ok
  {
    assert (cs + [c])[..|cs|] == cs;
  }

  /** It does happen: two leases, one released while the replacement stream cannot be spawned. The
      plan still carries ETH, which no lease names any more. */
  lemma FailedReleaseOverCovers(btc: PublicSubscription, eth: PublicSubscription, cs: seq<Command>)
    requires btc == NOTHING.(instrumentIds := ["BTC"], ticker := true)
    requires eth == NOTHING.(instrumentIds := ["ETH"], ticker := true)
    requires cs == [Acquire(1, btc, 1)] + [Acquire(2, eth, 1)] + [Release(2, 0)]
    ensures var st := Run(Bybit, cs);
            && !NoPendingRelease(Bybit, cs)
            && Carries(st.subscriptions, Default, "ETH", Ticker)
            && st.active == map[1 := btc]
  {
    var one, two := [Acquire(1, btc, 1)], [Acquire(1, btc, 1)] + [Acquire(2, eth, 1)];
    assert [] + one == one;
    RunSnoc(Bybit, [], Acquire(1, btc, 1));
    BybitAcquires(INITIAL, 1, btc);
    RunSnoc(Bybit, one, Acquire(2, eth, 1));
    BybitAcquires(Run(Bybit, one), 2, eth);
    RunSnoc(Bybit, two, Release(2, 0));
    EthIsReleased(Run(Bybit, two), btc, eth);
  }

  lemma EthIsReleased(st: State, btc: PublicSubscription, eth: PublicSubscription)
    requires btc.instrumentIds == ["BTC"] && eth.instrumentIds == ["ETH"] && Wants(eth, Ticker)
    requires st.active == map[1 := btc, 2 := eth] && st.subscriptions == PlanOf(Bybit, st.active)
    ensures Step(Bybit, st, Release(2, 0)) == (st.(active := map[1 := btc]), false)
    ensures Carries(st.subscriptions, Default, "ETH", Ticker)
  {
    assert st.active - {2} == map[1 := btc];
    PlansDiffer(st.active, btc, eth);
    OneSpawn(st.subscriptions, PlanOf(Bybit, map[1 := btc]));
    ReleaseFails(Bybit, st, 2);
    EthIsCarried(st.active, eth);
  }

  lemma PlansDiffer(active: map<nat, PublicSubscription>, btc: PublicSubscription, eth: PublicSubscription)
    requires btc.instrumentIds == ["BTC"] && eth.instrumentIds == ["ETH"] && active == map[1 := btc, 2 := eth]
    ensures PlanOf(Bybit, map[1 := btc]).Keys == {Default}
    ensures !Same(PlanOf(Bybit, active), PlanOf(Bybit, map[1 := btc]), Default)
  {
    BybitPlan(active, 2, "ETH");
    BybitPlan(map[1 := btc], 1, "ETH");
    assert active[2].instrumentIds[0] == "ETH" && btc.instrumentIds[0] != "ETH";
  }

  lemma EthIsCarried(active: map<nat, PublicSubscription>, eth: PublicSubscription)
    requires 2 in active && active[2] == eth && eth.instrumentIds == ["ETH"] && Wants(eth, Ticker)
    ensures Carries(PlanOf(Bybit, active), Default, "ETH", Ticker)
  {
    BybitPlan(active, 2, "ETH");
    LeasesElements(active);
    assert eth.instrumentIds[0] == "ETH";
    RouteCoversLease(Bybit, Leases(active), eth, "ETH", Ticker);
  }

  // ----- replies and leases -------------------------------------------------------------------

  /** The routes of the new plan that do not already run what it wants. */
  ghost function ChangedRoutes(current: Plan, desired: Plan): set<PublicStreamRoute> {
    set r | r in desired && (r !in current || current[r] != desired[r])
  }

  ghost function ChangedAmong(current: Plan, desired: Plan, rs: seq<PublicStreamRoute>): set<PublicStreamRoute> {
    set r | r in rs && r in ChangedRoutes(current, desired)
  }

  lemma {:induction false} NeededCount(current: Plan, desired: Plan, rs: seq<PublicStreamRoute>)
    requires NoDuplicates(rs)
    ensures |Needed(current, desired, rs)| == |ChangedAmong(current, desired, rs)|
  {
    if rs == [] {
      assert ChangedAmong(current, desired, rs) == {};
    } else {
      var init, r := rs[..|rs| - 1], rs[|rs| - 1];
      NeededCount(current, desired, init);
      assert rs == init + [r] && r !in init;
      assert ChangedAmong(current, desired, rs)
          == ChangedAmong(current, desired, init) + (if r in ChangedRoutes(current, desired) then {r} else {});
    }
  }

  /** A switch succeeds exactly when as many spawns succeed as there are changed routes. */
  lemma SwitchSucceeds(st: State, desired: Plan, successes: nat)
    ensures Switch(st, desired, successes).1 <==> |ChangedRoutes(st.subscriptions, desired)| <= successes
    ensures Switch(st, desired, successes).0.active == st.active
  {
    EveryRoute();
    NeededCount(st.subscriptions, desired, ROUTES);
    assert ChangedAmong(st.subscriptions, desired, ROUTES) == ChangedRoutes(st.subscriptions, desired);
    assert st.subscriptions == desired ==> ChangedRoutes(st.subscriptions, desired) == {};
  }

  /** So an acquire is accepted exactly then, and the lease is recorded exactly if it is accepted. */
  lemma AcquireIsAccepted(venue: Venue, st: State, lease: nat, s: PublicSubscription, successes: nat)
    ensures var (st', ok) := Step(venue, st, Acquire(lease, s, successes));
            && (ok <==> |ChangedRoutes(st.subscriptions, PlanOf(venue, st.active[lease := s]))| <= successes)
            && st'.active == if ok then st.active[lease := s] else st.active
  {
    SwitchSucceeds(st, PlanOf(venue, st.active[lease := s]), successes);
  }

  /** A release ends the lease whatever becomes of its switch. */
  lemma ReleaseEndsLease(venue: Venue, st: State, lease: nat, successes: nat)
    ensures Step(venue, st, Release(lease, successes)).0.active == st.active - {lease}
  {
    if lease in st.active {
      var rest := st.(active := st.active - {lease});
      SwitchSucceeds(rest, PlanOf(venue, rest.active), successes);
    } else {
      assert st.active - {lease} == st.active;
    }
  }

  /** What a watcher holds, by the commands and the replies to them: the subscription of its last
      accepted acquire, unless a release came after it. */
  ghost function Held(venue: Venue, cs: seq<Command>, lease: nat): Option<PublicSubscription> {
    if cs == [] then None
    else
      var init, c := cs[..|cs| - 1], cs[|cs| - 1];
      if c.leaseId != lease then Held(venue, init, lease)
      else if c.Release? then None
      else if Step(venue, Run(venue, init), c).1 then Some(c.subscription)
      else Held(venue, init, lease)
  }

  /** Over every run the hub's leases are exactly the ones held, with those subscriptions. */
  lemma {:induction false} ActiveAreHeld(venue: Venue, cs: seq<Command>, lease: nat)
    ensures lease in Run(venue, cs).active <==> Held(venue, cs, lease).Some?
    ensures lease in Run(venue, cs).active ==> Held(venue, cs, lease) == Some(Run(venue, cs).active[lease])
  {
    if cs != [] {
      var init, c := cs[..|cs| - 1], cs[|cs| - 1];
      var st := Run(venue, init);
      ActiveAreHeld(venue, init, lease);
      ActiveStep(venue, st, c, lease);
    }
  }

  lemma ActiveStep(venue: Venue, st: State, c: Command, lease: nat)
    ensures var (st', ok) := Step(venue, st, c);
            if c.leaseId != lease || (c.Acquire? && !ok) then
              && (lease in st'.active <==> lease in st.active)
              && (lease in st.active ==> st'.active[lease] == st.active[lease])
            else if c.Release? then lease !in st'.active
            else lease in st'.active && st'.active[lease] == c.subscription
  {
    if c.Acquire? {
      AcquireIsAccepted(venue, st, c.leaseId, c.subscription, c.successes);
    } else {
      ReleaseEndsLease(venue, st, c.leaseId, c.successes);
    }
  }

  /** Coverage in those terms: over every run, whatever a held lease demands, a live stream that has
      not been aborted was spawned to deliver. */
  lemma HeldLeaseIsServed(venue: Venue, cs: seq<Command>, lease: nat, id: string, t: Topic)
    requires Held(venue, cs, lease).Some? && Demands(Held(venue, cs, lease).value, id, t)
    ensures var st := Run(venue, cs);
            exists r :: r in st.streams && st.streams[r] < |st.spawned| && st.streams[r] !in st.aborted
                     && Demands(st.spawned[st.streams[r]].subscription, id, t)
  {
    ActiveAreHeld(venue, cs, lease);
    EveryLeaseIsServed(venue, cs, lease, id, t);
  }

  /** After the hub task ends nothing runs: every stream ever spawned was aborted exactly once. */
  lemma NothingRunsAfterClose(venue: Venue, cs: seq<Command>)
    ensures var st := Closed(Run(venue, cs));
            && st.streams == map[]
            && NoDuplicates(st.aborted)
            && forall h: nat :: h in st.aborted <==> h < |st.spawned|
  {
    RunInvariant(venue, cs);
    var st := Run(venue, cs);
    EveryRoute();
    HandlesSpec(st.streams, ROUTES);
    assert forall h: nat :: h in Handles(st.streams, ROUTES) <==> Live(st, h);
    NoDuplicatesConcat(st.aborted, Handles(st.streams, ROUTES));
  }

  lemma {:induction false} HandlesSpec(streams: map<PublicStreamRoute, nat>, rs: seq<PublicStreamRoute>)
    requires NoDuplicates(rs)
    requires forall r, q :: r in streams && q in streams && streams[r] == streams[q] ==> r == q
    ensures NoDuplicates(Handles(streams, rs))
    ensures forall h: nat :: h in Handles(streams, rs) <==> exists r :: r in rs && r in streams && streams[r] == h
  {
    if rs != [] {
      var init, r := rs[..|rs| - 1], rs[|rs| - 1];
      HandlesSpec(streams, init);
      assert rs == init + [r] && r !in init;
      if r in streams {
        NoDuplicatesConcat(Handles(streams, init), [streams[r]]);
      }
    }
  }

  /** A lease that adds nothing to the join of the active ones opens no socket and closes none,
      even if every spawn would fail. */
  lemma CoveredLeaseIsFree(venue: Venue, cs: seq<Command>, leaseId: nat, s: PublicSubscription, successes: nat)
    requires NoPendingRelease(venue, cs)
    requires leaseId !in Run(venue, cs).active
    requires Leq(s, Accumulate(Leases(Run(venue, cs).active)))
    ensures var st := Run(venue, cs);
            Step(venue, st, Acquire(leaseId, s, successes)) == (st.(active := st.active[leaseId := s]), true)
  {
    PlanFollowsLeases(venue, cs);
    var st := Run(venue, cs);
    var candidate := st.active[leaseId := s];
    var old', new' := Leases(st.active), Leases(candidate);
    LeasesElements(st.active);
    LeasesElements(candidate);
    AccumulateIsJoin(old');
    AccumulateIsJoin(new');
    forall x | x in old' ensures x in new' {
      var k :| k in st.active && st.active[k] == x;
      assert k in candidate && candidate[k] == x;
    }
    forall x | x in new' ensures Leq(x, Accumulate(old')) {
    }
    AccumulateSame(old', new');
  }
}
