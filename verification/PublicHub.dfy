/** The public subscription hub: leases, the plan they add up to, and the streams that run it
    (crates/bat-markets/src/subscriptions.rs). Spawning a stream is a call into the environment;
    `successes` says how many of the spawns of one command succeed before one fails. */
module PublicHub {
  import opened Basics
  import opened Subscriptions

  type Plan = map<PublicStreamRoute, PublicSubscription>

  /** What a stream was spawned to run. Handles are positions in the list of spawned streams. */
  datatype Stream = Stream(route: PublicStreamRoute, subscription: PublicSubscription)

  datatype State = State(
    active: map<nat, PublicSubscription>,
    subscriptions: Plan,
    streams: map<PublicStreamRoute, nat>,
    spawned: seq<Stream>,
    aborted: seq<nat>)

  datatype Command =
    | Acquire(leaseId: nat, subscription: PublicSubscription, successes: nat)
    | Release(leaseId: nat, successes: nat)

  const INITIAL := State(map[], map[], map[], [], [])

  /** The iteration order of the route-keyed maps. */
  const ROUTES: seq<PublicStreamRoute> := [Default, BinanceMarket, BinancePublic]

  // ----- switching streams --------------------------------------------------------------------

  predicate Same(a: Plan, b: Plan, r: PublicStreamRoute) {
    r in a && r in b && a[r] == b[r]
  }

  /** The streams to spawn, in route order. */
  function Needed(current: Plan, desired: Plan, rs: seq<PublicStreamRoute>): seq<Stream> {
    if rs == [] then []
    else
      var r := rs[|rs| - 1];
      Needed(current, desired, rs[..|rs| - 1])
      + (if r in desired && !Same(current, desired, r) then [Stream(r, desired[r])] else [])
  }

  predicate Stale(current: Plan, desired: Plan, r: PublicStreamRoute) {
    r in current && !Same(current, desired, r)
  }

  function StaleRoutes(current: Plan, desired: Plan, rs: seq<PublicStreamRoute>): set<PublicStreamRoute> {
    if rs == [] then {}
    else
      var r := rs[|rs| - 1];
      StaleRoutes(current, desired, rs[..|rs| - 1]) + (if Stale(current, desired, r) then {r} else {})
  }

  /** The handles that leave with the stale routes. */
  function Dropped(current: Plan, desired: Plan, streams: map<PublicStreamRoute, nat>, rs: seq<PublicStreamRoute>)
    : seq<nat>
  {
    if rs == [] then []
    else
      var r := rs[|rs| - 1];
      Dropped(current, desired, streams, rs[..|rs| - 1])
      + (if Stale(current, desired, r) && r in streams then [streams[r]] else [])
  }

  /** Inserting the replacements, whose handles are `base`, `base + 1`, ..., and the handles that
      an insertion displaces. */
  function Install(streams: map<PublicStreamRoute, nat>, need: seq<Stream>, base: nat): map<PublicStreamRoute, nat> {
    if need == [] then streams
    else Install(streams, need[..|need| - 1], base)[need[|need| - 1].route := base + |need| - 1]
  }

  function Displaced(streams: map<PublicStreamRoute, nat>, need: seq<Stream>, base: nat): seq<nat> {
    if need == [] then []
    else
      var before := Install(streams, need[..|need| - 1], base);
      var r := need[|need| - 1].route;
      Displaced(streams, need[..|need| - 1], base) + (if r in before then [before[r]] else [])
  }

  /** The replacement handles, in spawn order. */
  predicate Numbered(replacements: seq<(PublicStreamRoute, nat)>, need: seq<Stream>, base: nat) {
    && |replacements| == |need|
    && forall k :: 0 <= k < |need| ==> replacements[k] == (need[k].route, base + k)
  }

  /** The handles `base` to `base + n - 1`, once each. */
  function Serials(base: nat, n: nat): seq<nat> {
    if n == 0 then [] else Serials(base, n - 1) + [base + n - 1]
  }

  /** `switch_public_stream`: all or nothing. */
  function Switch(st: State, desired: Plan, successes: nat): (State, bool) {
    if st.subscriptions == desired then (st, true)
    else
      var need := Needed(st.subscriptions, desired, ROUTES);
      var base := |st.spawned|;
      if successes < |need| then
        (st.(spawned := st.spawned + need[..successes],
             aborted := st.aborted + Serials(base, successes)),
         false)
      else
        var kept := st.streams - StaleRoutes(st.subscriptions, desired, ROUTES);
        (st.(subscriptions := desired,
             streams := Install(kept, need, base),
             spawned := st.spawned + need,
             aborted := st.aborted + Dropped(st.subscriptions, desired, st.streams, ROUTES)
                        + Displaced(kept, need, base)),
         true)
  }

  // ----- leases -------------------------------------------------------------------------------

  /** The active subscriptions, in some order. */
  ghost function Leases(active: map<nat, PublicSubscription>): seq<PublicSubscription> {
    if active == map[] then []
    else
      var k :| k in active;
      Leases(active - {k}) + [active[k]]
  }

  lemma {:induction false} LeasesElements(active: map<nat, PublicSubscription>)
    ensures forall s :: s in Leases(active) <==> exists k :: k in active && active[k] == s
  {
    if active != map[] {
      var k :| k in active && Leases(active) == Leases(active - {k}) + [active[k]];
      var rest := active - {k};
      LeasesElements(rest);
      forall s | exists j :: j in active && active[j] == s ensures s in Leases(active) {
        var j :| j in active && active[j] == s;
        if j != k {
          assert j in rest && rest[j] == s;
        }
      }
    }
  }

  ghost function PlanOf(venue: Venue, active: map<nat, PublicSubscription>): Plan {
    Route(venue, Leases(active))
  }

  lemma PlanOfAnyOrder(venue: Venue, active: map<nat, PublicSubscription>, subs: seq<PublicSubscription>)
    requires forall s :: s in subs <==> exists k :: k in active && active[k] == s
    ensures Route(venue, subs) == PlanOf(venue, active)
  {
    LeasesElements(active);
    MergeDependsOnElements(subs, Leases(active));
  }

  /** One command of the hub loop, and the reply (a release is not answered). */
  ghost function Step(venue: Venue, st: State, c: Command): (State, bool) {
    match c
    case Acquire(leaseId, subscription, successes) =>
      var candidate := st.active[leaseId := subscription];
      var (st', ok) := Switch(st, PlanOf(venue, candidate), successes);
      (if ok then st'.(active := candidate) else st', ok)
    case Release(leaseId, successes) =>
      if leaseId !in st.active then (st, true)
      else
        var rest := st.(active := st.active - {leaseId});
        Switch(rest, PlanOf(venue, rest.active), successes)
  }

  ghost function Run(venue: Venue, cs: seq<Command>): State {
    if cs == [] then INITIAL else Step(venue, Run(venue, cs[..|cs| - 1]), cs[|cs| - 1]).0
  }

  /** The loop has ended: every remaining stream is aborted. */
  function Handles(streams: map<PublicStreamRoute, nat>, rs: seq<PublicStreamRoute>): seq<nat> {
    if rs == [] then []
    else
      var r := rs[|rs| - 1];
      Handles(streams, rs[..|rs| - 1]) + (if r in streams then [streams[r]] else [])
  }

  function Closed(st: State): State {
    st.(streams := map[], aborted := st.aborted + Handles(st.streams, ROUTES))
  }

  // ----- the hub ------------------------------------------------------------------------------

  class PublicSubscriptionHub {
    const venue: Venue
    var active: map<nat, PublicSubscription>
    var subscriptions: Plan
    var streams: map<PublicStreamRoute, nat>
    var spawned: seq<Stream>
    var aborted: seq<nat>

    ghost function View(): State
      reads this
    {
      State(active, subscriptions, streams, spawned, aborted)
    }

    constructor (venue: Venue)
      ensures View() == INITIAL && this.venue == venue
    {
      this.venue := venue;
      active, subscriptions, streams, spawned, aborted := map[], map[], map[], [], [];
    }

    method SpawnReplacements(rs: seq<PublicStreamRoute>, desired: Plan, successes: nat)
      returns (replacements: seq<(PublicStreamRoute, nat)>, ok: bool)
      modifies this`spawned, this`aborted
      ensures var need := Needed(subscriptions, desired, rs);
              && ok == (|need| <= successes)
              && spawned == old(spawned) + (if ok then need else need[..successes])
              && aborted == (if ok then old(aborted) else old(aborted) + Serials(old(|spawned|), successes))
              && (ok ==> Numbered(replacements, need, old(|spawned|)))
    {
      replacements := [];
      ghost var base := |spawned|;
      for i := 0 to |rs|
        invariant spawned == old(spawned) + Needed(subscriptions, desired, rs[..i])
        invariant |Needed(subscriptions, desired, rs[..i])| <= successes
        invariant aborted == old(aborted)
        invariant Numbered(replacements, Needed(subscriptions, desired, rs[..i]), base)
      {
        var r := rs[i];
        assert rs[..i + 1][..i] == rs[..i];
        NeededPrefix(subscriptions, desired, rs, i + 1);
        NeededPrefix(subscriptions, desired, rs, i);
        if r in desired && !Same(subscriptions, desired, r) {
          if |replacements| < successes {
            spawned := spawned + [Stream(r, desired[r])];
            replacements := replacements + [(r, |spawned| - 1)];
          } else {
            for k := 0 to |replacements|
              invariant spawned == old(spawned) + Needed(subscriptions, desired, rs[..i])
              invariant aborted == old(aborted) + Serials(base, k)
            {
              aborted := aborted + [replacements[k].1];
            }
            assert Needed(subscriptions, desired, rs[..i]) == Needed(subscriptions, desired, rs)[..successes];
            return replacements, false;
          }
        }
      }
      assert rs[..|rs|] == rs;
      ok := true;
    }

    method DropStaleStreams(rs: seq<PublicStreamRoute>, desired: Plan)
      requires forall i, j :: 0 <= i < j < |rs| ==> rs[i] != rs[j]
      modifies this`streams, this`aborted
      ensures streams == old(streams) - StaleRoutes(subscriptions, desired, rs)
      ensures aborted == old(aborted) + Dropped(subscriptions, desired, old(streams), rs)
    {
      for i := 0 to |rs|
        invariant streams == old(streams) - StaleRoutes(subscriptions, desired, rs[..i])
        invariant aborted == old(aborted) + Dropped(subscriptions, desired, old(streams), rs[..i])
      {
        var r := rs[i];
        assert rs[..i + 1][..i] == rs[..i];
        StaleRoutesElements(subscriptions, desired, rs[..i]);
        if Stale(subscriptions, desired, r) && r in streams {
          aborted := aborted + [streams[r]];
          streams := streams - {r};
        }
      }
      assert rs[..|rs|] == rs;
    }

    method InstallReplacements(replacements: seq<(PublicStreamRoute, nat)>, ghost need: seq<Stream>, ghost base: nat)
      requires Numbered(replacements, need, base)
      modifies this`streams, this`aborted
      ensures streams == Install(old(streams), need, base)
      ensures aborted == old(aborted) + Displaced(old(streams), need, base)
    {
      for i := 0 to |replacements|
        invariant streams == Install(old(streams), need[..i], base)
        invariant aborted == old(aborted) + Displaced(old(streams), need[..i], base)
      {
        var route, stream := replacements[i].0, replacements[i].1;
        assert need[..i + 1][..i] == need[..i];
        if route in streams {
          aborted := aborted + [streams[route]];
        }
        streams := streams[route := stream];
      }
      assert need[..|need|] == need;
    }

    method SwitchPublicStream(desired: Plan, successes: nat) returns (ok: bool)
      modifies this`subscriptions, this`streams, this`spawned, this`aborted
      ensures (View(), ok) == Switch(old(View()), desired, successes)
    {
      if subscriptions == desired {
        return true;
      }
      ghost var need := Needed(subscriptions, desired, ROUTES);
      ghost var base := |spawned|;
      var replacements;
      replacements, ok := SpawnReplacements(ROUTES, desired, successes);
      if !ok {
        return;
      }
      DropStaleStreams(ROUTES, desired);
      InstallReplacements(replacements, need, base);
      subscriptions := desired;
    }

    method DesiredPlan(leases: map<nat, PublicSubscription>) returns (plan: Plan)
      ensures plan == PlanOf(venue, leases)
    {
      var keys, subs := leases.Keys, [];
      while keys != {}
        invariant keys <= leases.Keys
        invariant forall s :: s in subs <==> exists k :: k in leases && k !in keys && leases[k] == s
        decreases keys
      {
        var k :| k in keys;
        keys := keys - {k};
        subs := subs + [leases[k]];
      }
      var merged := MergePublicSubscriptions(subs);
      plan := match merged
        case None => map[]
        case Some(s) => if venue.Binance? then SplitBinance(s) else map[Default := s];
      PlanOfAnyOrder(venue, leases, subs);
    }

    method Handle(c: Command) returns (ok: bool)
      modifies this
      ensures (View(), ok) == Step(venue, old(View()), c)
    {
      match c {
        case Acquire(leaseId, subscription, successes) =>
          var candidate := active[leaseId := subscription];
          var desired := DesiredPlan(candidate);
          ok := SwitchPublicStream(desired, successes);
          if ok {
            active := candidate;
          }
        case Release(leaseId, successes) =>
          if leaseId !in active {
            return true;
          }
          active := active - {leaseId};
          var desired := DesiredPlan(active);
          ok := SwitchPublicStream(desired, successes);
      }
    }

    method AbortAll(rs: seq<PublicStreamRoute>)
      modifies this`streams, this`aborted
      ensures streams == map[] && aborted == old(aborted) + Handles(old(streams), rs)
    {
      for i := 0 to |rs|
        invariant streams == old(streams)
        invariant aborted == old(aborted) + Handles(streams, rs[..i])
      {
        assert rs[..i + 1][..i] == rs[..i];
        if rs[i] in streams {
          aborted := aborted + [streams[rs[i]]];
        }
      }
      assert rs[..|rs|] == rs;
      streams := map[];
    }

    /** The whole life of the hub task. */
    method RunPublicHub(commands: seq<Command>)
      requires View() == INITIAL
      modifies this
      ensures View() == Closed(Run(venue, commands))
    {
      for i := 0 to |commands|
        invariant View() == Run(venue, commands[..i])
      {
        assert commands[..i + 1][..i] == commands[..i];
        var _ := Handle(commands[i]);
      }
      assert commands[..|commands|] == commands;
      AbortAll(ROUTES);
    }
  }

  lemma EveryRoute()
    ensures forall r: PublicStreamRoute :: r in ROUTES
    ensures forall i, j :: 0 <= i < j < |ROUTES| ==> ROUTES[i] != ROUTES[j]
  {
    forall r: PublicStreamRoute ensures r in ROUTES {
      assert ROUTES[0] == Default && ROUTES[1] == BinanceMarket && ROUTES[2] == BinancePublic;
      match r
      case Default =>
      case BinanceMarket =>
      case BinancePublic =>
    }
  }

  lemma {:induction false} StaleRoutesElements(current: Plan, desired: Plan, rs: seq<PublicStreamRoute>)
    ensures forall r :: r in StaleRoutes(current, desired, rs) <==> r in rs && Stale(current, desired, r)
  {
    if rs != [] {
      StaleRoutesElements(current, desired, rs[..|rs| - 1]);
      assert rs == rs[..|rs| - 1] + [rs[|rs| - 1]];
    }
  }

  lemma {:induction false} NeededPrefix(current: Plan, desired: Plan, rs: seq<PublicStreamRoute>, i: nat)
    requires i <= |rs|
    ensures Needed(current, desired, rs[..i]) <= Needed(current, desired, rs)
    decreases |rs| - i
  {
    if i < |rs| {
      assert rs[..i + 1][..i] == rs[..i];
      NeededPrefix(current, desired, rs, i + 1);
    } else {
      assert rs[..i] == rs;
    }
  }
}
