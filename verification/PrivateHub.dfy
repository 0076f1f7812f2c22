/** The private subscription hub: one stream shared by all leases
    (crates/bat-markets/src/subscriptions.rs). */
module PrivateHub {
  import opened Basics

  /** Stream handles are spawn serial numbers. */
  datatype State = State(active: set<nat>, stream: Option<nat>, spawned: nat, aborted: seq<nat>)

  datatype Command = Acquire(leaseId: nat, spawnSucceeds: bool) | Release(leaseId: nat)

  const INITIAL := State({}, None, 0, [])

  /** One command of the hub loop, and the reply (a release is not answered). */
  function Step(st: State, c: Command): (State, bool) {
    match c
    case Acquire(leaseId, spawnSucceeds) =>
      if st.stream.Some? then (st.(active := st.active + {leaseId}), true)
      else if spawnSucceeds then
        (st.(active := st.active + {leaseId}, stream := Some(st.spawned), spawned := st.spawned + 1), true)
      else (st, false)
    case Release(leaseId) =>
      var rest := st.active - {leaseId};
      if leaseId !in st.active then (st, true)
      else if rest == {} && st.stream.Some? then
        (st.(active := rest, stream := None, aborted := st.aborted + [st.stream.value]), true)
      else (st.(active := rest), true)
  }

  function Run(cs: seq<Command>): State {
    if cs == [] then INITIAL else Step(Run(cs[..|cs| - 1]), cs[|cs| - 1]).0
  }

  function Closed(st: State): State {
    if st.stream.Some? then st.(stream := None, aborted := st.aborted + [st.stream.value]) else st
  }

  class PrivateSubscriptionHub {
    var active: set<nat>
    var stream: Option<nat>
    var spawned: nat
    var aborted: seq<nat>

    ghost function View(): State
      reads this
    {
      State(active, stream, spawned, aborted)
    }

    constructor ()
      ensures View() == INITIAL
    {
      active, stream, spawned, aborted := {}, None, 0, [];
    }

    method Handle(c: Command) returns (ok: bool)
      modifies this
      ensures (View(), ok) == Step(old(View()), c)
    {
      match c {
        case Acquire(leaseId, spawnSucceeds) =>
          if stream.None? {
            if !spawnSucceeds {
              return false;
            }
            stream, spawned := Some(spawned), spawned + 1;
          }
          active := active + {leaseId};
          ok := true;
        case Release(leaseId) =>
          ok := true;
          if leaseId !in active {
            return;
          }
          active := active - {leaseId};
          if active == {} && stream.Some? {
            aborted := aborted + [stream.value];
            stream := None;
          }
      }
    }

    method RunPrivateHub(commands: seq<Command>)
      requires View() == INITIAL
      modifies this
      ensures View() == Closed(Run(commands))
    {
      for i := 0 to |commands|
        invariant View() == Run(commands[..i])
      {
        assert commands[..i + 1][..i] == commands[..i];
        var _ := Handle(commands[i]);
      }
      assert commands[..|commands|] == commands;
      if stream.Some? {
        aborted := aborted + [stream.value];
        stream := None;
      }
    }
  }

  /** The streams aborted so far are all streams spawned before the current one, in order. */
  ghost predicate Conserved(st: State) {
    && (st.stream.Some? ==> st.spawned > 0 && st.stream.value == st.spawned - 1)
    && st.aborted == seq(if st.stream.Some? then st.spawned - 1 else st.spawned, h => h)
  }

  /** Over every run there is a stream exactly when there is a lease, the stream is the newest one
      spawned, and every earlier one was aborted exactly once. */
  lemma {:induction false} RunInvariant(cs: seq<Command>)
    ensures Run(cs).stream.Some? <==> Run(cs).active != {}
    ensures Conserved(Run(cs))
  {
    if cs != [] {
      RunInvariant(cs[..|cs| - 1]);
      var st, c := Run(cs[..|cs| - 1]), cs[|cs| - 1];
      if c.Acquire? {
        assert c.leaseId in st.active + {c.leaseId};
      }
    }
  }

  /** After the hub task ends every stream ever spawned was aborted exactly once. */
  lemma NothingRunsAfterClose(cs: seq<Command>)
    ensures Closed(Run(cs)).stream.None?
    ensures Closed(Run(cs)).aborted == seq(Run(cs).spawned, h => h)
  {
    RunInvariant(cs);
  }

  /** An acquire is accepted exactly when a stream runs or can be spawned. */
  lemma AcquireIsAccepted(cs: seq<Command>, lease: nat, spawnSucceeds: bool)
    ensures Step(Run(cs), Acquire(lease, spawnSucceeds)).1 <==> spawnSucceeds || exists id :: Held(cs, id)
  {
    StreamWhileHeld(cs);
  }

  /** The watcher holds its lease, by the commands and the replies to them: its last accepted acquire
      has not been followed by a release. */
  predicate Held(cs: seq<Command>, lease: nat) {
    cs != []
    && var init, c := cs[..|cs| - 1], cs[|cs| - 1];
       if c.leaseId != lease then Held(init, lease)
       else if c.Release? then false
       else Step(Run(init), c).1 || Held(init, lease)
  }

  /** Over every run the hub's leases are exactly the ones held ... */
  lemma {:induction false} ActiveAreHeld(cs: seq<Command>, lease: nat)
    ensures lease in Run(cs).active <==> Held(cs, lease)
  {
    if cs != [] {
      ActiveAreHeld(cs[..|cs| - 1], lease);
    }
  }

  /** ... so there is a stream exactly while somebody holds a lease. */
  lemma StreamWhileHeld(cs: seq<Command>)
    ensures Run(cs).stream.Some? <==> exists id :: Held(cs, id)
  {
    RunInvariant(cs);
    var active := Run(cs).active;
    if active != {} {
      var id :| id in active;
      ActiveAreHeld(cs, id);
    }
    if id :| Held(cs, id) {
      ActiveAreHeld(cs, id);
    }
  }
}
