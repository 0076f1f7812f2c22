/** Latency diagnostics: two counters and a lock-free maximum, updated by any number of concurrent
    observers (crates/bat-markets/src/diagnostics.rs). All operations are relaxed, so a load, and
    the load of a failed compare-exchange, may return any value the cell has held; a successful
    compare-exchange acts on the newest value; and a compare-exchange may fail spuriously. */
module MaxRegister {
  import opened Basics

  datatype Phase = CountOperation | AddTotal | Load | Exchange | Returned

  /** One call of `observe`: its sample, where it stands, and the value `update_max` last saw. */
  datatype Observer = Observer(sample: nat, phase: Phase, current: nat)

  /** `values` are the values the maximum cell has held, the newest last. */
  datatype State = State(operations: nat, total: nat, values: seq<nat>, observers: seq<Observer>)

  datatype Event =
    | Begin(sample: nat)
    | Step(observer: nat, seen: nat, spurious: bool)

  const INITIAL := State(0, 0, [0], [])

  function Cell(s: State): nat
    requires s.values != []
  {
    s.values[|s.values| - 1]
  }

  predicate Enabled(s: State, e: Event) {
    match e
    case Begin(sample) => sample < U64
    case Step(i, seen, _) => i < |s.observers| && !s.observers[i].phase.Returned? && seen < |s.values|
  }

  /** The loop condition of `update_max`, after seeing `seen`. */
  function Saw(o: Observer, seen: nat): Observer {
    if o.sample > seen then Observer(o.sample, Exchange, seen) else Observer(o.sample, Returned, seen)
  }

  function Next(s: State, e: Event): State
    requires s.values != [] && Enabled(s, e)
  {
    match e
    case Begin(sample) => s.(observers := s.observers + [Observer(sample, CountOperation, 0)])
    case Step(i, seen, spurious) =>
      var o := s.observers[i];
      match o.phase
      case CountOperation =>
        s.(operations := (s.operations + 1) % U64, observers := s.observers[i := o.(phase := AddTotal)])
      case AddTotal =>
        s.(total := (s.total + o.sample) % U64, observers := s.observers[i := o.(phase := Load)])
      case Load => s.(observers := s.observers[i := Saw(o, s.values[seen])])
      case Exchange =>
        if Cell(s) == o.current && !spurious
        then s.(values := s.values + [o.sample], observers := s.observers[i := o.(phase := Returned)])
        else s.(observers := s.observers[i := Saw(o, s.values[seen])])
      case Returned => s
  }

  ghost predicate IsRun(es: seq<Event>) {
    es == []
    || (IsRun(es[..|es| - 1]) && After(es[..|es| - 1]).values != []
        && Enabled(After(es[..|es| - 1]), es[|es| - 1]))
  }

  ghost function After(es: seq<Event>): State {
    if es == [] then INITIAL
    else
      var s := After(es[..|es| - 1]);
      if s.values != [] && Enabled(s, es[|es| - 1]) then Next(s, es[|es| - 1]) else s
  }

  // ----- the register -------------------------------------------------------------------------

  ghost predicate ObserverOk(values: seq<nat>, o: Observer) {
    && o.sample < U64
    && (o.phase.Exchange? ==> o.current < o.sample)
    && (o.phase.Returned? ==> exists k :: 0 <= k < |values| && o.sample <= values[k])
  }

  ghost predicate IsSample(s: State, v: nat) {
    exists i :: 0 <= i < |s.observers| && s.observers[i].sample == v
  }

  ghost predicate RegisterOk(s: State) {
    && s.values != [] && s.values[0] == 0
    && (forall j, k :: 0 <= j < k < |s.values| ==> s.values[j] < s.values[k])
    && (forall k :: 0 < k < |s.values| ==> IsSample(s, s.values[k]))
    && (forall i :: 0 <= i < |s.observers| ==> ObserverOk(s.values, s.observers[i]))
  }

  lemma SamplesPersist(s: State, e: Event, v: nat)
    requires s.values != [] && Enabled(s, e) && IsSample(s, v)
    ensures IsSample(Next(s, e), v)
  {
    var i :| 0 <= i < |s.observers| && s.observers[i].sample == v;
    assert Next(s, e).observers[i].sample == v;
  }

  /** The cell changes only by a successful exchange, to a larger sample. */
  lemma NextGrows(s: State, e: Event)
    requires RegisterOk(s) && Enabled(s, e)
    ensures var values := Next(s, e).values;
            || values == s.values
            || (e.Step? && s.observers[e.observer].sample > Cell(s)
                && values == s.values + [s.observers[e.observer].sample])
  {
    if e.Step? {
      assert ObserverOk(s.values, s.observers[e.observer]);
    }
  }

  lemma NextKeepsObserver(s: State, e: Event, i: nat)
    requires RegisterOk(s) && Enabled(s, e) && i < |Next(s, e).observers|
    ensures ObserverOk(Next(s, e).values, Next(s, e).observers[i])
  {
    var s' := Next(s, e);
    if i < |s.observers| {
      assert ObserverOk(s.values, s.observers[i]);
      NextGrows(s, e);
      if s.observers[i].phase.Returned? {
        var k :| 0 <= k < |s.values| && s.observers[i].sample <= s.values[k];
        assert s'.values[k] == s.values[k];
      } else if e.Step? && i == e.observer && s'.observers[i].phase.Returned? {
        if |s'.values| > |s.values| {
          assert s'.values[|s.values|] == s'.observers[i].sample;
        } else {
          assert s'.values[e.seen] == s.values[e.seen];
        }
      }
    }
  }

  lemma NextKeepsRegister(s: State, e: Event)
    requires RegisterOk(s) && Enabled(s, e)
    ensures RegisterOk(Next(s, e))
    ensures s.values <= Next(s, e).values
  {
    var s' := Next(s, e);
    NextGrows(s, e);
    forall k | 0 < k < |s'.values| ensures IsSample(s', s'.values[k]) {
      if k < |s.values| {
        SamplesPersist(s, e, s.values[k]);
      } else {
        assert IsSample(s, s'.values[k]);
        SamplesPersist(s, e, s'.values[k]);
      }
    }
    forall i | 0 <= i < |s'.observers| ensures ObserverOk(s'.values, s'.observers[i]) {
      NextKeepsObserver(s, e, i);
    }
  }

  // ----- the counters -------------------------------------------------------------------------

  function Count(o: Observer): nat {
    if o.phase.CountOperation? then 0 else 1
  }

  function Contribution(o: Observer): nat {
    if o.phase.CountOperation? || o.phase.AddTotal? then 0 else o.sample
  }

  function Counted(os: seq<Observer>): nat {
    if os == [] then 0 else Counted(os[..|os| - 1]) + Count(os[|os| - 1])
  }

  function Summed(os: seq<Observer>): nat {
    if os == [] then 0 else Summed(os[..|os| - 1]) + Contribution(os[|os| - 1])
  }

  lemma {:induction false} UpdateCounts(os: seq<Observer>, i: nat, o: Observer)
    requires i < |os|
    ensures Counted(os[i := o]) == Counted(os) - Count(os[i]) + Count(o)
    ensures Summed(os[i := o]) == Summed(os) - Contribution(os[i]) + Contribution(o)
  {
    var init := os[..|os| - 1];
    if i == |os| - 1 {
      assert os[i := o][..|os| - 1] == init;
    } else {
      UpdateCounts(init, i, o);
      assert os[i := o][..|os| - 1] == init[i := o];
    }
  }

  ghost predicate CountersOk(s: State) {
    s.operations == Counted(s.observers) % U64 && s.total == Summed(s.observers) % U64
  }

  lemma NextKeepsCounters(s: State, e: Event)
    requires RegisterOk(s) && CountersOk(s) && Enabled(s, e)
    ensures CountersOk(Next(s, e))
  {
    match e
    case Begin(sample) =>
      assert Next(s, e).observers[..|s.observers|] == s.observers;
    case Step(i, _, _) =>
      var o, o' := s.observers[i], Next(s, e).observers[i];
      UpdateCounts(s.observers, i, o');
      assert Next(s, e).observers == s.observers[i := o'];
      StepCounts(s, e);
      CounterAdds(s.operations, Counted(s.observers), Count(o') - Count(o));
      CounterAdds(s.total, Summed(s.observers), Contribution(o') - Contribution(o));
  }

  lemma StepCounts(s: State, e: Event)
    requires RegisterOk(s) && Enabled(s, e) && e.Step? && s.operations < U64 && s.total < U64
    ensures var o, o' := s.observers[e.observer], Next(s, e).observers[e.observer];
            && Count(o) <= Count(o') && Contribution(o) <= Contribution(o')
            && Next(s, e).operations == (s.operations + (Count(o') - Count(o))) % U64
            && Next(s, e).total == (s.total + (Contribution(o') - Contribution(o))) % U64
  {
  }

  lemma CounterAdds(counter: nat, exact: nat, n: nat)
    requires counter == exact % U64
    ensures (counter + n) % U64 == (exact + n) % U64
  {
  }

  lemma {:induction false} RunInvariant(es: seq<Event>)
    requires IsRun(es)
    ensures RegisterOk(After(es)) && CountersOk(After(es))
  {
    if es != [] {
      RunInvariant(es[..|es| - 1]);
      NextKeepsRegister(After(es[..|es| - 1]), es[|es| - 1]);
      NextKeepsCounters(After(es[..|es| - 1]), es[|es| - 1]);
    }
  }

  // ----- guarantees ---------------------------------------------------------------------------

  lemma {:induction false} ValuesPersist(es: seq<Event>, more: seq<Event>)
    requires IsRun(es) && IsRun(es + more)
    ensures After(es).values <= After(es + more).values
  {
    if more == [] {
      assert es + more == es;
    } else {
      var before, e := es + more[..|more| - 1], more[|more| - 1];
      assert es + more == before + [e];
      LastEvent(before, e);
      ValuesPersist(es, more[..|more| - 1]);
      RunInvariant(before);
      NextKeepsRegister(After(before), e);
    }
  }

  lemma LastEvent(es: seq<Event>, e: Event)
    requires IsRun(es + [e])
    ensures IsRun(es) && After(es).values != [] && Enabled(After(es), e) && After(es + [e]) == Next(After(es), e)
  {
    assert (es + [e])[..|es|] == es;
  }

  lemma PrefixCell(s: State, s': State)
    requires RegisterOk(s) && RegisterOk(s') && s.values <= s'.values
    ensures Cell(s) <= Cell(s')
  {
    assert s'.values[|s.values| - 1] == Cell(s);
  }

  /** Under every interleaving the cell only grows. */
  lemma {:induction false} CellNeverDecreases(es: seq<Event>, more: seq<Event>)
    requires IsRun(es) && IsRun(es + more)
    ensures After(es).values != [] && After(es + more).values != []
    ensures Cell(After(es)) <= Cell(After(es + more))
  {
    RunInvariant(es);
    RunInvariant(es + more);
    ValuesPersist(es, more);
    PrefixCell(After(es), After(es + more));
  }

  /** It holds zero or a sample somebody observed, and an observer that has returned left it at no
      less than its own sample. */
  lemma CellIsASample(es: seq<Event>)
    requires IsRun(es)
    ensures var s := After(es);
            && s.values != []
            && (Cell(s) == 0 || IsSample(s, Cell(s)))
            && forall i :: 0 <= i < |s.observers| && s.observers[i].phase.Returned? ==> s.observers[i].sample <= Cell(s)
  {
    RunInvariant(es);
    var s := After(es);
    forall i | 0 <= i < |s.observers| && s.observers[i].phase.Returned? ensures s.observers[i].sample <= Cell(s) {
      assert ObserverOk(s.values, s.observers[i]);
      var k :| 0 <= k < |s.values| && s.observers[i].sample <= s.values[k];
    }
  }

  ghost predicate Quiescent(s: State) {
    forall i :: 0 <= i < |s.observers| ==> s.observers[i].phase.Returned?
  }

  function Total(os: seq<Observer>): nat {
    if os == [] then 0 else Total(os[..|os| - 1]) + os[|os| - 1].sample
  }

  /** When everybody has returned the cell is the exact maximum of the samples ... */
  lemma QuiescentMaximum(es: seq<Event>)
    requires IsRun(es) && Quiescent(After(es))
    ensures var s := After(es);
            && s.values != []
            && (forall i :: 0 <= i < |s.observers| ==> s.observers[i].sample <= Cell(s))
            && (if s.observers == [] then Cell(s) == 0 else IsSample(s, Cell(s)))
  {
    CellIsASample(es);
    var s := After(es);
    if s.observers != [] && Cell(s) == 0 {
      assert s.observers[0].sample == 0;
    }
  }

  /** ... and the counters are the number and the sum of the samples modulo 2^64. */
  lemma QuiescentCounters(es: seq<Event>)
    requires IsRun(es) && Quiescent(After(es))
    ensures After(es).operations == |After(es).observers| % U64
    ensures After(es).total == Total(After(es).observers) % U64
  {
    RunInvariant(es);
    QuiescentCounts(After(es).observers);
  }

  /** If neither counter has wrapped, the average is at most the maximum. */
  lemma AverageAtMostMaximum(es: seq<Event>)
    requires IsRun(es) && Quiescent(After(es))
    requires |After(es).observers| < U64 && Total(After(es).observers) < U64
    ensures After(es).values != []
    ensures After(es).total <= After(es).operations * Cell(After(es))
  {
    QuiescentMaximum(es);
    QuiescentCounters(es);
    TotalBound(After(es).observers, Cell(After(es)));
    Unwrapped(|After(es).observers|, Total(After(es).observers), Cell(After(es)));
  }

  lemma Unwrapped(n: nat, sum: nat, max: nat)
    requires n < U64 && sum < U64 && sum <= n * max
    ensures sum % U64 <= n % U64 * max
  {
    assert n % U64 == n;
  }

  lemma {:induction false} QuiescentCounts(os: seq<Observer>)
    requires forall i :: 0 <= i < |os| ==> os[i].phase.Returned?
    ensures Counted(os) == |os| && Summed(os) == Total(os)
  {
    if os != [] {
      QuiescentCounts(os[..|os| - 1]);
    }
  }

  lemma {:induction false} TotalBound(os: seq<Observer>, max: nat)
    requires forall i :: 0 <= i < |os| ==> os[i].sample <= max
    ensures Total(os) <= |os| * max
  {
    if os != [] {
      TotalBound(os[..|os| - 1], max);
      assert |os| * max == (|os| - 1) * max + max;
    }
  }
}
