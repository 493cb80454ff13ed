/** A lazy operation: a factory that fills a caller-supplied result holder,
    run at most once, with its outcome cached.  Calls are sequential here;
    the mutex that serialises them is not modelled. */
module LazyOperation {
  import opened Wrappers

  /** The factory receives the holder and returns the holder it leaves
      behind together with its error (`None` is a nil error). */
  type Factory<!V, E> = V -> (V, Option<E>)

  /** The three fields a `GetValue` call reads and writes. */
  datatype LazyState<V, E> = LazyState(value: V, valueCreated: bool, err: Option<E>)

  /** What one `GetValue` call leaves behind and returns, and whether it ran the factory. */
  datatype Step<V, E> = Step(next: LazyState<V, E>, returned: Option<E>, ranFactory: bool)

  /** What `n` consecutive `GetValue` calls leave behind and return, and how often the factory ran. */
  datatype Trace<V, E> = Trace(final: LazyState<V, E>, returned: seq<Option<E>>, factoryRuns: nat)

  /** The state `newLazy` builds: nothing computed yet, the construction error stored. */
  function NewLazy<V, E>(result: V, err: Option<E>): LazyState<V, E>
  {
    LazyState(result, false, err)
  }

  /** `IsValueCreated`: a stored error hides the flag. */
  predicate Created<V, E>(s: LazyState<V, E>)
  {
    s.err.None? && s.valueCreated
  }

  /** A state in which `GetValue` will never run the factory again. */
  predicate Settled<V, E>(s: LazyState<V, E>)
  {
    s.err.Some? || s.valueCreated
  }

  /** One `GetValue` call on state `s`. */
  function Evaluate<V, E>(s: LazyState<V, E>, factory: Factory<V, E>): (r: Step<V, E>)
    // the factory runs exactly when nothing is stored yet
    ensures r.ranFactory <==> !Settled(s)
    // a call that does not run the factory changes nothing
    ensures !r.ranFactory ==> r.next == s
    // every call leaves a settled state and returns the error it stores
    ensures Settled(r.next)
    ensures r.returned == r.next.err
    // the flag is monotone
    ensures s.valueCreated ==> r.next.valueCreated
  {
    if s.err.Some? then Step(s, s.err, false)
    else if s.valueCreated then Step(s, s.err, false)
    else
      var (holder, err) := factory(s.value);
      Step(LazyState(holder, true, err), err, true)
  }

  /** `n` consecutive `GetValue` calls starting from `s`. */
  function Run<V, E>(s: LazyState<V, E>, factory: Factory<V, E>, n: nat): (t: Trace<V, E>)
    ensures |t.returned| == n
    decreases n
  {
    if n == 0 then Trace(s, [], 0)
    else
      var step := Evaluate(s, factory);
      var rest := Run(step.next, factory, n - 1);
      Trace(rest.final, [step.returned] + rest.returned,
            rest.factoryRuns + if step.ranFactory then 1 else 0)
  }

  /** Once settled, any number of further calls change nothing, never run
      the factory and all return the stored error. */
  lemma {:induction false} SettledIsStable<V, E>(s: LazyState<V, E>, factory: Factory<V, E>, n: nat)
    requires Settled(s)
    ensures Run(s, factory, n).final == s
    ensures Run(s, factory, n).factoryRuns == 0
    ensures forall i :: 0 <= i < n ==> Run(s, factory, n).returned[i] == s.err
    decreases n
  {
    if n > 0 {
      SettledIsStable(s, factory, n - 1);
    }
  }

  /** Across any sequence of calls from any state the factory runs at most
      once, and not at all once the state is settled. */
  lemma {:induction false} FactoryRunsAtMostOnce<V, E>(s: LazyState<V, E>, factory: Factory<V, E>, n: nat)
    ensures Run(s, factory, n).factoryRuns <= 1
    ensures Settled(s) ==> Run(s, factory, n).factoryRuns == 0
  {
    if n > 0 {
      SettledIsStable(Evaluate(s, factory).next, factory, n - 1);
    }
  }

  /** Running `i + j` calls is running `i` calls and then `j` more from where they stopped. */
  lemma {:induction false} RunComposes<V, E>(s: LazyState<V, E>, factory: Factory<V, E>, i: nat, j: nat)
    ensures Run(s, factory, i + j).final == Run(Run(s, factory, i).final, factory, j).final
    ensures Run(s, factory, i + j).returned
         == Run(s, factory, i).returned + Run(Run(s, factory, i).final, factory, j).returned
    ensures Run(s, factory, i + j).factoryRuns
         == Run(s, factory, i).factoryRuns + Run(Run(s, factory, i).final, factory, j).factoryRuns
    decreases i
  {
    if i > 0 {
      var next := Evaluate(s, factory).next;
      RunComposes(next, factory, i - 1, j);
      assert i + j - 1 == (i - 1) + j;
    }
  }

  /** A lazy operation built with an error returns exactly that error on every
      call, never runs the factory, never touches the holder and never
      reports a created value. */
  lemma {:induction false} ConstructionErrorShortCircuits<V, E>(result: V, err: E, factory: Factory<V, E>, n: nat)
    ensures Run(NewLazy(result, Some(err)), factory, n).factoryRuns == 0
    ensures Run(NewLazy(result, Some(err)), factory, n).final == NewLazy(result, Some(err))
    ensures !Created(Run(NewLazy(result, Some(err)), factory, n).final)
    ensures forall i :: 0 <= i < n ==> Run(NewLazy(result, Some(err)), factory, n).returned[i] == Some(err)
  {
    SettledIsStable(NewLazy(result, Some(err)), factory, n);
  }

  /** Built without an error, the first call runs the factory exactly once on
      the holder and returns its error; every later call returns that same
      error without running it again; the value counts as created exactly
      when that error is nil, and stays so. */
  lemma {:induction false} FirstCallDecides<V, E>(result: V, factory: Factory<V, E>, n: nat)
    requires n >= 1
    ensures Run(NewLazy(result, None), factory, n).factoryRuns == 1
    ensures Run(NewLazy(result, None), factory, n).final.value == factory(result).0
    ensures Created(Run(NewLazy(result, None), factory, n).final) <==> factory(result).1.None?
    ensures forall i :: 0 <= i < n ==> Run(NewLazy(result, None), factory, n).returned[i] == factory(result).1
  {
    var first := Evaluate(NewLazy(result, None), factory);
    SettledIsStable(first.next, factory, n - 1);
  }

  /** `valueCreated` never goes back to false: if it holds after `i` calls
      it holds after any later number of calls. */
  lemma {:induction false} ValueCreatedIsMonotone<V, E>(s: LazyState<V, E>, factory: Factory<V, E>, i: nat, j: nat)
    requires i <= j
    requires Run(s, factory, i).final.valueCreated
    ensures Run(s, factory, j).final.valueCreated
    ensures Created(Run(s, factory, i).final) ==> Created(Run(s, factory, j).final)
  {
    var mid := Run(s, factory, i).final;
    RunComposes(s, factory, i, j - i);
    SettledIsStable(mid, factory, j - i);
  }

  /** The lazy operation object.  `factoryRuns` counts the factory's
      invocations and is not a field of the source. */
  class Lazy<V, E> {
    const valueFactory: Factory<V, E>
    var valueCreated: bool
    var value: V
    var err: Option<E>
    ghost var factoryRuns: nat

    ghost function State(): LazyState<V, E>
      reads this
    {
      LazyState(value, valueCreated, err)
    }

    /** The factory has run exactly when the flag is set. */
    ghost predicate Valid()
      reads this
    {
      factoryRuns == if valueCreated then 1 else 0
    }

    /** `newLazy` */
    constructor (result: V, valueFactory: Factory<V, E>, err: Option<E>)
      ensures Valid()
      ensures State() == NewLazy(result, err)
      ensures this.valueFactory == valueFactory
      ensures factoryRuns == 0
    {
      this.valueFactory := valueFactory;
      value := result;
      valueCreated := false;
      this.err := err;
      factoryRuns := 0;
    }

    /** Reads the state and changes nothing. */
    method IsValueCreated() returns (created: bool)
      ensures created <==> Created(State())
    {
      if err.Some? {
        return false;
      }
      created := valueCreated;
    }

    method GetValue() returns (r: Option<E>)
      requires Valid()
      modifies this
      ensures Valid()
      ensures factoryRuns <= 1
      ensures State() == Evaluate(old(State()), valueFactory).next
      ensures r == Evaluate(old(State()), valueFactory).returned
      ensures factoryRuns == old(factoryRuns) + if Evaluate(old(State()), valueFactory).ranFactory then 1 else 0
    {
      if err.Some? {
        return err;
      }
      if valueCreated {
        return err;
      }
      var (holder, e) := valueFactory(value);
      value, err := holder, e;
      valueCreated := true;
      factoryRuns := factoryRuns + 1;
      return err;
    }
  }
}
