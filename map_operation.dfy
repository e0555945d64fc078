/** The imperative form of `map` in src/utils/promise.js: one object per call,
    whose fields are the locals the executor closes over and whose methods
    are the executor's events. Each method is proved to change the state as
    the matching function of map_spec.dfy says. */
module PromiseMap {
  import opened MapSpec

  /** The state of one `map` call. */
  class MapOperation<T, R, E> {
    const source: seq<T>
    const mapper: MapperArg<T, R, E>
    const concurrency: ConcurrencyArg
    const stopOnError: bool
    /** The outcome of argument validation. */
    const config: Result<Window, ConfigError>

    var ret: map<nat, R>
    var errors: seq<E>
    var isRejected: bool
    var isIterableDone: bool
    var resolvingCount: nat
    var currentIndex: nat
    /** The indices whose asynchronous block has started and not yet ended. */
    var inFlight: set<nat>
    /** The state of the returned promise: `None` while it is pending. */
    var outcome: Option<Settlement<R, E>>

    /** Every failure so far, oldest first, in both error modes. */
    ghost var failed: seq<nat>
    /** How many asynchronous blocks have ended. */
    ghost var completions: nat

    /** The validated call, once validation has passed. */
    ghost function Given(): Setup<T, R, E>
      requires config.Ok? && mapper.Callable?
    {
      Setup(source, mapper.f, config.value, stopOnError)
    }

    /** The fields as a value. */
    ghost function Snapshot(): State<R, E>
      reads this
    {
      State(ret, errors, isRejected, isIterableDone, resolvingCount, currentIndex, inFlight, outcome, failed, completions)
    }

    /** The executor's invariant at every point: a failed validation leaves the
        initial locals and a rejected promise; a passed one keeps `Core`. */
    ghost predicate Started()
      reads this
    {
      config == Validate(mapper, concurrency) &&
      match config
      case Err(kind) => Snapshot() == Initial().(outcome := Some(ConfigRejected(kind)))
      case Ok(_) => mapper.Callable? && Core(Given(), Snapshot())
    }

    /** The invariant between events, once the kickoff is over. */
    ghost predicate BetweenEvents()
      reads this
    {
      Started() && (config.Ok? ==> MapSpec.Valid(Given(), Snapshot()))
    }

    /** `map(iterable, mapper, {concurrency, stopOnError})`: validation, the
        executor's locals, then the kickoff. An invalid argument rejects the
        promise before the iterator is created, so nothing is pulled. */
    constructor (source: seq<T>, mapper: MapperArg<T, R, E>, concurrency: ConcurrencyArg, stopOnError: bool)
      ensures BetweenEvents()
      ensures this.source == source && this.mapper == mapper
      ensures this.concurrency == concurrency && this.stopOnError == stopOnError
      ensures config.Err? ==> outcome == Some(ConfigRejected(config.error)) && currentIndex == 0 && inFlight == {}
      ensures config.Ok? ==> Snapshot() == KickedOff(Given())
      ensures config.Ok? ==> currentIndex == KickoffPulls(|source|, config.value)
      ensures config.Ok? ==> forall i: nat :: i in inFlight <==> i < Pulled(|source|, currentIndex)
      ensures config.Ok? ==> outcome == if |source| == 0 then Some(Fulfilled(map[])) else None
      ensures ret == map[] && errors == []
    {
      this.source := source;
      this.mapper := mapper;
      this.concurrency := concurrency;
      this.stopOnError := stopOnError;
      var checked := Validate(mapper, concurrency);
      config := checked;
      ret := map[];
      errors := [];
      isRejected := false;
      isIterableDone := false;
      resolvingCount := 0;
      currentIndex := 0;
      inFlight := {};
      failed := [];
      completions := 0;
      outcome := if checked.Err? then Some(ConfigRejected(checked.error)) else None;
      new;
      if config.Ok? {
        Start();
        KickoffValid(Given());
      }
    }

    /** The kickoff loop: call `next` up to `concurrency` times, and stop
        after the first pull that answers done. */
    method Start()
      requires config.Ok? && mapper.Callable?
      requires Snapshot() == Initial()
      modifies this
      ensures Snapshot() == KickedOff(Given())
    {
      var k := 0;
      while WithinLimit(k, config.value)
        invariant k <= |source| && Snapshot() == Launched(k)
        invariant config.value.Bounded? ==> k <= config.value.limit
        decreases |source| - k
      {
        KickoffStep(Given(), k);
        Next();
        if isIterableDone {
          break;
        }
        k := k + 1;
      }
    }

    /** Settling the promise: the first `resolve` or `reject` wins and later
        calls change nothing. */
    method Settle(s: Settlement<R, E>)
      modifies this`outcome
      ensures outcome == SettleOnce(old(outcome), s)
    {
      if outcome.None? {
        outcome := Some(s);
      }
    }

    /** `next`: unless aborted, pull once and advance `currentIndex`, also
        when the pull answers done. On done, settle if nothing is in flight;
        on an item, launch its asynchronous block. */
    method Next()
      requires config.Ok? && mapper.Callable?
      modifies this
      ensures Snapshot() == NextStep(Given(), old(Snapshot()))
    {
      if isRejected {
        return;
      }
      var nextItem := Pull(source, currentIndex);
      var i := currentIndex;
      currentIndex := currentIndex + 1;
      if nextItem.Done? {
        isIterableDone := true;
        if resolvingCount == 0 {
          if !stopOnError && |errors| != 0 {
            Settle(RejectedAll(errors));
          } else {
            Settle(Fulfilled(ret));
          }
        }
        return;
      }
      resolvingCount := resolvingCount + 1;
      inFlight := inFlight + {i};
    }

    /** The end of item `i`'s asynchronous block: the try/catch around
        awaiting the element and the mapper's result. The environment may end
        any block in flight. */
    method Complete(i: nat)
      requires config.Ok? && mapper.Callable?
      requires i in inFlight && i < |source| && resolvingCount > 0
      modifies this
      ensures Snapshot() == CompleteStep(Given(), old(Snapshot()), i)
    {
      inFlight := inFlight - {i};
      completions := completions + 1;
      match mapper.f(source[i], i) {
        case Returned(v) =>
          ret := ret[i := v];
          resolvingCount := resolvingCount - 1;
          assert Snapshot() == StoredValue(Given(), old(Snapshot()), i);
          Next();
        case Threw(e) =>
          failed := failed + [i];
          if stopOnError {
            isRejected := true;
            Settle(Rejected(e));
          } else {
            errors := errors + [e];
            resolvingCount := resolvingCount - 1;
            assert Snapshot() == RecordedFailure(Given(), old(Snapshot()), i);
            Next();
          }
      }
    }

    /** The event loop ending one in-flight block at a time, in an order it
        chooses, until none is left. Returns (ghost) the states passed
        through and the order in which blocks ended. */
    method EndAll() returns (ghost trace: seq<State<R, E>>, ghost order: seq<nat>)
      requires config.Ok? && mapper.Callable? && MapSpec.Valid(Given(), Snapshot())
      modifies this
      ensures Observed(Given(), trace, order)
      ensures trace[0] == old(Snapshot()) && trace[|trace| - 1] == Snapshot()
      ensures inFlight == {}
    {
      ghost var p := Given();
      ObservedStart(p, Snapshot());
      trace, order := [Snapshot()], [];
      while inFlight != {}
        invariant Observed(p, trace, order)
        invariant trace[0] == old(Snapshot()) && trace[|trace| - 1] == Snapshot()
        decreases Remaining(p, Snapshot())
      {
        var i :| i in inFlight;
        ghost var before := Snapshot();
        ObservedStep(p, trace, order, i);
        Complete(i);
        assert Snapshot() == CompleteStep(p, before, i);
        trace, order := trace + [Snapshot()], order + [i];
      }
    }

    /** Awaiting the promise: end every in-flight block, then read the
        settlement. Returns the settlement, the number of iterator pulls
        (`currentIndex`), and (ghost) the failures in the order they
        happened, the states passed through and the order in which blocks
        ended. */
    method Drain() returns (s: Settlement<R, E>, pulls: nat, ghost failOrder: seq<nat>,
                            ghost trace: seq<State<R, E>>, ghost order: seq<nat>)
      requires config.Ok? && mapper.Callable? && MapSpec.Valid(Given(), Snapshot())
      modifies this
      ensures Execution(Given(), trace, order)
      ensures trace[0] == old(Snapshot()) && trace[|trace| - 1] == Snapshot()
      ensures forall k :: 0 <= k < |trace| ==> |trace[k].inFlight| <= old(|inFlight|)
      ensures MapSpec.Valid(Given(), Snapshot()) && inFlight == {} && outcome == Some(s)
      ensures pulls == currentIndex && failOrder == failed
      ensures SettlesAsPromised(Given(), s, pulls, failOrder)
    {
      trace, order := EndAll();
      Drained(Given(), Snapshot());
      s, pulls, failOrder := outcome.value, currentIndex, failed;
    }
  }

  /** A caller awaiting `map(source, mapper, {concurrency, stopOnError})`
      while the event loop ends the launched blocks in an arbitrary order.
      Returns the settlement, the number of iterator pulls, and (ghost) the
      failures in the order they happened, the states between events from
      the end of the kickoff on, and the order in which blocks ended. */
  method Run<T, R, E>(source: seq<T>, mapper: MapperArg<T, R, E>, concurrency: ConcurrencyArg, stopOnError: bool)
    returns (s: Settlement<R, E>, pulls: nat, ghost failOrder: seq<nat>,
             ghost trace: seq<State<R, E>>, ghost order: seq<nat>)
    ensures Validate(mapper, concurrency).Err? ==>
      s == ConfigRejected(Validate(mapper, concurrency).error) && pulls == 0
    ensures Validate(mapper, concurrency).Ok? ==>
      var p := Setup(source, mapper.f, Validate(mapper, concurrency).value, stopOnError);
      Execution(p, trace, order) && trace[0] == KickedOff(p) &&
      |trace[0].inFlight| == Pulled(|source|, KickoffPulls(|source|, p.window)) &&
      (forall k :: 0 <= k < |trace| ==> |trace[k].inFlight| <= |trace[0].inFlight|) &&
      (forall k :: 0 <= k < |trace| ==>
         |trace[k].inFlight| <= |source| && (p.window.Bounded? ==> |trace[k].inFlight| <= p.window.limit)) &&
      trace[|trace| - 1].inFlight == {} && trace[|trace| - 1].outcome == Some(s) &&
      pulls == trace[|trace| - 1].currentIndex && failOrder == trace[|trace| - 1].failed &&
      SettlesAsPromised(p, s, pulls, failOrder)
  {
    var m := new MapOperation(source, mapper, concurrency, stopOnError);
    if m.config.Err? {
      s, pulls, failOrder, trace, order := m.outcome.value, m.currentIndex, [], [m.Snapshot()], [];
    } else {
      assert |m.inFlight| == Pulled(|source|, m.currentIndex) by {
        KickoffValid(m.Given());
      }
      s, pulls, failOrder, trace, order := m.Drain();
    }
  }
}
