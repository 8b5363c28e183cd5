/** The consumer's hook set. Every hook does nothing unless the consumer overrides
    it; an overridden hook is modelled by the observation it makes of its call. */
module Sinks {
  import opened Wrappers
  import opened Atoms
  import opened Periodic
  import opened State

  /** One optional override per hook. */
  datatype Sink<O> = Sink(
    atomLine: Option<AtomData -> O>,
    boxBounds: Option<Box -> O>,
    startOfTimestep: Option<int -> O>,
    endOfTimestep: Option<int -> O>)

  /** The hook set that overrides nothing. */
  function Default<O>(): Sink<O> {
    Sink(None, None, None, None)
  }

  /** What one hook call makes the sink observe: nothing for a hook left as it is. */
  function Notice<O>(sink: Sink<O>, e: Event): seq<O> {
    match e
    case Start(t) => if sink.startOfTimestep.Some? then [sink.startOfTimestep.value(t)] else []
    case BoxBounds(b) => if sink.boxBounds.Some? then [sink.boxBounds.value(b)] else []
    case Atom(ad) => if sink.atomLine.Some? then [sink.atomLine.value(ad)] else []
    case End(t) => if sink.endOfTimestep.Some? then [sink.endOfTimestep.value(t)] else []
  }

  /** What the sink observes of a read's hook calls, in call order. */
  function Observe<O>(sink: Sink<O>, trace: seq<Event>): (obs: seq<O>)
    ensures |obs| <= |trace|
  {
    if trace == [] then [] else Notice(sink, trace[0]) + Observe(sink, trace[1..])
  }

  /** A sink that overrides no hook observes nothing, whatever the reader does. */
  lemma {:induction false} DefaultObservesNothing<O>(trace: seq<Event>)
    ensures Observe(Default<O>(), trace) == []
  {
    if trace != [] {
      DefaultObservesNothing<O>(trace[1..]);
    }
  }

  /** Observations follow the calls: the hooks of two consecutive stretches of a trace
      observe the two stretches one after the other. */
  lemma {:induction false} ObserveAppend<O>(sink: Sink<O>, a: seq<Event>, b: seq<Event>)
    ensures Observe(sink, a + b) == Observe(sink, a) + Observe(sink, b)
  {
    if a == [] {
      assert a + b == b;
    } else {
      assert (a + b)[0] == a[0];
      assert (a + b)[1..] == a[1..] + b;
      ObserveAppend(sink, a[1..], b);
    }
  }

  /** The records of the `Atom` events of a trace, in call order. */
  function AtomsOf(trace: seq<Event>): seq<AtomData> {
    if trace == [] then [] else (if trace[0].Atom? then [trace[0].atom] else []) + AtomsOf(trace[1..])
  }

  /** A sink that overrides every hook makes exactly one observation per call. */
  lemma {:induction false} FullSinkObservesEveryCall<O>(sink: Sink<O>, trace: seq<Event>)
    requires sink.atomLine.Some? && sink.boxBounds.Some? && sink.startOfTimestep.Some? && sink.endOfTimestep.Some?
    ensures |Observe(sink, trace)| == |trace|
  {
    if trace != [] {
      FullSinkObservesEveryCall(sink, trace[1..]);
    }
  }

  /** A sink that overrides only `AtomLine` observes once per atom, and observes the
      atoms in the order they were passed on. */
  lemma {:induction false} AtomSinkObservesAtoms<O>(f: AtomData -> O, trace: seq<Event>)
    ensures var obs := Observe(Sink(Some(f), None, None, None), trace);
      && |obs| == |AtomsOf(trace)|
      && forall i :: 0 <= i < |obs| ==> obs[i] == f(AtomsOf(trace)[i])
    ensures forall i :: 0 <= i < |trace| && trace[i].Atom? ==>
      f(trace[i].atom) in Observe(Sink(Some(f), None, None, None), trace)
  {
    if trace != [] {
      var sink := Sink(Some(f), None, None, None);
      AtomSinkObservesAtoms(f, trace[1..]);
      assert Observe(sink, trace) == Notice(sink, trace[0]) + Observe(sink, trace[1..]);
      forall i | 1 <= i < |trace| && trace[i].Atom?
        ensures f(trace[i].atom) in Observe(sink, trace)
      {
        assert trace[1..][i - 1] == trace[i];
      }
    }
  }
}
