/**
 * src/dispatcher/mod.rs: the registry of dispatchers, started in
 * registration order and stopped in reverse, each run ending at the first
 * error. A dispatcher is its name plus the way it answers `start` and `stop`.
 */
module DispatcherRegistry {
  import opened Wrappers
  import opened Lifecycle

  datatype DispatcherEntry = DispatcherEntry(name: string, behaviour: Behaviour)

  function DispatcherAnswers(ds: seq<DispatcherEntry>, h: Hook): seq<Outcome>
  {
    Lifecycle.Answers(ds, (d: DispatcherEntry) => d.behaviour, h)
  }

  class DispatcherRegistry {
    var dispatchers: seq<DispatcherEntry>
    /** The `start` and `stop` calls made so far, oldest first. */
    var calls: seq<Call>

    constructor ()
      ensures dispatchers == [] && calls == []
    {
      dispatchers := [];
      calls := [];
    }

    method Register(d: DispatcherEntry)
      modifies this
      ensures dispatchers == old(dispatchers) + [d] && calls == old(calls)
    {
      dispatchers := dispatchers + [d];
    }

    /** `start_all`: in registration order, returning the first error. */
    method StartAll() returns (r: Outcome)
      modifies this
      ensures dispatchers == old(dispatchers)
      ensures calls == old(calls) + Ascending(Start, Reached(DispatcherAnswers(dispatchers, Start)))
      ensures r == Verdict(DispatcherAnswers(dispatchers, Start))
    {
      ghost var answers := DispatcherAnswers(dispatchers, Start);
      var i := 0;
      while i < |dispatchers|
        invariant 0 <= i <= |dispatchers| && dispatchers == old(dispatchers)
        invariant forall j :: 0 <= j < i ==> answers[j].Ok?
        invariant calls == old(calls) + Ascending(Start, i)
      {
        var a := Answer(dispatchers[i].behaviour, Start);
        calls := calls + [Call(i, Start)];
        assert Ascending(Start, i + 1) == Ascending(Start, i) + [Call(i, Start)];
        if a.Err? {
          FirstErrAt(answers, i);
          return a;
        }
        i := i + 1;
      }
      FirstErrAt(answers, |dispatchers|);
      r := Ok(Unit);
    }

    /** `stop_all`: in reverse registration order, returning the first error. */
    method StopAll() returns (r: Outcome)
      modifies this
      ensures dispatchers == old(dispatchers)
      ensures calls == old(calls) + Descending(Stop, |dispatchers|, Reached(Reverse(DispatcherAnswers(dispatchers, Stop))))
      ensures r == Verdict(Reverse(DispatcherAnswers(dispatchers, Stop)))
    {
      ghost var answers := Reverse(DispatcherAnswers(dispatchers, Stop));
      var i := 0;
      while i < |dispatchers|
        invariant 0 <= i <= |dispatchers| && dispatchers == old(dispatchers)
        invariant forall j :: 0 <= j < i ==> answers[j].Ok?
        invariant calls == old(calls) + Descending(Stop, |dispatchers|, i)
      {
        var n := |dispatchers|;
        var a := Answer(dispatchers[n - 1 - i].behaviour, Stop);
        calls := calls + [Call(n - 1 - i, Stop)];
        assert Descending(Stop, n, i + 1) == Descending(Stop, n, i) + [Call(n - 1 - i, Stop)];
        if a.Err? {
          FirstErrAt(answers, i);
          return a;
        }
        i := i + 1;
      }
      FirstErrAt(answers, |dispatchers|);
      r := Ok(Unit);
    }
  }

  /**
   * A failing stop of the last-registered dispatcher ends `stop_all` before
   * any other dispatcher is stopped.
   */
  lemma StopFailureOfLastStopsEarly(ds: seq<DispatcherEntry>)
    requires |ds| > 0 && Answer(ds[|ds| - 1].behaviour, Stop).Err?
    ensures Reached(Reverse(DispatcherAnswers(ds, Stop))) == 1
    ensures Descending(Stop, |ds|, 1) == [Call(|ds| - 1, Stop)]
    ensures Verdict(Reverse(DispatcherAnswers(ds, Stop))) == Answer(ds[|ds| - 1].behaviour, Stop)
  {
    FirstErrAt(Reverse(DispatcherAnswers(ds, Stop)), 0);
  }
}
