/** What a handoff applied, in terms of the steps of the run alone: the events that arrived since the connection was last lost,
    and the open orders fetched since. */
module HandoffHistory {
  import opened Wrappers
  import opened Ledger
  import opened Handoff

  // ---- first occurrences ----

  /** The first occurrences are the events without repetitions, in the order in which they first appear. */
  lemma {:induction false} FirstOccurrencesMean(es: seq<OrderEvent>)
    ensures forall e :: e in FirstOccurrences(es) <==> e in es
    ensures forall i, j | 0 <= i < j < |FirstOccurrences(es)| :: FirstOccurrences(es)[i] != FirstOccurrences(es)[j]
    ensures forall i, j, k | 0 <= i < j < |FirstOccurrences(es)| && 0 <= k < |es| && es[k] == FirstOccurrences(es)[j] ::
              FirstOccurrences(es)[i] in es[..k]
  {
    if es != [] {
      var init, e := es[..|es| - 1], es[|es| - 1];
      FirstOccurrencesMean(init);
      var f := FirstOccurrences(es);
      assert forall x :: x in es <==> x in init || x == e;
      forall i, j, k | 0 <= i < j < |f| && 0 <= k < |es| && es[k] == f[j]
        ensures f[i] in es[..k]
      {
        if k < |init| {
          assert es[k] == init[k] && es[k] in init;
          assert init[..k] == es[..k];
        } else {
          assert es[..k] == init;
          assert f[i] in FirstOccurrences(init);
        }
      }
    }
  }

  // ---- what a run received ----

  /** The events that arrived since the reader last saw the connection drop outside a recovery, after those of `before`. */
  ghost function Arrived(symbol: string, s: State, steps: seq<Step>, before: seq<OrderEvent>): seq<OrderEvent>
    requires ValidRun(symbol, s, steps)
    decreases |steps|
  {
    if steps == [] then before
    else
      var rest := if steps[0].Receive? then before + [steps[0].e]
                  else if steps[0].Reconnecting? && !s.recovering then []
                  else before;
      Arrived(symbol, Next(symbol, s, steps[0]), steps[1..], rest)
  }

  /** The open orders that were last installed by a hydration of the generation then current. */
  ghost function LastInstalled(symbol: string, s: State, steps: seq<Step>, before: Resting): Resting
    requires ValidRun(symbol, s, steps)
    decreases |steps|
  {
    if steps == [] then before
    else
      var rest := if steps[0].Install? && s.phase.g == s.control.generation then steps[0].orders else before;
      LastInstalled(symbol, Next(symbol, s, steps[0]), steps[1..], rest)
  }

  lemma StepRecords(symbol: string, s: State, step: Step)
    requires Enabled(s, step) && (s.control.hydrating ==> s.history.direct == [])
    ensures var t := Next(symbol, s, step);
            && (t.control.hydrating ==> t.history.direct == [])
            && t.history.received + t.history.direct ==
               (if step.Receive? then s.history.received + s.history.direct + [step.e]
                else if step.Reconnecting? && !s.recovering then []
                else s.history.received + s.history.direct)
            && t.history.snapshot ==
               (if step.Install? && s.phase.g == s.control.generation then step.orders else s.history.snapshot)
  {
    hide ApplyEvent, Events, Enqueue;
    if step.Receive? && s.control.hydrating {
      assert s.history.received + [step.e] + [] == s.history.received + [] + [step.e];
    }
  }

  lemma {:induction false} RunRecords(symbol: string, s: State, steps: seq<Step>)
    requires ValidRun(symbol, s, steps) && (s.control.hydrating ==> s.history.direct == [])
    ensures var t := Run(symbol, s, steps);
            && t.history.received + t.history.direct == Arrived(symbol, s, steps, s.history.received + s.history.direct)
            && t.history.snapshot == LastInstalled(symbol, s, steps, s.history.snapshot)
    decreases |steps|
  {
    hide Next, Enabled;
    if steps != [] {
      StepRecords(symbol, s, steps[0]);
      RunRecords(symbol, Next(symbol, s, steps[0]), steps[1..]);
    }
  }

  /** In every run whose hydrations begin on time: once the handoff is done, the ledger is the last open orders fetched in this
      generation with every event applied that arrived since the connection was last lost, in arrival order, leaving out
      repetitions among those that came before the handoff. */
  lemma HandoffAppliesArrivals(symbol: string, steps: seq<Step>) returns (m: nat)
    requires ValidRun(symbol, Init(), steps) && AllOnTime(symbol, Init(), steps)
    requires !Run(symbol, Init(), steps).control.hydrating
    ensures var es := Arrived(symbol, Init(), steps, []);
            && m <= |es|
            && Run(symbol, Init(), steps).ledger ==
               ApplyEvents(symbol, LastInstalled(symbol, Init(), steps, map[]), FirstOccurrences(es[..m]) + es[m..])
  {
    hide ApplyEvents, FirstOccurrences, Next, Enabled;
    HandoffIsExact(symbol, steps);
    RunRecords(symbol, Init(), steps);
    var h := Run(symbol, Init(), steps).history;
    m := |h.received|;
    var es := Arrived(symbol, Init(), steps, []);
    assert [] + [] == h.received[..0];
    assert es == h.received + h.direct;
    assert es[..m] == h.received && es[m..] == h.direct;
  }

  // ---- how a handoff goes wrong ----

  /** A queue that is full, and a fetch that fails, stop the stream when the generation is current; a hydration of an older
      generation is given up without touching the queue. */
  lemma FailuresStop(symbol: string, s: State, step: Step)
    requires Enabled(s, step) && (step.FetchFails? || (step.Swap? && (s.control.overflowed || s.phase.g != s.control.generation)))
    ensures var t := Next(symbol, s, step);
            && t.control == s.control && t.ledger == s.ledger && t.history == s.history && t.phase == Idle
            && (t.stopped <==> s.phase.g == s.control.generation)
            && t.recovering == (s.recovering && (s.phase.g == s.control.generation || !s.byReader))
  {
  }
}
