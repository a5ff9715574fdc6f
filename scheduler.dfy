/** The backup goroutine's loop. Each wait ends in one of two ways: either the
    interval elapses (a tick), and one backup cycle runs before the next wait,
    or an interrupt arrives, and the loop returns. The wait and the clock are
    replaced by the sequence of events the loop observes; an interrupt is
    observed only between cycles. */
module Scheduler {
  import opened Primitives
  import opened Settings
  import opened Backup

  datatype Event = Tick(inputs: TickInputs) | Signal

  /** The ticks the loop serves: those before the first signal, in order. */
  function TicksBeforeSignal(events: seq<Event>): seq<TickInputs> {
    if events == [] then []
    else match events[0]
      case Signal => []
      case Tick(t) => [t] + TicksBeforeSignal(events[1..])
  }

  /** The served ticks are exactly the events up to the first signal: each of
      them is a tick, and the event right after them, if any, is a signal. */
  lemma {:induction false} TicksBeforeSignalIsPrefix(events: seq<Event>)
    ensures var ticks := TicksBeforeSignal(events);
      && |ticks| <= |events|
      && (forall j :: 0 <= j < |ticks| ==> events[j] == Tick(ticks[j]))
      && (|ticks| < |events| ==> events[|ticks|] == Signal)
  {
    if events != [] && events[0].Tick? {
      TicksBeforeSignalIsPrefix(events[1..]);
    }
  }

  /** The loop over the observed events. It returns `terminated` when it met
      a signal; otherwise it is still waiting after the last event. */
  method Run(c: Crypto, cfg: Config, events: seq<Event>) returns (reports: seq<CycleReport>, terminated: bool)
    ensures terminated <==> Signal in events
    ensures |reports| == |TicksBeforeSignal(events)|
    ensures forall j :: 0 <= j < |reports| ==> reports[j] == CycleOutcome(c, cfg, TicksBeforeSignal(events)[j])
  {
    reports := [];
    ghost var served: seq<TickInputs> := [];
    var i := 0;
    while i < |events|
      invariant 0 <= i <= |events|
      invariant Signal !in events[..i]
      invariant TicksBeforeSignal(events) == served + TicksBeforeSignal(events[i..])
      invariant |reports| == |served|
      invariant forall j :: 0 <= j < |reports| ==> reports[j] == CycleOutcome(c, cfg, served[j])
    {
      if events[i] == Signal {
        assert events[i] in events;
        return reports, true;
      }
      var t := events[i].inputs;
      assert events[i..][1..] == events[i + 1..];
      var report := RunCycle(c, cfg, t);
      reports := reports + [report];
      served := served + [t];
      assert events[..i + 1] == events[..i] + [Tick(t)];
      i := i + 1;
    }
    assert events[..i] == events;
    return reports, false;
  }

  /** The events the loop observes when the interval elapses once for each
      of the given cycle inputs, in order. */
  function TicksAsEvents(ticks: seq<TickInputs>): seq<Event> {
    seq(|ticks|, j requires 0 <= j < |ticks| => Tick(ticks[j]))
  }

  /** Without an interrupt, every tick is served, in order, and the loop does
      not terminate (by `Run`'s contract it is still waiting). */
  lemma {:induction false} NoSignalServesAll(ticks: seq<TickInputs>)
    ensures Signal !in TicksAsEvents(ticks)
    ensures TicksBeforeSignal(TicksAsEvents(ticks)) == ticks
  {
    if ticks != [] {
      assert TicksAsEvents(ticks)[1..] == TicksAsEvents(ticks[1..]);
      NoSignalServesAll(ticks[1..]);
    }
  }

  /** Whatever follows the first signal is never served: a signal cuts the
      loop off no matter what ticks come after it. */
  lemma {:induction false} SignalEndsLoop(before: seq<TickInputs>, after: seq<Event>)
    ensures TicksBeforeSignal(TicksAsEvents(before) + [Signal] + after) == before
  {
    if before != [] {
      var events := TicksAsEvents(before) + [Signal] + after;
      assert events[1..] == TicksAsEvents(before[1..]) + [Signal] + after;
      SignalEndsLoop(before[1..], after);
    }
  }

  /** Two ticks, then an interrupt: exactly two cycles run, one per tick in
      order, whatever is observed after the interrupt. */
  lemma TwoTicksThenSignal(t1: TickInputs, t2: TickInputs, after: seq<Event>)
    ensures TicksBeforeSignal([Tick(t1), Tick(t2), Signal] + after) == [t1, t2]
  {
    SignalEndsLoop([t1, t2], after);
    assert TicksAsEvents([t1, t2]) + [Signal] + after == [Tick(t1), Tick(t2), Signal] + after;
  }
}
