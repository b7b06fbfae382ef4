/** The metrics-gathering goroutine: one sample as soon as it starts, one per
    ticker tick, and after a quit signal exactly one more before it returns.
    The ticker and the quit channel are given as the order in which the
    goroutine's `select` receives from them. */
module Gathering {
  import opened Wrappers
  import opened Cli

  /** Milliseconds between two samples (the one-second ticker). */
  const SampleIntervalMs: int := 1000

  /** The command's state as the command_status metric reports it. */
  datatype CommandStatus = Pending | Running | Done

  function StatusCode(s: CommandStatus): (code: nat)
    ensures code <= 2
    ensures s.Pending? <==> code == 0
    ensures s.Done? <==> code == 2
  {
    match s
    case Pending => 0
    case Running => 1
    case Done => 2
  }

  /** What the goroutine's `select` receives: a tick (with the command status
      the gathering that follows it reads) or the quit signal. */
  datatype Event = Tick(status: CommandStatus) | Quit

  /** One gathering: the seconds counter, the timestamp every line of it
      carries, and the command status it reports. */
  datatype Sample = Sample(index: nat, timestamp: int, status: CommandStatus)

  /** The timestamp of the k-th gathering: virtual, not the wall clock. */
  function Timestamp(start: int, k: nat): (t: int)
    ensures t - start == k * SampleIntervalMs
  {
    start + k * SampleIntervalMs
  }

  /** The metrics start time: the override, unless it is -1, else the real
      start of the command in milliseconds. */
  function MetricsStartTime(override: int, nowMs: int): (t: int)
    ensures override != NoStartTimeOverride ==> t == override
    ensures override == NoStartTimeOverride ==> t == nowMs
  {
    if override != NoStartTimeOverride then override else nowMs
  }

  /** Number of ticks in a trace. */
  function Ticks(events: seq<Event>): (n: nat)
    ensures n <= |events|
  {
    if events == [] then 0
    else Ticks(events[..|events| - 1]) + (if events[|events| - 1].Tick? then 1 else 0)
  }

  /** The samples a goroutine started with `initial` as command status has
      taken after receiving `events`. */
  function Samples(start: int, initial: CommandStatus, events: seq<Event>): (s: seq<Sample>)
    ensures |s| == 1 + Ticks(events)
  {
    if events == [] then [Sample(0, start, initial)]
    else
      var before := Samples(start, initial, events[..|events| - 1]);
      match events[|events| - 1]
      case Tick(status) => before + [Sample(|before|, Timestamp(start, |before|), status)]
      case Quit => before
  }

  /** The first position at or after `from` holding a quit (quit == true) or
      a tick (quit == false). */
  function FirstFrom(events: seq<Event>, quit: bool, from: nat): (r: Option<nat>)
    ensures r.Some? ==> from <= r.value < |events| && events[r.value].Quit? == quit
    ensures r.Some? ==> forall j :: from <= j < r.value ==> events[j].Quit? != quit
    ensures r.None? ==> forall j :: from <= j < |events| ==> events[j].Quit? != quit
    decreases |events| - from
  {
    if from >= |events| then None
    else if events[from].Quit? == quit then Some(from)
    else FirstFrom(events, quit, from + 1)
  }

  /** The position of the tick on which the goroutine returns, when it
      receives events[i..] and a quit has (armed) or has not yet been seen. */
  function StopFrom(events: seq<Event>, i: nat, armed: bool): (r: Option<nat>)
    ensures r.Some? ==> i <= r.value < |events| && events[r.value].Tick?
    decreases |events| - i
  {
    if i >= |events| then None
    else
      match events[i]
      case Tick(_) => if armed then Some(i) else StopFrom(events, i + 1, false)
      case Quit => StopFrom(events, i + 1, true)
  }

  /** The tick on which the goroutine returns, if it returns. */
  function StopTick(events: seq<Event>): Option<nat> {
    StopFrom(events, 0, false)
  }

  /** startGathering: gather once, then loop over the select; a tick gathers
      and returns if a quit came before it, a quit marks the next tick as the
      last. Returns the samples taken, whether it returned, and how many
      events it received. */
  method StartGathering(start: int, initial: CommandStatus, events: seq<Event>)
    returns (samples: seq<Sample>, stopped: bool, consumed: nat)
    ensures stopped <==> StopTick(events).Some?
    ensures consumed == if stopped then StopTick(events).value + 1 else |events|
    ensures consumed <= |events|
    ensures samples == Samples(start, initial, events[..consumed])
  {
    var seconds := 0;
    samples := [Sample(seconds, Timestamp(start, seconds), initial)];
    var stopNext := false;
    consumed := 0;
    stopped := false;
    while consumed < |events|
      invariant consumed <= |events|
      invariant samples == Samples(start, initial, events[..consumed])
      invariant seconds + 1 == |samples|
      invariant StopFrom(events, consumed, stopNext) == StopTick(events)
      decreases |events| - consumed
    {
      assert events[..consumed + 1][..consumed] == events[..consumed];
      match events[consumed]
      case Tick(status) =>
        seconds := seconds + 1;
        samples := samples + [Sample(seconds, Timestamp(start, seconds), status)];
        consumed := consumed + 1;
        if stopNext {
          stopped := true;
          return;
        }
      case Quit =>
        stopNext := true;
        consumed := consumed + 1;
    }
  }

  /** The statuses the ticks of a trace carry, in order. */
  function TickStatuses(events: seq<Event>): (r: seq<CommandStatus>)
    ensures |r| == Ticks(events)
  {
    if events == [] then []
    else
      var before := TickStatuses(events[..|events| - 1]);
      match events[|events| - 1]
      case Tick(status) => before + [status]
      case Quit => before
  }

  /** Sample k has index k and the timestamp start + k seconds; the first
      reports the status the goroutine started with and the others the
      statuses of the ticks, in order. */
  lemma {:induction false} SamplesShape(start: int, initial: CommandStatus, events: seq<Event>)
    ensures var s := Samples(start, initial, events);
      (forall k :: 0 <= k < |s| ==> s[k].index == k && s[k].timestamp == Timestamp(start, k)) &&
      s[0].status == initial &&
      (forall k :: 1 <= k < |s| ==> s[k].status == TickStatuses(events)[k - 1])
    decreases |events|
  {
    if events != [] {
      SamplesShape(start, initial, events[..|events| - 1]);
    }
  }

  lemma {:induction false} TicksAppend(a: seq<Event>, b: seq<Event>)
    ensures Ticks(a + b) == Ticks(a) + Ticks(b)
    decreases |b|
  {
    if b != [] {
      assert (a + b)[..|a + b| - 1] == a + b[..|b| - 1];
      TicksAppend(a, b[..|b| - 1]);
    } else {
      assert a + b == a;
    }
  }

  /** Once armed, the goroutine returns on the first tick. */
  lemma {:induction false} ArmedStopsAtNextTick(events: seq<Event>, i: nat)
    ensures StopFrom(events, i, true) == FirstFrom(events, false, i)
    decreases |events| - i
  {
    if i < |events| && events[i].Quit? {
      ArmedStopsAtNextTick(events, i + 1);
    }
  }

  lemma {:induction false} UnarmedStop(events: seq<Event>, i: nat)
    ensures StopFrom(events, i, false) ==
      match FirstFrom(events, true, i)
      case None => None
      case Some(q) => FirstFrom(events, false, q + 1)
    decreases |events| - i
  {
    if i < |events| {
      if events[i].Tick? {
        UnarmedStop(events, i + 1);
      } else {
        ArmedStopsAtNextTick(events, i + 1);
      }
    }
  }

  /** The goroutine returns exactly on the first tick after the first quit,
      and runs on for as long as no quit arrives. */
  lemma StopTickIsFirstTickAfterQuit(events: seq<Event>)
    ensures StopTick(events) ==
      match FirstFrom(events, true, 0)
      case None => None
      case Some(q) => FirstFrom(events, false, q + 1)
    ensures Quit !in events ==> StopTick(events).None?
  {
    UnarmedStop(events, 0);
  }

  /** After the quit signal exactly one more sample is taken: the one of the
      tick on which the goroutine returns. */
  lemma OneSampleAfterQuit(start: int, initial: CommandStatus, events: seq<Event>, q: nat)
    requires FirstFrom(events, true, 0) == Some(q)
    requires StopTick(events).Some?
    ensures var t := StopTick(events).value;
      q < t &&
      |Samples(start, initial, events[..t + 1])| == |Samples(start, initial, events[..q + 1])| + 1
  {
    StopTickIsFirstTickAfterQuit(events);
    var t := StopTick(events).value;
    assert events[..t + 1] == events[..q + 1] + events[q + 1..t] + [events[t]];
    TicksAppend(events[..q + 1], events[q + 1..t]);
    TicksAppend(events[..q + 1] + events[q + 1..t], [events[t]]);
    QuitsOnly(events[q + 1..t]);
    assert [events[t]][..0] == [];
  }

  lemma {:induction false} QuitsOnly(events: seq<Event>)
    requires forall j :: 0 <= j < |events| ==> events[j].Quit?
    ensures Ticks(events) == 0
    decreases |events|
  {
    if events != [] {
      QuitsOnly(events[..|events| - 1]);
    }
  }

  lemma {:induction false} TickStatusesAppend(a: seq<Event>, b: seq<Event>)
    ensures TickStatuses(a + b) == TickStatuses(a) + TickStatuses(b)
    decreases |b|
  {
    if b != [] {
      assert (a + b)[..|a + b| - 1] == a + b[..|b| - 1];
      TickStatusesAppend(a, b[..|b| - 1]);
    } else {
      assert a + b == a;
    }
  }

  /** n ticks in a row, each reading the same status. */
  function Repeat(status: CommandStatus, n: nat): (r: seq<Event>)
    ensures |r| == n
    ensures forall i :: 0 <= i < n ==> r[i] == Tick(status)
  {
    if n == 0 then [] else Repeat(status, n - 1) + [Tick(status)]
  }

  lemma {:induction false} RepeatStatuses(status: CommandStatus, n: nat)
    ensures TickStatuses(Repeat(status, n)) == seq(n, _ => status)
    decreases n
  {
    if n > 0 {
      assert Repeat(status, n)[..n - 1] == Repeat(status, n - 1);
      RepeatStatuses(status, n - 1);
    }
  }

  /** A run of ticks received before any quit does not stop the goroutine:
      where it returns is decided by what follows the run. */
  lemma {:induction false} StopAfterTicks(events: seq<Event>, i: nat, n: nat, status: CommandStatus)
    requires i + n <= |events|
    requires forall j :: i <= j < i + n ==> events[j] == Tick(status)
    ensures StopFrom(events, i, false) == StopFrom(events, i + n, false)
    decreases n
  {
    if n > 0 {
      StopAfterTicks(events, i + 1, n - 1, status);
    }
  }
}
