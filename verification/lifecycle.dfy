/** startCommand: the metrics start time, the command status moving from
    pending to running to done, the two Grafana annotations, and the samples
    the gathering goroutine takes meanwhile. The wall clock is given as the
    readings startCommand takes, whether the launch succeeds as a flag, and
    the ticks the goroutine receives in each phase as counts. */
module Lifecycle {
  import opened Wrappers
  import opened Gathering
  import opened Cli

  /** A Grafana annotation as the metrics file records it. */
  datatype Annotation = Annotation(time: int, timeEnd: int, text: string, tags: seq<string>)

  /** The moment an annotation marks: the metrics start time plus the
      milliseconds elapsed since the real start. */
  function AnnotationTime(metricsStart: int, nowMs: int, realStartMs: int): (t: int)
    ensures t - metricsStart == nowMs - realStartMs
  {
    metricsStart + nowMs - realStartMs
  }

  /** The "Command started" (done == false) or "Command done" annotation. */
  function CommandAnnotation(time: int, done: bool, instance: string, role: Role): (a: Annotation)
    ensures a.time == a.timeEnd == time
    ensures |a.tags| == 5 && a.tags[0] == "statexec"
    ensures a.text == "Command done" <==> done
  {
    Annotation(time, time, if done then "Command done" else "Command started",
      ["statexec", if done then "done" else "start", "instance=" + instance, "job=" + JobName, "role=" + RoleName(role)])
  }

  /** The events the goroutine receives: ticks while the command is pending,
      and, if it launched, ticks while it runs, ticks after it is done, the
      quit signal and the one tick that follows it. A failed launch ends the
      process, so nothing follows the pending ticks. */
  function Schedule(launched: bool, pending: nat, running: nat, after: nat): (r: seq<Event>)
    ensures |r| == pending + if launched then running + after + 2 else 0
    ensures forall k :: 0 <= k < pending ==> r[k] == Tick(Pending)
    ensures Quit in r <==> launched
    ensures launched ==> r[|r| - 2] == Quit && r[|r| - 1] == Tick(Done)
  {
    Repeat(Pending, pending) +
    if launched then Repeat(Running, running) + Repeat(Done, after) + [Quit, Tick(Done)] else []
  }

  /** A launched run's schedule, phase by phase. */
  lemma LaunchedSchedule(pending: nat, running: nat, after: nat)
    ensures Schedule(true, pending, running, after) ==
      Repeat(Pending, pending) + Repeat(Running, running) + Repeat(Done, after) + [Quit] + [Tick(Done)]
  {
  }

  /** The goroutine receives the whole schedule: it returns on its last tick
      when the command launched, and never otherwise. */
  lemma ScheduleStop(launched: bool, pending: nat, running: nat, after: nat)
    ensures var events := Schedule(launched, pending, running, after);
      StopTick(events) == if launched then Some(|events| - 1) else None
  {
    var events := Schedule(launched, pending, running, after);
    StopAfterTicks(events, 0, pending, Pending);
    if launched {
      StopAfterTicks(events, pending, running, Running);
      StopAfterTicks(events, pending + running, after, Done);
    }
  }

  /** The statuses the samples report, in order: pending first, then running,
      then done, each for as many ticks as the phase lasted. */
  lemma ScheduleStatuses(launched: bool, pending: nat, running: nat, after: nat)
    ensures var ts := TickStatuses(Schedule(launched, pending, running, after));
      |ts| == pending + (if launched then running + after + 1 else 0) &&
      forall k :: 0 <= k < |ts| ==>
        ts[k] == if k < pending then Pending else if k < pending + running then Running else Done
  {
    RepeatStatuses(Pending, pending);
    if launched {
      var rest := Repeat(Running, running) + Repeat(Done, after) + [Quit, Tick(Done)];
      LaunchedStatuses(running, after);
      TickStatusesAppend(Repeat(Pending, pending), rest);
    } else {
      assert Schedule(launched, pending, running, after) == Repeat(Pending, pending);
    }
  }

  lemma LaunchedStatuses(running: nat, after: nat)
    ensures TickStatuses(Repeat(Running, running) + Repeat(Done, after) + [Quit, Tick(Done)]) ==
      seq(running, _ => Running) + seq(after, _ => Done) + [Done]
  {
    var tail := [Quit, Tick(Done)];
    assert TickStatuses(tail) == [Done] by {
      assert tail[..1] == [Quit];
      assert [Quit][..0] == [];
    }
    RepeatStatuses(Running, running);
    RepeatStatuses(Done, after);
    TickStatusesAppend(Repeat(Running, running), Repeat(Done, after));
    TickStatusesAppend(Repeat(Running, running) + Repeat(Done, after), tail);
  }

  /** The command_status series of a run never goes back: every sample
      reports a status no earlier than the one before it; a run that
      launched ends on done after 2 + all its ticks samples, with timestamps
      one second apart from the metrics start time. */
  lemma StatusSeriesMonotone(start: int, launched: bool, pending: nat, running: nat, after: nat)
    ensures var s := Samples(start, Pending, Schedule(launched, pending, running, after));
      (forall i, j :: 0 <= i < j < |s| ==> StatusCode(s[i].status) <= StatusCode(s[j].status)) &&
      (forall k :: 0 <= k < |s| ==> s[k].timestamp == start + k * SampleIntervalMs) &&
      (launched ==> |s| == pending + running + after + 2 && s[|s| - 1].status == Done) &&
      (!launched ==> |s| == pending + 1 && forall k :: 0 <= k < |s| ==> s[k].status == Pending)
  {
    var events := Schedule(launched, pending, running, after);
    SamplesShape(start, Pending, events);
    ScheduleStatuses(launched, pending, running, after);
  }

  /** Both annotations are instants (time == timeEnd) tagged with statexec,
      their kind, and the instance, job and role; with a clock that does not
      go back they are no earlier than the metrics start time and the done
      annotation is no earlier than the start annotation. */
  lemma AnnotationsOrdered(metricsStart: int, realStartMs: int, startedMs: int, doneMs: int,
                           instance: string, role: Role)
    requires realStartMs <= startedMs <= doneMs
    ensures var started := CommandAnnotation(AnnotationTime(metricsStart, startedMs, realStartMs), false, instance, role);
      var done := CommandAnnotation(AnnotationTime(metricsStart, doneMs, realStartMs), true, instance, role);
      metricsStart <= started.time <= done.time &&
      started.time == started.timeEnd && done.time == done.timeEnd &&
      started.tags[..2] == ["statexec", "start"] && done.tags[..2] == ["statexec", "done"] &&
      started.tags[2..] == done.tags[2..] == ["instance=" + instance, "job=" + JobName, "role=" + RoleName(role)]
  {
  }

  /** The state startCommand works on: the command status and metrics start
      time (package globals in the program), the annotations appended to the
      metrics file, and the samples the gathering goroutine takes. */
  class Runner {
    var status: CommandStatus
    /** Every status startCommand has assigned, in order. */
    ghost var statusLog: seq<CommandStatus>
    var metricsStartTime: int
    var annotations: seq<Annotation>
    var samples: seq<Sample>
    /** What the gathering goroutine has received so far: each tick with the
        status the gathering after it read, and the quit signal. */
    ghost var received: seq<Event>

    /** The samples are those of a goroutine that started while the command
        was pending and has received `received`. */
    ghost predicate Gathered()
      reads this
    {
      samples == Samples(metricsStartTime, Pending, received)
    }

    constructor ()
      ensures status == Pending && statusLog == [] && annotations == [] && samples == [] && received == []
    {
      status := Pending;
      statusLog := [];
      metricsStartTime := 0;
      annotations := [];
      samples := [];
      received := [];
    }

    /** commandState = ...: the one place the status changes. */
    method SetStatus(s: CommandStatus)
      modifies this`status, this`statusLog
      ensures status == s && statusLog == old(statusLog) + [s]
    {
      status := s;
      statusLog := statusLog + [s];
    }

    /** writeAnnotation: the annotation is appended to the metrics file. */
    method WriteAnnotation(annotation: Annotation)
      modifies this`annotations
      ensures annotations == old(annotations) + [annotation]
    {
      annotations := annotations + [annotation];
    }

    /** One tick of the ticker: the goroutine gathers once, and the sample
        reports the command status as it is at that moment. */
    method Gather()
      requires Gathered()
      modifies this`samples, this`received
      ensures received == old(received) + [Tick(status)]
      ensures samples == old(samples) + [Sample(|old(samples)|, Timestamp(metricsStartTime, |old(samples)|), status)]
      ensures Gathered()
    {
      samples := samples + [Sample(|samples|, Timestamp(metricsStartTime, |samples|), status)];
      received := received + [Tick(status)];
      assert received[..|received| - 1] == old(received);
    }

    /** The n ticks that fall while the status stays as it is. */
    method GatherFor(n: nat)
      requires Gathered()
      modifies this`samples, this`received
      ensures received == old(received) + Repeat(status, n)
      ensures Gathered()
    {
      var k := 0;
      while k < n
        invariant k <= n
        invariant received == old(received) + Repeat(status, k)
        invariant Gathered()
      {
        Gather();
        assert received == old(received) + (Repeat(status, k) + [Tick(status)]);
        k := k + 1;
      }
    }

    /** stopGatheringMetrics: the quit signal reaches the goroutine, which
        takes no sample for it. */
    method SignalQuit()
      requires Gathered()
      modifies this`received
      ensures received == old(received) + [Quit]
      ensures Gathered()
    {
      received := received + [Quit];
      assert received[..|received| - 1] == old(received);
    }

    /** startCommand from a successful cmd.Start() on: the status becomes
        running and the started annotation is written; `running` ticks fall
        while the command runs; then the status becomes done and the done
        annotation is written; `after` ticks fall during the delay after the
        command, then the quit signal and the tick on which the goroutine
        returns. */
    method RunLaunched(startedMs: int, doneMs: int, realStartMs: int, running: nat, after: nat,
                       instance: string, role: Role)
      requires Gathered()
      modifies this`status, this`statusLog, this`annotations, this`samples, this`received
      ensures status == Done && statusLog == old(statusLog) + [Running, Done]
      ensures annotations == old(annotations) + [
        CommandAnnotation(AnnotationTime(metricsStartTime, startedMs, realStartMs), false, instance, role),
        CommandAnnotation(AnnotationTime(metricsStartTime, doneMs, realStartMs), true, instance, role)]
      ensures received == old(received) + Repeat(Running, running) + Repeat(Done, after) + [Quit] + [Tick(Done)]
      ensures Gathered()
    {
      SetStatus(Running);
      var started := CommandAnnotation(AnnotationTime(metricsStartTime, startedMs, realStartMs), false, instance, role);
      WriteAnnotation(started);
      GatherFor(running);
      SetStatus(Done);
      var done := CommandAnnotation(AnnotationTime(metricsStartTime, doneMs, realStartMs), true, instance, role);
      WriteAnnotation(done);
      GatherFor(after);
      SignalQuit();
      Gather();
    }

    /** startCommand. Returns the exit code when the launch fails (the
        program exits with 1) and None when the command ran and the
        gathering goroutine was waited for. The goroutine's first sample is
        taken while the command is pending and `pending` ticks fall before
        the launch (the delay before the command). */
    method StartCommand(override: int, realStartMs: int, startedMs: int, doneMs: int, launched: bool,
                        pending: nat, running: nat, after: nat, instance: string, role: Role)
      returns (exit: Option<int>)
      requires status == Pending
      modifies this
      ensures metricsStartTime == MetricsStartTime(override, realStartMs)
      ensures launched ==> exit.None? && status == Done && statusLog == old(statusLog) + [Running, Done]
      ensures launched ==> annotations == old(annotations) + [
        CommandAnnotation(AnnotationTime(metricsStartTime, startedMs, realStartMs), false, instance, role),
        CommandAnnotation(AnnotationTime(metricsStartTime, doneMs, realStartMs), true, instance, role)]
      ensures !launched ==> exit == Some(1) && status == Pending && statusLog == old(statusLog)
      ensures !launched ==> annotations == old(annotations)
      ensures received == Schedule(launched, pending, running, after)
      ensures samples == Samples(metricsStartTime, Pending, received)
    {
      metricsStartTime := MetricsStartTime(override, realStartMs);
      samples := [Sample(0, Timestamp(metricsStartTime, 0), status)];
      received := [];
      GatherFor(pending);
      assert received == Repeat(Pending, pending);
      if !launched {
        assert received == Schedule(launched, pending, running, after);
        return Some(1);
      }
      RunLaunched(startedMs, doneMs, realStartMs, running, after, instance, role);
      LaunchedSchedule(pending, running, after);
      exit := None;
    }
  }
}
