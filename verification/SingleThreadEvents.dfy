/** The events of a single-thread download. */
module SingleThreadEvents {
  import opened Wrappers
  import opened Http
  import opened Segment
  import opened SingleThread

  datatype Event =
    | Probing
    | Started(total: Option<nat>)
    | Progress(downloaded: nat)
    | Completed(size: nat)
    | Cancelled
    | Failed

  function Reports(positions: seq<nat>): seq<Event> {
    seq(|positions|, i requires 0 <= i < |positions| => Progress(positions[i]))
  }

  // What the ticker of attempt t saw, and the position at the end.
  function AttemptEvents(data: seq<Byte>, plan: Plan, t: nat, origin: Origin, watch: Watch, seen: seq<nat>): seq<Event> {
    if Streams(data, plan, t, origin, watch)
    then Reports(seen) + [Progress(|Attempt(data, plan, t, origin, watch).0|)]
    else []
  }

  function RunEvents(data: seq<Byte>, plan: Plan, t: nat, origin: Origin, watch: nat -> Watch,
                     seen: nat -> seq<nat>): seq<Event>
    decreases plan.maxRetries - t
  {
    if watch(t).head then []
    else
      var (data', r) := Attempt(data, plan, t, origin, watch(t));
      AttemptEvents(data, plan, t, origin, watch(t), seen(t))
      + if r.Ok? || r.error == ErrCancelled || t + 1 >= plan.maxRetries || watch(t).backoff then []
        else RunEvents(data', plan, t + 1, origin, watch, seen)
  }

  // The probe's outcome, and the size it learned.
  datatype Probe = ProbeOk(size: Option<nat>) | ProbeFailed | ProbeCancelled

  // How the run and the final size check turn out.
  function LastEvent(end: seq<Byte>, verdict: Verdict, size: Option<nat>): Event {
    if verdict == WasCancelled then Cancelled
    else if verdict == Finished && (size.None? || size.value == |end|) then Completed(|end|)
    else Failed
  }

  /** Everything a download reports. */
  function Events(data: seq<Byte>, probe: Probe, plan: Plan, origin: Origin, watch: nat -> Watch,
                  seen: nat -> seq<nat>): seq<Event> {
    match probe
    case ProbeFailed => [Probing, Failed]
    case ProbeCancelled => [Probing, Cancelled]
    case ProbeOk(size) =>
      var p := plan.(expected := size);
      var (end, verdict) := Run(data, p, 0, origin, watch);
      [Probing, Started(size)] + RunEvents(data, p, 0, origin, watch, seen) + [LastEvent(end, verdict, size)]
  }

  // ----- guarantees -----

  ghost predicate OnlyProgress(log: seq<Event>) {
    forall i :: 0 <= i < |log| ==> log[i].Progress?
  }

  // If anything was reported, the last report is the length of the file.
  ghost predicate LastIs(log: seq<Event>, bytes: nat) {
    log != [] ==> log[|log| - 1] == Progress(bytes)
  }

  lemma QuietAttempt(data: seq<Byte>, plan: Plan, t: nat, origin: Origin, watch: Watch)
    requires !Streams(data, plan, t, origin, watch)
    ensures Attempt(data, plan, t, origin, watch).0 == data
    ensures Attempt(data, plan, t, origin, watch).1.Ok? ==> LooksComplete(data, plan)
  {
  }

  lemma {:induction false} RunReports(data: seq<Byte>, plan: Plan, t: nat, origin: Origin, watch: nat -> Watch,
                                      seen: nat -> seq<nat>)
    ensures var log, end := RunEvents(data, plan, t, origin, watch, seen), Run(data, plan, t, origin, watch);
            && OnlyProgress(log) && LastIs(log, |end.0|)
            && (log == [] ==> end.0 == data)
            && (log == [] && end.1 == Finished ==> LooksComplete(data, plan))
    decreases plan.maxRetries - t
  {
    if !watch(t).head {
      var (data', r) := Attempt(data, plan, t, origin, watch(t));
      if !Streams(data, plan, t, origin, watch(t)) {
        QuietAttempt(data, plan, t, origin, watch(t));
      }
      if r.Err? && r.error != ErrCancelled && t + 1 < plan.maxRetries && !watch(t).backoff {
        RunReports(data', plan, t + 1, origin, watch, seen);
      }
    }
  }

  ghost predicate WasCancelledBy(data: seq<Byte>, probe: Probe, plan: Plan, origin: Origin, watch: nat -> Watch) {
    match probe
    case ProbeFailed => false
    case ProbeCancelled => true
    case ProbeOk(size) => Run(data, plan.(expected := size), 0, origin, watch).1 == WasCancelled
  }

  ghost predicate WasCompletedBy(data: seq<Byte>, probe: Probe, plan: Plan, origin: Origin, watch: nat -> Watch) {
    probe.ProbeOk?
    && var (end, verdict) := Run(data, plan.(expected := probe.size), 0, origin, watch);
       verdict == Finished && (probe.size.Some? ==> |end| == probe.size.value)
  }

  ghost predicate LifeCycle(log: seq<Event>) {
    && |log| >= 2 && log[0] == Probing
    && var last := log[|log| - 1];
       && (last.Completed? || last.Cancelled? || last.Failed?)
       && (|log| == 2 ==> !last.Completed?)
       && (|log| > 2 ==> log[1].Started? && OnlyProgress(log[2..|log| - 1]))
  }

  /** Probing, Started at most once, progress, and one terminal event. A Completed reports the
      size of the file, and so does the last progress before it; there is none only when the
      file was taken for complete as it was found. */
  lemma EventsFormALifeCycle(data: seq<Byte>, probe: Probe, plan: Plan, origin: Origin, watch: nat -> Watch,
                             seen: nat -> seq<nat>)
    ensures var log := Events(data, probe, plan, origin, watch, seen);
            && LifeCycle(log)
            && (log[|log| - 1].Cancelled? ==> WasCancelledBy(data, probe, plan, origin, watch))
            && (log[|log| - 1].Completed? <==> WasCompletedBy(data, probe, plan, origin, watch))
            && (log[|log| - 1].Completed? ==>
                  && LastIs(log[2..|log| - 1], log[|log| - 1].size)
                  && (|log| == 3 ==> LooksComplete(data, plan.(expected := probe.size)) && |data| == log[2].size))
  {
    var log := Events(data, probe, plan, origin, watch, seen);
    if probe.ProbeOk? {
      var p := plan.(expected := probe.size);
      RunReports(data, p, 0, origin, watch, seen);
      assert log[2..|log| - 1] == RunEvents(data, p, 0, origin, watch, seen);
    }
  }
}
