/** The multi-thread resumable download as a step system.

    One machine, one destination path, one server. The workers of a run write into
    the data file and publish their positions; a checkpoint task reads the positions
    one at a time and replaces the state file; the process may be killed, or lose
    power, between any two steps; the resource may move to a newer version at any
    moment. A run's version is the one its probe saw, Sys.probed. */
module Protocol {
  import opened Wrappers
  import opened State
  import opened Http

  datatype Config = Config(
    versions: seq<Resource>,  // the resource over time, oldest first
    url: string,
    threads: nat,
    minChunk: nat,
    durable: bool,            // durable_resume
    powerLoss: bool)          // whether power may fail at all

  // ----- one run -----

  datatype StopReason = Cancelled | ResourceChanged | NoRangeSupport | RetryExhausted

  datatype Pc =
    | Head                       // at the loop head of worker_loop
    | Streaming(ver: nat)        // a 206 of that version is open at `current`
    | Written(ver: nat, n: nat)  // n bytes written at `current`, not yet published
    | Stored(ver: nat, n: nat)   // `current` published, `downloaded` not yet advanced
    | Done
    | Stopped(why: StopReason)

  datatype Saver =
    | Waiting
    | Reading(last: bool, seen: seq<nat>)  // positions read so far
    | Snapped(last: bool, st: DownloadState)
    | Synced(last: bool, st: DownloadState)
    | TempReady(last: bool, st: DownloadState)
    | Exited

  datatype Stage = Working | Draining | Verified | Flushed

  datatype Job = Job(
    ranges: seq<WorkerRange>,
    pcs: seq<Pc>,
    downloaded: int,
    skipped: nat,        // bytes this run passed over because of a 416
    saver: Saver,
    stage: Stage,
    reporting: bool)     // the progress task is alive

  datatype Verdict = Complete | WasCancelled | Changed | Failed | SizeMismatch

  datatype Run =
    | Idle
    | Probing
    | Probed
    | Loaded(ranges: seq<WorkerRange>)
    | Sized(ranges: seq<WorkerRange>)
    | Active(job: Job)
    | Returned(verdict: Verdict)

  datatype Event =
    | EvProbing
    | EvStarted(total: nat)
    | EvProgress(downloaded: int)
    | EvCompleted(size: nat)
    | EvCancelled
    | EvFailed

  // ----- the whole system -----

  datatype Sys = Sys(
    now: nat,                      // version the server has
    probed: nat,                   // version the latest probe saw
    cache: seq<Byte>,              // data file in the page cache
    disk: seq<Byte>,               // data file on the medium
    live: Option<DownloadState>,   // state file as the process sees it
    dur: Option<DownloadState>,    // state file on the medium
    temp: Option<DownloadState>,   // temporary sibling of the state file
    holes: set<nat>,               // offsets a 416 passed over and nobody fetched since
    diskHoles: set<nat>,           // the same, of the medium
    cancelled: bool,
    log: seq<Event>,               // events of the current download
    run: Run)

  datatype WorkerAct =
    | Partial | Full | Unsatisfiable | Chunk(n: nat) | Publish | Count
    | EndStream | Abandon | Finish | GiveUp | ObserveCancel

  datatype SaverAct = Begin | ReadNext | Assemble | Sync | WriteTemp | Rename | SaveFails

  datatype Step =
    | Advance | Writeback(k: nat) | WritebackLength | WritebackEntry | Kill | PowerLoss | Cancel
    | StartRun | ProbeOk | ProbeFails | ProbeCancelled | Load | OpenFails | SetLength | SyncLength
    | Worker(i: nat, act: WorkerAct) | Save(sact: SaverAct)
    | Tick | Drain | LastTick | Conclude | FinalSync | FinalDelete

  ghost function Current(c: Config, s: Sys): Resource
    requires s.probed < |c.versions|
  {
    c.versions[s.probed]
  }

  // ----- files -----

  function Zeros(n: nat): seq<Byte> {
    seq(n, _ => 0)
  }

  function Resize(f: seq<Byte>, n: nat): (r: seq<Byte>)
    ensures |r| == n
    ensures forall k :: 0 <= k < n && k < |f| ==> r[k] == f[k]
  {
    if n <= |f| then f[..n] else f + Zeros(n - |f|)
  }

  function Overwrite(f: seq<Byte>, at: nat, b: seq<Byte>): (r: seq<Byte>)
    ensures |r| == Max(|f|, at + |b|)
    ensures forall k :: at <= k < at + |b| ==> r[k] == b[k - at]
    ensures forall k :: 0 <= k < |f| && !(at <= k < at + |b|) ==> r[k] == f[k]
  {
    var g := Resize(f, Max(|f|, at + |b|));
    g[..at] + b + g[at + |b|..]
  }

  function Span(lo: nat, hi: nat): (r: set<nat>)
    ensures forall k :: k in r <==> lo <= k < hi
    decreases hi - lo
  {
    if lo >= hi then {} else {lo} + Span(lo + 1, hi)
  }

  // ----- worker steps -----

  function SetPc(s: Sys, j: Job, i: nat, pc: Pc): Sys
    requires i < |j.pcs|
  {
    s.(run := Active(j.(pcs := j.pcs[i := pc])))
  }

  function SetCurrent(ws: seq<WorkerRange>, i: nat, pos: nat): seq<WorkerRange>
    requires i < |ws|
  {
    ws[i := ws[i].(current := pos)]
  }

  ghost function WorkerStep(c: Config, s: Sys, i: nat, act: WorkerAct): Option<Sys> {
    if !s.run.Active? || s.run.job.stage != Working || i >= |s.run.job.pcs| || i >= |s.run.job.ranges|
       || s.probed >= |c.versions| || s.now >= |c.versions| then None else
    var j := s.run.job;
    var w, pc := j.ranges[i], j.pcs[i];
    var ifRange := IfRangeValidator(Current(c, s));
    var asking := pc.Head? && w.current < w.end;
    match act
    case Partial =>
      if asking && Honours(ifRange, c.versions[s.now])
      then Some(SetPc(s, j, i, Streaming(s.now))) else None
    case Full =>
      if asking
      then Some(SetPc(s, j, i, Stopped(if ifRange.Some? then ResourceChanged else NoRangeSupport))) else None
    case Unsatisfiable =>
      if asking
      then Some(s.(holes := s.holes + Span(w.current, w.end), diskHoles := s.diskHoles + Span(w.current, w.end),
                   run := Active(j.(ranges := SetCurrent(j.ranges, i, w.end),
                                    skipped := j.skipped + (w.end - w.current))))) else None
    case Chunk(n) =>
      if pc.Streaming? && pc.ver < |c.versions| && w.current < w.end
         && n > 0 && w.current + n <= |c.versions[pc.ver].bytes| then
        var len := Min(n, w.end - w.current);
        var piece := c.versions[pc.ver].bytes[w.current..w.current + len];
        Some(SetPc(s, j, i, Written(pc.ver, len)).(cache := Overwrite(s.cache, w.current, piece),
                                                   holes := s.holes - Span(w.current, w.current + len)))
      else None
    case Publish =>
      if pc.Written?
      then Some(s.(run := Active(j.(ranges := SetCurrent(j.ranges, i, w.current + pc.n),
                                    pcs := j.pcs[i := Stored(pc.ver, pc.n)])))) else None
    case Count =>
      if pc.Stored?
      then Some(s.(run := Active(j.(downloaded := j.downloaded + pc.n,
                                    pcs := j.pcs[i := if w.current >= w.end then Head else Streaming(pc.ver)]))))
      else None
    case EndStream => if pc.Streaming? then Some(SetPc(s, j, i, Head)) else None
    case Abandon => if pc.Written? then Some(SetPc(s, j, i, Head)) else None
    case Finish => if pc.Head? && w.current >= w.end then Some(SetPc(s, j, i, Done)) else None
    case GiveUp =>
      if asking || pc.Streaming? || pc.Written?
      then Some(SetPc(s, j, i, Stopped(RetryExhausted))) else None
    case ObserveCancel =>
      if s.cancelled && (asking || pc.Streaming?) then Some(SetPc(s, j, i, Stopped(Cancelled))) else None
  }

  // Everything in the page cache reaches the medium.
  function Flush(s: Sys): Sys {
    s.(disk := s.cache, diskHoles := s.holes)
  }

  // ----- checkpoint steps -----

  // The state file of a download of r with these ranges.
  function StateFor(c: Config, r: Resource, ranges: seq<WorkerRange>): DownloadState {
    DownloadState(STATE_FILE_VERSION, c.url, |r.bytes|, r.etag, r.lastModified, ranges)
  }

  function Snapshot(c: Config, r: Resource, ranges: seq<WorkerRange>, seen: seq<nat>): DownloadState
    requires |seen| == |ranges|
  {
    StateFor(c, r, seq(|ranges|, i requires 0 <= i < |ranges| => WorkerRange(ranges[i].start, seen[i], ranges[i].end)))
  }

  function AfterCheckpoint(last: bool): Saver {
    if last then Exited else Waiting
  }

  ghost function SaverStep(c: Config, s: Sys, act: SaverAct): Option<Sys> {
    if !s.run.Active? || s.run.job.stage !in {Working, Draining} || s.probed >= |c.versions| then None else
    var j := s.run.job;
    match (act, j.saver)
    case (Begin, Waiting) => Some(s.(run := Active(j.(saver := Reading(j.stage.Draining?, [])))))
    case (ReadNext, Reading(last, seen)) =>
      if |seen| < |j.ranges| then
        var w := j.ranges[|seen|];
        Some(s.(run := Active(j.(saver := Reading(last, seen + [Min(w.current, w.end)])))))
      else None
    case (Assemble, Reading(last, seen)) =>
      if |seen| == |j.ranges|
      then Some(s.(run := Active(j.(saver := Snapped(last, Snapshot(c, Current(c, s), j.ranges, seen)))))) else None
    case (Sync, Snapped(last, st)) =>
      Some((if c.durable then Flush(s) else s).(run := Active(j.(saver := Synced(last, st)))))
    case (WriteTemp, Synced(last, st)) =>
      Some(s.(temp := Some(st), run := Active(j.(saver := TempReady(last, st)))))
    case (Rename, TempReady(last, st)) =>
      Some(s.(live := s.temp, temp := None, run := Active(j.(saver := AfterCheckpoint(last)))))
    case (SaveFails, Synced(last, st)) =>
      Some(s.(run := Active(j.(saver := AfterCheckpoint(last)))))
    case (SaveFails, TempReady(last, st)) =>
      Some(s.(run := Active(j.(saver := AfterCheckpoint(last)))))
    case _ => None
  }

  // ----- the orchestrator -----

  ghost predicate Loads(live: Option<DownloadState>, r: Resource) {
    live.Some? && Usable(live.value) && Resumable(live.value, r)
  }

  ghost function PickRanges(c: Config, live: Option<DownloadState>, r: Resource): seq<WorkerRange>
    requires |r.bytes| > 0
  {
    if Loads(live, r) then live.value.workers else Split(|r.bytes|, c.threads, c.minChunk)
  }

  ghost predicate Ended(pc: Pc) {
    pc.Done? || pc.Stopped?
  }

  function FirstPc(w: WorkerRange): Pc {
    if w.start >= w.end then Done else Head
  }

  function StartJob(ranges: seq<WorkerRange>): Job {
    Job(ranges, seq(|ranges|, i requires 0 <= i < |ranges| => FirstPc(ranges[i])),
        TotalDownloaded(ranges), 0, Waiting, Working, true)
  }

  // The first error in worker order, cancellations aside.
  function FirstError(pcs: seq<Pc>): Option<StopReason> {
    if pcs == [] then None
    else if pcs[0].Stopped? && pcs[0].why != Cancelled then Some(pcs[0].why)
    else FirstError(pcs[1..])
  }

  function Terminal(v: Verdict, size: nat): Event {
    match v
    case Complete => EvCompleted(size)
    case WasCancelled => EvCancelled
    case _ => EvFailed
  }

  function Return(s: Sys, v: Verdict): Sys {
    s.(run := Returned(v), log := s.log + [Terminal(v, |s.cache|)])
  }

  ghost function ConcludeStep(c: Config, s: Sys, j: Job): Sys
    requires s.probed < |c.versions|
  {
    if Stopped(Cancelled) in j.pcs then Return(s, WasCancelled)
    else if FirstError(j.pcs) == Some(ResourceChanged) then Return(s.(live := None), Changed)
    else if FirstError(j.pcs).Some? then Return(s, Failed)
    else if j.downloaded != |Current(c, s).bytes| then Return(s, SizeMismatch)
    else s.(run := Active(j.(stage := Verified)))
  }

  ghost function MainStep(c: Config, s: Sys, step: Step): Option<Sys> {
    if s.probed >= |c.versions| || s.now >= |c.versions| then None else
    var size := |Current(c, s).bytes|;
    match (step, s.run)
    case (StartRun, Idle) => Some(s.(run := Probing, cancelled := false, log := [EvProbing]))
    case (StartRun, Returned(_)) => Some(s.(run := Probing, cancelled := false, log := [EvProbing]))
    case (ProbeFails, Probing) => Some(Return(s, Failed))
    case (ProbeCancelled, Probing) => if s.cancelled then Some(Return(s, WasCancelled)) else None
    case (ProbeOk, Probing) =>
      var total := |c.versions[s.now].bytes|;
      if total > 0
      then Some(s.(probed := s.now, holes := if s.now == s.probed then s.holes else {},
                   diskHoles := if s.now == s.probed then s.diskHoles else {}, run := Probed,
                   log := s.log + [EvStarted(total)]))
      else None
    case (Load, Probed) =>
      if size > 0 then Some(s.(run := Loaded(PickRanges(c, s.live, Current(c, s))))) else None
    case (OpenFails, Loaded(_)) => Some(Return(s, Failed))
    case (SetLength, Loaded(ranges)) => Some(s.(cache := Resize(s.cache, size), run := Sized(ranges)))
    case (SyncLength, Sized(ranges)) => Some(Flush(s).(run := Active(StartJob(ranges))))
    case (Tick, Active(j)) =>
      if j.reporting && j.stage.Working?
      then Some(s.(log := s.log + [EvProgress(j.downloaded)])) else None
    case (Drain, Active(j)) =>
      if j.stage.Working? && forall i :: 0 <= i < |j.pcs| ==> Ended(j.pcs[i])
      then Some(s.(run := Active(j.(stage := Draining)))) else None
    case (LastTick, Active(j)) =>
      if j.stage.Draining? && j.reporting
      then Some(s.(log := s.log + [EvProgress(j.downloaded)], run := Active(j.(reporting := false)))) else None
    case (Conclude, Active(j)) =>
      if j.stage.Draining? && !j.reporting && j.saver.Exited? then Some(ConcludeStep(c, s, j)) else None
    case (FinalSync, Active(j)) =>
      if j.stage.Verified? then Some(Flush(s).(run := Active(j.(stage := Flushed)))) else None
    case (FinalDelete, Active(j)) =>
      if j.stage.Flushed? then Some(Return(s.(live := None), Complete)) else None
    case _ => None
  }

  // ----- the world around the process -----

  // Only what is on the medium is left.
  function AfterPowerLoss(s: Sys): Sys {
    s.(run := Idle, cache := s.disk, holes := s.diskHoles, live := s.dur, temp := None)
  }

  ghost function WorldStep(c: Config, s: Sys, step: Step): Option<Sys> {
    match step
    case Advance => if s.now + 1 < |c.versions| then Some(s.(now := s.now + 1)) else None
    case Writeback(k) =>
      if k < |s.cache| && k < |s.disk|
      then Some(s.(disk := s.disk[k := s.cache[k]],
                   diskHoles := if k in s.holes then s.diskHoles else s.diskHoles - {k})) else None
    case WritebackLength => Some(s.(disk := Resize(s.disk, |s.cache|)))
    case WritebackEntry => Some(s.(dur := s.live))
    case Kill => Some(s.(run := Idle))
    case PowerLoss =>
      if c.powerLoss then Some(AfterPowerLoss(s)) else None
    case Cancel => Some(s.(cancelled := true))
    case _ => None
  }

  predicate InWorld(step: Step) {
    || step.Advance? || step.Writeback? || step.WritebackLength? || step.WritebackEntry?
    || step.Kill? || step.PowerLoss? || step.Cancel?
  }

  ghost function Fire(c: Config, s: Sys, step: Step): Option<Sys> {
    match step
    case Worker(i, act) => WorkerStep(c, s, i, act)
    case Save(act) => SaverStep(c, s, act)
    case _ => if InWorld(step) then WorldStep(c, s, step) else MainStep(c, s, step)
  }

  // Nothing downloaded yet; whatever file was at the destination is still there.
  function Init(leftover: seq<Byte>): Sys {
    Sys(0, 0, leftover, leftover, None, None, None, {}, {}, false, [], Idle)
  }

  /** The state a sequence of steps leads to, if every step is possible in turn. */
  ghost function Exec(c: Config, s: Sys, steps: seq<Step>): Option<Sys>
    decreases |steps|
  {
    if steps == [] then Some(s)
    else match Fire(c, s, steps[0])
      case None => None
      case Some(s') => Exec(c, s', steps[1..])
  }
}
