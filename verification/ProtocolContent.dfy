/** What every step of a resumable download keeps about bytes: each byte that a live
    worker or a saved state claims is the byte of the probed version. */
module ProtocolContent {
  import opened Wrappers
  import opened State
  import opened Http
  import opened Protocol

  ghost predicate Setting(c: Config) {
    && |c.versions| > 0
    && Identifies(c.versions)
    && (c.powerLoss ==> c.durable)
  }

  // The file holds b's bytes on [lo, hi), except where a 416 was believed.
  ghost predicate Right(f: seq<Byte>, b: seq<Byte>, holes: set<nat>, lo: nat, hi: nat) {
    forall k :: lo <= k < hi && k !in holes ==> k < |f| && k < |b| && f[k] == b[k]
  }

  ghost predicate Claims(ws: seq<WorkerRange>, f: seq<Byte>, b: seq<Byte>, holes: set<nat>) {
    forall i :: 0 <= i < |ws| ==> Right(f, b, holes, ws[i].start, ws[i].current)
  }

  // Same cut, and no saved position is ahead of the live one.
  ghost predicate Behind(saved: seq<WorkerRange>, live: seq<WorkerRange>) {
    && |saved| == |live|
    && forall i :: 0 <= i < |saved| ==>
         saved[i].start == live[i].start && saved[i].end == live[i].end
         && saved[i].start <= saved[i].current <= live[i].current
  }

  // ----- saved states -----

  ghost predicate FromPast(c: Config, probed: nat, st: DownloadState) {
    Usable(st) && exists v :: 0 <= v <= probed < |c.versions| && SavedBy(c.versions[v], st)
  }

  /** What a state file must say true about a data file, if a run of this version would use it. */
  ghost predicate Honest(st: Option<DownloadState>, r: Resource, f: seq<Byte>, holes: set<nat>) {
    st.Some? && Resumable(st.value, r) ==> Claims(st.value.workers, f, r.bytes, holes)
  }

  ghost predicate PastStates(c: Config, s: Sys) {
    && (s.live.Some? ==> FromPast(c, s.probed, s.live.value))
    && (s.dur.Some? ==> FromPast(c, s.probed, s.dur.value))
  }

  ghost predicate HonestStates(c: Config, s: Sys)
    requires s.probed < |c.versions|
  {
    var r := Current(c, s);
    && Honest(s.live, r, s.cache, s.holes)
    && (c.durable ==>
          && Honest(s.live, r, s.disk, s.diskHoles)
          && Honest(s.dur, r, s.cache, s.holes)
          && Honest(s.dur, r, s.disk, s.diskHoles))
  }

  // ----- a run in progress -----

  ghost predicate PcTrue(pc: Pc, w: WorkerRange, probed: nat, b: seq<Byte>, f: seq<Byte>, holes: set<nat>) {
    match pc
    case Streaming(v) => v == probed
    case Written(v, n) =>
      v == probed && w.current + n <= w.end && Right(f, b, holes, w.current, w.current + n)
    case Stored(v, n) => v == probed && w.start + n <= w.current
    case Done => w.current == w.end
    case _ => true
  }

  ghost predicate PcsTrue(j: Job, probed: nat, b: seq<Byte>, f: seq<Byte>, holes: set<nat>) {
    && |j.pcs| == |j.ranges|
    && forall i :: 0 <= i < |j.pcs| ==> PcTrue(j.pcs[i], j.ranges[i], probed, b, f, holes)
  }

  ghost predicate SnapshotTrue(c: Config, s: Sys, st: DownloadState, ranges: seq<WorkerRange>)
    requires s.probed < |c.versions|
  {
    st.version == STATE_FILE_VERSION && SavedBy(Current(c, s), st) && Behind(st.workers, ranges)
  }

  ghost predicate OnDisk(c: Config, s: Sys, st: DownloadState)
    requires s.probed < |c.versions|
  {
    c.durable ==> Claims(st.workers, s.disk, Current(c, s).bytes, s.diskHoles)
  }

  ghost predicate SaverTrue(c: Config, s: Sys, saver: Saver, ranges: seq<WorkerRange>)
    requires s.probed < |c.versions|
  {
    match saver
    case Reading(_, seen) =>
      |seen| <= |ranges| && forall i :: 0 <= i < |seen| ==> ranges[i].start <= seen[i] <= ranges[i].current
    case Snapped(_, st) => SnapshotTrue(c, s, st, ranges)
    case Synced(_, st) => SnapshotTrue(c, s, st, ranges) && OnDisk(c, s, st)
    case TempReady(_, st) => SnapshotTrue(c, s, st, ranges) && OnDisk(c, s, st) && s.temp == Some(st)
    case _ => true
  }

  // A state file this run could have resumed from is one it did resume from, or has saved.
  ghost predicate LiveBehind(c: Config, s: Sys, ranges: seq<WorkerRange>)
    requires s.probed < |c.versions|
  {
    s.live.Some? && Resumable(s.live.value, Current(c, s)) ==> Behind(s.live.value.workers, ranges)
  }

  ghost predicate RangesTrue(c: Config, s: Sys, ranges: seq<WorkerRange>)
    requires s.probed < |c.versions|
  {
    var b := Current(c, s).bytes;
    Tiles(ranges, |b|) && Claims(ranges, s.cache, b, s.holes) && LiveBehind(c, s, ranges)
  }

  ghost predicate StageTrue(s: Sys, j: Job) {
    && (j.stage != Working ==> forall i :: 0 <= i < |j.pcs| ==> Ended(j.pcs[i]))
    && (j.stage.Verified? || j.stage.Flushed? ==> forall i :: 0 <= i < |j.pcs| ==> j.pcs[i] == Done)
    && (j.stage.Flushed? ==> s.disk == s.cache)
  }

  ghost predicate JobTrue(c: Config, s: Sys, j: Job)
    requires s.probed < |c.versions|
  {
    var b := Current(c, s).bytes;
    && RangesTrue(c, s, j.ranges)
    && |s.cache| == |b|
    && PcsTrue(j, s.probed, b, s.cache, s.holes)
    && SaverTrue(c, s, j.saver, j.ranges)
    && StageTrue(s, j)
  }

  ghost predicate WholeFile(c: Config, s: Sys)
    requires s.probed < |c.versions|
  {
    var b := Current(c, s).bytes;
    |s.cache| == |b| && s.disk == s.cache && Right(s.cache, b, s.holes, 0, |b|)
  }

  ghost predicate RunTrue(c: Config, s: Sys)
    requires s.probed < |c.versions|
  {
    match s.run
    case Loaded(ranges) => RangesTrue(c, s, ranges)
    case Sized(ranges) => RangesTrue(c, s, ranges) && |s.cache| == |Current(c, s).bytes|
    case Active(j) => JobTrue(c, s, j)
    case Returned(v) => v == Complete ==> WholeFile(c, s)
    case _ => true
  }

  ghost predicate Inv(c: Config, s: Sys) {
    && s.probed <= s.now < |c.versions|
    && s.holes <= s.diskHoles
    && PastStates(c, s)
    && HonestStates(c, s)
    && RunTrue(c, s)
  }

  lemma InitInv(c: Config, leftover: seq<Byte>)
    requires Setting(c)
    ensures Inv(c, Init(leftover))
  {
  }

  // ----- the claims of a state survive what happens to the files -----

  // Every offset that holds the right byte still does.
  ghost predicate KeepsRight(f: seq<Byte>, f': seq<Byte>, b: seq<Byte>) {
    forall k :: 0 <= k < |f| && k < |b| && f[k] == b[k] ==> k < |f'| && f'[k] == b[k]
  }

  // An offset that is no longer passed over has been fetched.
  ghost predicate Healed(f: seq<Byte>, b: seq<Byte>, holes: set<nat>, holes': set<nat>) {
    forall k :: k in holes && k !in holes' ==> k < |f| && k < |b| && f[k] == b[k]
  }

  lemma ClaimsKept(ws: seq<WorkerRange>, f: seq<Byte>, f': seq<Byte>, b: seq<Byte>, holes: set<nat>, holes': set<nat>)
    requires Claims(ws, f, b, holes) && Healed(f', b, holes, holes')
    requires KeepsRight(f, f', b)
    ensures Claims(ws, f', b, holes')
  {
    forall i | 0 <= i < |ws| ensures Right(f', b, holes', ws[i].start, ws[i].current) {
      assert Right(f, b, holes, ws[i].start, ws[i].current);
    }
  }

  lemma BehindClaims(saved: seq<WorkerRange>, live: seq<WorkerRange>, f: seq<Byte>, b: seq<Byte>, holes: set<nat>)
    requires Behind(saved, live) && Claims(live, f, b, holes)
    ensures Claims(saved, f, b, holes)
  {
    forall i | 0 <= i < |saved| ensures Right(f, b, holes, saved[i].start, saved[i].current) {
      assert Right(f, b, holes, live[i].start, live[i].current);
    }
  }

  lemma HonestKept(st: Option<DownloadState>, r: Resource, f: seq<Byte>, f': seq<Byte>, holes: set<nat>, holes': set<nat>)
    requires Honest(st, r, f, holes) && Healed(f', r.bytes, holes, holes')
    requires KeepsRight(f, f', r.bytes)
    ensures Honest(st, r, f', holes')
  {
    if st.Some? && Resumable(st.value, r) {
      ClaimsKept(st.value.workers, f, f', r.bytes, holes, holes');
    }
  }

  // ----- worker steps -----

  lemma Continue(c: Config, s: Sys, j: Job)
    requires Inv(c, s) && JobTrue(c, s, j)
    ensures Inv(c, s.(run := Active(j)))
  {
  }

  // Nothing the other predicates look at changes when one worker only moves its pc.
  lemma MovePc(c: Config, s: Sys, i: nat, pc: Pc)
    requires Inv(c, s) && s.run.Active? && s.run.job.stage == Working && i < |s.run.job.pcs|
    requires PcTrue(pc, s.run.job.ranges[i], s.probed, Current(c, s).bytes, s.cache, s.holes)
    ensures Inv(c, SetPc(s, s.run.job, i, pc))
  {
  }

  lemma PartialKeeps(c: Config, s: Sys, s': Sys, i: nat)
    requires Setting(c) && Inv(c, s) && WorkerStep(c, s, i, Partial) == Some(s')
    ensures Inv(c, s')
  {
    MovePc(c, s, i, Streaming(s.now));
  }

  // The cache changes, and every right byte in it stays right.
  ghost predicate CacheGrows(c: Config, s: Sys, f: seq<Byte>, holes: set<nat>)
    requires s.probed < |c.versions|
  {
    KeepsRight(s.cache, f, Current(c, s).bytes) && Healed(f, Current(c, s).bytes, s.holes, holes)
  }

  lemma CacheInStates(c: Config, s: Sys, f: seq<Byte>, holes: set<nat>)
    requires s.probed < |c.versions| && HonestStates(c, s) && CacheGrows(c, s, f, holes)
    ensures HonestStates(c, s.(cache := f, holes := holes))
  {
    HonestKept(s.live, Current(c, s), s.cache, f, s.holes, holes);
    if c.durable {
      HonestKept(s.dur, Current(c, s), s.cache, f, s.holes, holes);
    }
  }

  lemma CacheInJob(c: Config, s: Sys, j: Job, f: seq<Byte>, holes: set<nat>)
    requires s.probed < |c.versions| && JobTrue(c, s, j) && j.stage == Working
    requires |f| == |s.cache| && CacheGrows(c, s, f, holes)
    ensures JobTrue(c, s.(cache := f, holes := holes), j)
  {
    var b := Current(c, s).bytes;
    ClaimsKept(j.ranges, s.cache, f, b, s.holes, holes);
    PcsKept(j, s.probed, b, s.cache, f, s.holes, holes);
    SaverKept(c, s, s.(cache := f, holes := holes), j.saver, j.ranges);
  }

  lemma CacheChanges(c: Config, s: Sys, f: seq<Byte>, holes: set<nat>)
    requires Inv(c, s) && s.run.Active? && s.run.job.stage == Working
    requires |f| == |s.cache| && CacheGrows(c, s, f, holes) && holes <= s.holes
    ensures Inv(c, s.(cache := f, holes := holes))
  {
    CacheInStates(c, s, f, holes);
    CacheInJob(c, s, s.run.job, f, holes);
  }

  // What a worker writes are bytes of the probed version, inside its own range.
  lemma ChunkWrites(c: Config, s: Sys, s': Sys, i: nat, n: nat) returns (len: nat)
    requires Inv(c, s) && WorkerStep(c, s, i, Chunk(n)) == Some(s')
    ensures var w, b := s.run.job.ranges[i], Current(c, s).bytes;
            && w.current + len <= w.end <= |b| && len == Min(n, w.end - w.current)
            && s'.cache == Overwrite(s.cache, w.current, b[w.current..w.current + len])
            && s'.holes == s.holes - Span(w.current, w.current + len)
            && s' == SetPc(s.(cache := s'.cache, holes := s'.holes), s.run.job, i, Written(s.probed, len))
  {
    var j, b := s.run.job, Current(c, s).bytes;
    assert PcTrue(j.pcs[i], j.ranges[i], s.probed, b, s.cache, s.holes);
    EndsBounded(j.ranges, |b|, i);
    len := Min(n, j.ranges[i].end - j.ranges[i].current);
  }

  lemma ChunkKeeps(c: Config, s: Sys, s': Sys, i: nat, n: nat)
    requires Inv(c, s) && WorkerStep(c, s, i, Chunk(n)) == Some(s')
    ensures Inv(c, s')
  {
    var len := ChunkWrites(c, s, s', i, n);
    CacheChanges(c, s, s'.cache, s'.holes);
    MovePc(c, s.(cache := s'.cache, holes := s'.holes), i, Written(s.probed, len));
  }

  lemma MoveCurrentTiles(ws: seq<WorkerRange>, size: nat, i: nat, pos: nat)
    requires Tiles(ws, size) && i < |ws| && ws[i].start <= pos <= ws[i].end
    ensures Tiles(SetCurrent(ws, i, pos), size)
  {
  }

  // A position moves forward inside its range: saved positions stay behind it.
  lemma StaysBehind(saved: seq<WorkerRange>, ranges: seq<WorkerRange>, i: nat, pos: nat)
    requires Behind(saved, ranges) && i < |ranges| && ranges[i].current <= pos
    ensures Behind(saved, SetCurrent(ranges, i, pos))
  {
  }

  lemma SaverStaysBehind(c: Config, s: Sys, saver: Saver, ranges: seq<WorkerRange>, i: nat, pos: nat)
    requires s.probed < |c.versions| && SaverTrue(c, s, saver, ranges)
    requires i < |ranges| && ranges[i].current <= pos
    ensures SaverTrue(c, s, saver, SetCurrent(ranges, i, pos))
  {
    match saver
    case Snapped(_, st) => StaysBehind(st.workers, ranges, i, pos);
    case Synced(_, st) => StaysBehind(st.workers, ranges, i, pos);
    case TempReady(_, st) => StaysBehind(st.workers, ranges, i, pos);
    case _ =>
  }

  lemma AdvanceRanges(c: Config, s: Sys, ranges: seq<WorkerRange>, i: nat, pos: nat)
    requires s.probed < |c.versions| && RangesTrue(c, s, ranges)
    requires i < |ranges| && ranges[i].current <= pos <= ranges[i].end
    requires Right(s.cache, Current(c, s).bytes, s.holes, ranges[i].current, pos)
    ensures RangesTrue(c, s, SetCurrent(ranges, i, pos))
  {
    var b := Current(c, s).bytes;
    assert Right(s.cache, b, s.holes, ranges[i].start, ranges[i].current);
    MoveCurrentTiles(ranges, |b|, i, pos);
    if s.live.Some? && Resumable(s.live.value, Current(c, s)) {
      StaysBehind(s.live.value.workers, ranges, i, pos);
    }
  }

  ghost function Published(j: Job, i: nat): Job
    requires i < |j.pcs| == |j.ranges| && j.pcs[i].Written?
  {
    j.(ranges := SetCurrent(j.ranges, i, j.ranges[i].current + j.pcs[i].n),
       pcs := j.pcs[i := Stored(j.pcs[i].ver, j.pcs[i].n)])
  }

  lemma PublishPcs(j: Job, i: nat, probed: nat, b: seq<Byte>, f: seq<Byte>, holes: set<nat>)
    requires Tiles(j.ranges, |b|) && PcsTrue(j, probed, b, f, holes) && i < |j.pcs| && j.pcs[i].Written?
    ensures PcsTrue(Published(j, i), probed, b, f, holes)
  {
    forall m | 0 <= m < |j.pcs| ensures PcTrue(j.pcs[m], j.ranges[m], probed, b, f, holes) {
    }
  }

  lemma PublishIs(c: Config, s: Sys, s': Sys, i: nat)
    requires WorkerStep(c, s, i, Publish) == Some(s') && |s.run.job.pcs| == |s.run.job.ranges|
    ensures s.run.job.stage == Working && i < |s.run.job.pcs| && s.run.job.pcs[i].Written?
    ensures s' == s.(run := Active(Published(s.run.job, i)))
  {
  }

  lemma PublishKeeps(c: Config, s: Sys, i: nat)
    requires Inv(c, s) && s.run.Active? && i < |s.run.job.pcs| && s.run.job.pcs[i].Written?
    requires s.run.job.stage == Working
    ensures Inv(c, s.(run := Active(Published(s.run.job, i))))
  {
    assert PcTrue(s.run.job.pcs[i], s.run.job.ranges[i], s.probed, Current(c, s).bytes, s.cache, s.holes);
    PublishRanges(c, s, s.run.job, i);
    PublishPcs(s.run.job, i, s.probed, Current(c, s).bytes, s.cache, s.holes);
    PublishSaver(c, s, s.run.job, i);
    Continue(c, s, Published(s.run.job, i));
  }

  lemma PublishRanges(c: Config, s: Sys, j: Job, i: nat)
    requires s.probed < |c.versions| && RangesTrue(c, s, j.ranges) && i < |j.pcs| == |j.ranges| && j.pcs[i].Written?
    requires var w, n := j.ranges[i], j.pcs[i].n;
             w.current + n <= w.end && Right(s.cache, Current(c, s).bytes, s.holes, w.current, w.current + n)
    ensures RangesTrue(c, s, Published(j, i).ranges)
  {
    AdvanceRanges(c, s, j.ranges, i, j.ranges[i].current + j.pcs[i].n);
  }

  lemma PublishSaver(c: Config, s: Sys, j: Job, i: nat)
    requires s.probed < |c.versions| && JobTrue(c, s, j) && i < |j.pcs| && j.pcs[i].Written?
    ensures SaverTrue(c, s, j.saver, Published(j, i).ranges)
  {
    SaverStaysBehind(c, s, j.saver, j.ranges, i, j.ranges[i].current + j.pcs[i].n);
  }

  // Marking more offsets as passed over weakens every claim.
  lemma MoreHoles(c: Config, s: Sys, passed: set<nat>)
    requires Inv(c, s) && s.run.Active? && s.run.job.stage == Working
    ensures Inv(c, WithHoles(s, passed))
  {
    HolesInStates(c, s, passed);
    HolesInJob(c, s, s.run.job, passed);
  }

  ghost function WithHoles(s: Sys, passed: set<nat>): Sys {
    s.(holes := s.holes + passed, diskHoles := s.diskHoles + passed)
  }

  lemma HolesInStates(c: Config, s: Sys, passed: set<nat>)
    requires s.probed < |c.versions| && HonestStates(c, s)
    ensures HonestStates(c, WithHoles(s, passed))
  {
    var r := Current(c, s);
    HonestKept(s.live, r, s.cache, s.cache, s.holes, s.holes + passed);
    if c.durable {
      HonestKept(s.dur, r, s.cache, s.cache, s.holes, s.holes + passed);
      HonestKept(s.live, r, s.disk, s.disk, s.diskHoles, s.diskHoles + passed);
      HonestKept(s.dur, r, s.disk, s.disk, s.diskHoles, s.diskHoles + passed);
    }
  }

  lemma HolesInJob(c: Config, s: Sys, j: Job, passed: set<nat>)
    requires s.probed < |c.versions| && JobTrue(c, s, j) && j.stage == Working
    ensures JobTrue(c, WithHoles(s, passed), j)
  {
    var b := Current(c, s).bytes;
    ClaimsKept(j.ranges, s.cache, s.cache, b, s.holes, s.holes + passed);
    PcsKept(j, s.probed, b, s.cache, s.cache, s.holes, s.holes + passed);
    SaverKept(c, s, WithHoles(s, passed), j.saver, j.ranges);
  }

  lemma PcsKept(j: Job, probed: nat, b: seq<Byte>, f: seq<Byte>, f': seq<Byte>, holes: set<nat>, holes': set<nat>)
    requires PcsTrue(j, probed, b, f, holes) && Healed(f', b, holes, holes')
    requires KeepsRight(f, f', b)
    ensures PcsTrue(j, probed, b, f', holes')
  {
    forall m | 0 <= m < |j.pcs| ensures PcTrue(j.pcs[m], j.ranges[m], probed, b, f', holes') {
      assert PcTrue(j.pcs[m], j.ranges[m], probed, b, f, holes);
    }
  }

  // The checkpoint's facts survive when the disk keeps the right bytes it has.
  lemma SaverKept(c: Config, s: Sys, s': Sys, saver: Saver, ranges: seq<WorkerRange>)
    requires s.probed == s'.probed < |c.versions| && SaverTrue(c, s, saver, ranges)
    requires s.diskHoles <= s'.diskHoles && s.temp == s'.temp
    requires c.durable ==> KeepsRight(s.disk, s'.disk, Current(c, s).bytes)
    ensures SaverTrue(c, s', saver, ranges)
  {
    if c.durable && (saver.Synced? || saver.TempReady?) {
      ClaimsKept(saver.st.workers, s.disk, s'.disk, Current(c, s).bytes, s.diskHoles, s'.diskHoles);
    }
  }

  ghost function PassedOver(j: Job, i: nat): Job
    requires i < |j.ranges| && j.ranges[i].current <= j.ranges[i].end
  {
    j.(ranges := SetCurrent(j.ranges, i, j.ranges[i].end),
       skipped := j.skipped + (j.ranges[i].end - j.ranges[i].current))
  }

  lemma PassedOverPcs(j: Job, i: nat, probed: nat, b: seq<Byte>, f: seq<Byte>, holes: set<nat>)
    requires PcsTrue(j, probed, b, f, holes) && i < |j.pcs| && j.pcs[i].Head?
    requires j.ranges[i].current <= j.ranges[i].end
    ensures PcsTrue(PassedOver(j, i), probed, b, f, holes)
  {
    forall m | 0 <= m < |j.pcs| ensures PcTrue(j.pcs[m], j.ranges[m], probed, b, f, holes) {
    }
  }

  lemma UnsatisfiableKeeps(c: Config, s: Sys, s': Sys, i: nat)
    requires Inv(c, s) && WorkerStep(c, s, i, Unsatisfiable) == Some(s')
    ensures Inv(c, s')
  {
    var j := s.run.job;
    var w := j.ranges[i];
    var s1 := WithHoles(s, Span(w.current, w.end));
    MoreHoles(c, s, Span(w.current, w.end));
    PassedOverPcs(j, i, s1.probed, Current(c, s1).bytes, s1.cache, s1.holes);
    PassedOverRest(c, s1, j, i);
    Continue(c, s1, PassedOver(j, i));
  }

  lemma PassedOverRest(c: Config, s: Sys, j: Job, i: nat)
    requires s.probed < |c.versions| && JobTrue(c, s, j) && i < |j.ranges| && j.ranges[i].current <= j.ranges[i].end
    requires Span(j.ranges[i].current, j.ranges[i].end) <= s.holes
    ensures RangesTrue(c, s, PassedOver(j, i).ranges) && SaverTrue(c, s, j.saver, PassedOver(j, i).ranges)
  {
    var w := j.ranges[i];
    assert Right(s.cache, Current(c, s).bytes, s.holes, w.current, w.end);
    AdvanceRanges(c, s, j.ranges, i, w.end);
    SaverStaysBehind(c, s, j.saver, j.ranges, i, w.end);
  }

  // The steps that only move a worker's pc and, for Count, the byte counter.
  lemma PcStepKeeps(c: Config, s: Sys, s': Sys, i: nat, act: WorkerAct)
    requires Setting(c) && Inv(c, s) && WorkerStep(c, s, i, act) == Some(s')
    requires act in {Full, Count, EndStream, Abandon, Finish, GiveUp, ObserveCancel}
    ensures Inv(c, s')
  {
    var j := s.run.job;
    assert PcTrue(j.pcs[i], j.ranges[i], s.probed, Current(c, s).bytes, s.cache, s.holes);
    MovePc(c, s, i, s'.run.job.pcs[i]);
  }

  lemma WorkerKeeps(c: Config, s: Sys, s': Sys, i: nat, act: WorkerAct)
    requires Setting(c) && Inv(c, s) && WorkerStep(c, s, i, act) == Some(s')
    ensures Inv(c, s')
  {
    match act
    case Partial => PartialKeeps(c, s, s', i);
    case Chunk(n) => ChunkKeeps(c, s, s', i, n);
    case Publish =>
      PublishIs(c, s, s', i);
      PublishKeeps(c, s, i);
    case Unsatisfiable => UnsatisfiableKeeps(c, s, s', i);
    case _ => PcStepKeeps(c, s, s', i, act);
  }

  // ----- checkpoint steps -----

  // The disk takes bytes from the cache: offsets right in both stay right.
  ghost predicate DiskFrom(f: seq<Byte>, disk: seq<Byte>, cache: seq<Byte>, b: seq<Byte>) {
    && (disk == cache ==> f == cache)
    && forall k :: 0 <= k < |b| && k < |disk| && k < |cache| && disk[k] == b[k] == cache[k]
         ==> k < |f| && f[k] == b[k]
  }

  // What is no longer passed over on the medium came from the cache, where it was fetched.
  ghost predicate DiskHealed(f: seq<Byte>, cache: seq<Byte>, holes: set<nat>, diskHoles: set<nat>, left: set<nat>) {
    && holes <= diskHoles
    && forall k :: k in diskHoles && k !in left ==> k !in holes && (k < |cache| ==> k < |f| && f[k] == cache[k])
  }

  // The medium takes bytes from the cache, and with them what is no longer passed over.
  ghost predicate FromCache(c: Config, s: Sys, f: seq<Byte>, left: set<nat>)
    requires s.probed < |c.versions|
  {
    DiskFrom(f, s.disk, s.cache, Current(c, s).bytes) && DiskHealed(f, s.cache, s.holes, s.diskHoles, left)
  }

  lemma DiskClaims(c: Config, s: Sys, f: seq<Byte>, left: set<nat>, ws: seq<WorkerRange>)
    requires s.probed < |c.versions| && FromCache(c, s, f, left)
    requires Claims(ws, s.disk, Current(c, s).bytes, s.diskHoles) && Claims(ws, s.cache, Current(c, s).bytes, s.holes)
    ensures Claims(ws, f, Current(c, s).bytes, left)
  {
    var b := Current(c, s).bytes;
    forall i | 0 <= i < |ws| ensures Right(f, b, left, ws[i].start, ws[i].current) {
      assert Right(s.disk, b, s.diskHoles, ws[i].start, ws[i].current);
      assert Right(s.cache, b, s.holes, ws[i].start, ws[i].current);
    }
  }

  lemma DiskHonest(c: Config, s: Sys, f: seq<Byte>, left: set<nat>, st: Option<DownloadState>)
    requires s.probed < |c.versions| && FromCache(c, s, f, left)
    requires Honest(st, Current(c, s), s.disk, s.diskHoles) && Honest(st, Current(c, s), s.cache, s.holes)
    ensures Honest(st, Current(c, s), f, left)
  {
    if st.Some? && Resumable(st.value, Current(c, s)) {
      DiskClaims(c, s, f, left, st.value.workers);
    }
  }

  lemma DiskInStates(c: Config, s: Sys, f: seq<Byte>, left: set<nat>)
    requires s.probed < |c.versions| && HonestStates(c, s) && FromCache(c, s, f, left)
    ensures HonestStates(c, s.(disk := f, diskHoles := left))
  {
    if c.durable {
      DiskHonest(c, s, f, left, s.live);
      DiskHonest(c, s, f, left, s.dur);
    }
  }

  lemma DiskInSaver(c: Config, s: Sys, f: seq<Byte>, left: set<nat>, saver: Saver, ranges: seq<WorkerRange>)
    requires s.probed < |c.versions| && SaverTrue(c, s, saver, ranges) && FromCache(c, s, f, left)
    requires Claims(ranges, s.cache, Current(c, s).bytes, s.holes)
    ensures SaverTrue(c, s.(disk := f, diskHoles := left), saver, ranges)
  {
    if c.durable && (saver.Synced? || saver.TempReady?) {
      BehindClaims(saver.st.workers, ranges, s.cache, Current(c, s).bytes, s.holes);
      DiskClaims(c, s, f, left, saver.st.workers);
    }
  }

  lemma DiskChanges(c: Config, s: Sys, f: seq<Byte>, left: set<nat>)
    requires Inv(c, s) && FromCache(c, s, f, left) && s.holes <= left
    ensures Inv(c, s.(disk := f, diskHoles := left))
  {
    DiskInStates(c, s, f, left);
    if s.run.Active? {
      DiskInSaver(c, s, f, left, s.run.job.saver, s.run.job.ranges);
    }
  }

  lemma FlushKeeps(c: Config, s: Sys)
    requires Inv(c, s)
    ensures Inv(c, Flush(s))
  {
    DiskChanges(c, s, s.cache, s.holes);
  }

  lemma ReadingKeeps(c: Config, s: Sys, s': Sys, act: SaverAct)
    requires Inv(c, s) && SaverStep(c, s, act) == Some(s') && act in {SaverAct.Begin, ReadNext, SaveFails}
    ensures Inv(c, s')
  {
    Continue(c, s, s'.run.job);
  }

  lemma AssembleKeeps(c: Config, s: Sys, s': Sys)
    requires Inv(c, s) && SaverStep(c, s, Assemble) == Some(s')
    ensures Inv(c, s')
  {
    var j := s.run.job;
    var seen := j.saver.seen;
    var st := Snapshot(c, Current(c, s), j.ranges, seen);
    assert Behind(st.workers, j.ranges);
    Continue(c, s, j.(saver := Snapped(j.saver.last, st)));
  }

  lemma SyncKeeps(c: Config, s: Sys, s': Sys)
    requires Inv(c, s) && SaverStep(c, s, Sync) == Some(s')
    ensures Inv(c, s')
  {
    var j := s.run.job;
    var s1 := if c.durable then Flush(s) else s;
    FlushKeeps(c, s);
    BehindClaims(j.saver.st.workers, j.ranges, s.cache, Current(c, s).bytes, s.holes);
    Continue(c, s1, s'.run.job);
  }

  lemma WriteTempKeeps(c: Config, s: Sys, s': Sys)
    requires Inv(c, s) && SaverStep(c, s, WriteTemp) == Some(s')
    ensures Inv(c, s')
  {
  }

  lemma BehindTiles(saved: seq<WorkerRange>, ranges: seq<WorkerRange>, size: nat)
    requires Tiles(ranges, size) && Behind(saved, ranges)
    ensures Tiles(saved, size)
  {
  }

  lemma RenameKeeps(c: Config, s: Sys, s': Sys)
    requires Inv(c, s) && SaverStep(c, s, Rename) == Some(s')
    ensures Inv(c, s')
  {
    var j, r := s.run.job, Current(c, s);
    var st := j.saver.st;
    BehindTiles(st.workers, j.ranges, |r.bytes|);
    BehindClaims(st.workers, j.ranges, s.cache, r.bytes, s.holes);
    assert FromPast(c, s.probed, st);
  }

  lemma SaverKeeps(c: Config, s: Sys, s': Sys, act: SaverAct)
    requires Inv(c, s) && SaverStep(c, s, act) == Some(s')
    ensures Inv(c, s')
  {
    match act
    case Assemble => AssembleKeeps(c, s, s');
    case Sync => SyncKeeps(c, s, s');
    case WriteTemp => WriteTempKeeps(c, s, s');
    case Rename => RenameKeeps(c, s, s');
    case _ => ReadingKeeps(c, s, s', act);
  }

  // ----- the orchestrator -----

  lemma ProbeKeeps(c: Config, s: Sys, s': Sys)
    requires Setting(c) && Inv(c, s) && MainStep(c, s, ProbeOk) == Some(s')
    ensures Inv(c, s')
  {
    if s.probed < s.now {
      StaleState(c, s, s.live);
      StaleState(c, s, s.dur);
    }
  }

  lemma StaleState(c: Config, s: Sys, st: Option<DownloadState>)
    requires Setting(c) && s.probed < s.now < |c.versions|
    requires st.Some? ==> FromPast(c, s.probed, st.value)
    ensures st.Some? ==> FromPast(c, s.now, st.value) && !Resumable(st.value, c.versions[s.now])
  {
    if st.Some? {
      var v :| 0 <= v <= s.probed && SavedBy(c.versions[v], st.value);
      SavedStateIsStale(c.versions, v, s.now, st.value);
    }
  }

  lemma PickedRangesTrue(c: Config, s: Sys)
    requires Inv(c, s) && |Current(c, s).bytes| > 0
    ensures RangesTrue(c, s, PickRanges(c, s.live, Current(c, s)))
  {
    var r := Current(c, s);
    if !Loads(s.live, r) {
      SplitTiles(|r.bytes|, c.threads, c.minChunk);
    }
  }

  lemma OpeningKeeps(c: Config, s: Sys, s': Sys, step: Step)
    requires Setting(c) && Inv(c, s) && MainStep(c, s, step) == Some(s')
    requires step in {StartRun, ProbeFails, ProbeCancelled, Load, OpenFails}
    ensures Inv(c, s')
  {
    if step == Load {
      PickedRangesTrue(c, s);
    }
  }

  lemma SetLengthKeeps(c: Config, s: Sys, s': Sys)
    requires Inv(c, s) && MainStep(c, s, SetLength) == Some(s')
    ensures Inv(c, s')
  {
    CacheInStates(c, s, s'.cache, s.holes);
    ClaimsKept(s.run.ranges, s.cache, s'.cache, Current(c, s).bytes, s.holes, s.holes);
  }

  lemma SyncLengthKeeps(c: Config, s: Sys, s': Sys)
    requires Inv(c, s) && MainStep(c, s, SyncLength) == Some(s')
    ensures Inv(c, s')
  {
    DiskInStates(c, s, s.cache, s.holes);
    StartJobTrue(c, s', s.run.ranges);
  }

  lemma StartJobTrue(c: Config, s: Sys, ranges: seq<WorkerRange>)
    requires s.probed < |c.versions| && RangesTrue(c, s, ranges) && |s.cache| == |Current(c, s).bytes|
    ensures JobTrue(c, s, StartJob(ranges))
  {
  }

  lemma TickKeeps(c: Config, s: Sys, s': Sys, step: Step)
    requires Inv(c, s) && MainStep(c, s, step) == Some(s') && step in {Tick, Drain, LastTick}
    ensures Inv(c, s')
  {
    assert JobTrue(c, s', s'.run.job);
  }

  lemma {:induction false} AllDone(pcs: seq<Pc>)
    requires forall i :: 0 <= i < |pcs| ==> Ended(pcs[i])
    requires Stopped(Cancelled) !in pcs && FirstError(pcs).None?
    ensures forall i :: 0 <= i < |pcs| ==> pcs[i] == Done
  {
    if pcs != [] {
      assert pcs[0] in pcs;
      AllDone(pcs[1..]);
      assert forall i :: 0 < i < |pcs| ==> pcs[i] == pcs[1..][i - 1];
    }
  }

  lemma ConcludeOutcome(c: Config, s: Sys, j: Job)
    requires s.probed < |c.versions| && forall i :: 0 <= i < |j.pcs| ==> Ended(j.pcs[i])
    ensures var s' := ConcludeStep(c, s, j);
            || (exists v :: v != Complete && (s' == Return(s, v) || s' == Return(s.(live := None), v)))
            || (s' == s.(run := Active(j.(stage := Verified)))
                && forall i :: 0 <= i < |j.pcs| ==> j.pcs[i] == Done)
  {
    if Stopped(Cancelled) !in j.pcs && FirstError(j.pcs).None? {
      AllDone(j.pcs);
    }
  }

  lemma VerdictKeeps(c: Config, s: Sys, v: Verdict)
    requires Inv(c, s) && v != Complete
    ensures Inv(c, Return(s, v)) && Inv(c, Return(s.(live := None), v))
  {
  }

  lemma ConcludeKeeps(c: Config, s: Sys, s': Sys)
    requires Inv(c, s) && MainStep(c, s, Conclude) == Some(s')
    ensures Inv(c, s')
  {
    var j := s.run.job;
    assert s' == ConcludeStep(c, s, j);
    ConcludeOutcome(c, s, j);
    if s'.run.Active? {
      Continue(c, s, j.(stage := Verified));
    } else {
      VerdictKeeps(c, s, s'.run.verdict);
    }
  }

  lemma FinalSyncKeeps(c: Config, s: Sys, s': Sys)
    requires Inv(c, s) && MainStep(c, s, FinalSync) == Some(s')
    ensures Inv(c, s')
  {
    FlushKeeps(c, s);
    Continue(c, Flush(s), s'.run.job);
  }

  lemma DoneMeansWhole(ws: seq<WorkerRange>, f: seq<Byte>, b: seq<Byte>, holes: set<nat>)
    requires Tiles(ws, |b|) && Claims(ws, f, b, holes)
    requires NothingLeft(ws)
    ensures Right(f, b, holes, 0, |b|)
  {
    forall k | 0 <= k < |b| && k !in holes ensures k < |f| && f[k] == b[k] {
      EveryOffsetHasOneWorker(ws, |b|, k);
      var i :| 0 <= i < |ws| && ws[i].start <= k < ws[i].end;
      assert Right(f, b, holes, ws[i].start, ws[i].current);
    }
  }

  lemma DoneAtEnd(c: Config, s: Sys)
    requires Inv(c, s) && s.run.Active? && forall i :: 0 <= i < |s.run.job.pcs| ==> s.run.job.pcs[i] == Done
    ensures NothingLeft(s.run.job.ranges)
  {
    var j, b := s.run.job, Current(c, s).bytes;
    forall i | 0 <= i < |j.ranges| ensures j.ranges[i].current == j.ranges[i].end {
      assert PcTrue(j.pcs[i], j.ranges[i], s.probed, b, s.cache, s.holes);
    }
  }

  lemma FinalDeleteKeeps(c: Config, s: Sys, s': Sys)
    requires Inv(c, s) && MainStep(c, s, FinalDelete) == Some(s')
    ensures Inv(c, s')
  {
    DoneAtEnd(c, s);
    DoneMeansWhole(s.run.job.ranges, s.cache, Current(c, s).bytes, s.holes);
  }

  lemma MainKeeps(c: Config, s: Sys, s': Sys, step: Step)
    requires Setting(c) && Inv(c, s) && MainStep(c, s, step) == Some(s')
    ensures Inv(c, s')
  {
    if step == ProbeOk {
      ProbeKeeps(c, s, s');
    } else if step == SetLength {
      SetLengthKeeps(c, s, s');
    } else if step == SyncLength {
      SyncLengthKeeps(c, s, s');
    } else if step == Conclude {
      ConcludeKeeps(c, s, s');
    } else if step == FinalSync {
      FinalSyncKeeps(c, s, s');
    } else if step == FinalDelete {
      FinalDeleteKeeps(c, s, s');
    } else if step in {Tick, Drain, LastTick} {
      TickKeeps(c, s, s', step);
    } else {
      OpeningKeeps(c, s, s', step);
    }
  }

  // ----- the world -----

  lemma WorldKeeps(c: Config, s: Sys, s': Sys, step: Step)
    requires Setting(c) && Inv(c, s) && WorldStep(c, s, step) == Some(s')
    ensures Inv(c, s')
  {
    if step.Writeback? || step.WritebackLength? {
      DiskChanges(c, s, s'.disk, s'.diskHoles);
    } else if step.PowerLoss? {
      PowerLossKeeps(c, s);
    } else {
      QuietWorldKeeps(c, s, s', step);
    }
  }

  // The steps of the world that leave the data file alone.
  lemma QuietWorldKeeps(c: Config, s: Sys, s': Sys, step: Step)
    requires Inv(c, s) && WorldStep(c, s, step) == Some(s')
    requires step in {Advance, WritebackEntry, Kill, Cancel}
    ensures Inv(c, s')
  {
  }

  // What is left after a power failure is the disk, and the disk was true.
  lemma PowerLossKeeps(c: Config, s: Sys)
    requires Inv(c, s) && c.durable
    ensures Inv(c, AfterPowerLoss(s))
  {
  }

  lemma WorkerStepKeeps(c: Config, s: Sys, s': Sys, step: Step)
    requires Setting(c) && Inv(c, s) && Fire(c, s, step) == Some(s') && step.Worker?
    ensures Inv(c, s')
  {
    WorkerKeeps(c, s, s', step.i, step.act);
  }

  lemma SaverStepKeeps(c: Config, s: Sys, s': Sys, step: Step)
    requires Inv(c, s) && Fire(c, s, step) == Some(s') && step.Save?
    ensures Inv(c, s')
  {
    SaverKeeps(c, s, s', step.sact);
  }

  lemma StepKeeps(c: Config, s: Sys, s': Sys, step: Step)
    requires Setting(c) && Inv(c, s) && Fire(c, s, step) == Some(s')
    ensures Inv(c, s')
  {
    if step.Worker? {
      WorkerStepKeeps(c, s, s', step);
    } else if step.Save? {
      SaverStepKeeps(c, s, s', step);
    } else if InWorld(step) {
      WorldKeeps(c, s, s', step);
    } else {
      MainKeeps(c, s, s', step);
    }
  }

  lemma {:induction false} ExecKeeps(c: Config, s: Sys, steps: seq<Step>)
    requires Setting(c) && Inv(c, s) && Exec(c, s, steps).Some?
    ensures Inv(c, Exec(c, s, steps).value)
    decreases |steps|
  {
    if steps != [] {
      var s' := Fire(c, s, steps[0]).value;
      StepKeeps(c, s, s', steps[0]);
      ExecKeeps(c, s', steps[1..]);
    }
  }
}
