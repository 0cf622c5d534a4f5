/** The guarantees of the multi-thread resumable download, over whole executions. */
module ProtocolTheorems {
  import opened Wrappers
  import opened State
  import opened Http
  import opened Protocol
  import opened ProtocolContent
  import opened ProtocolCounts

  // s can be reached from a machine on which nothing was downloaded yet.
  ghost predicate Reachable(c: Config, s: Sys) {
    exists leftover, steps :: Exec(c, Init(leftover), steps) == Some(s)
  }

  lemma ReachableInv(c: Config, s: Sys)
    requires Setting(c) && Reachable(c, s)
    ensures Inv(c, s) && CountInv(s) && EventInv(c, s)
  {
    var leftover, steps :| Exec(c, Init(leftover), steps) == Some(s);
    InitInv(c, leftover);
    ExecCounts(c, Init(leftover), steps);
  }

  // ----- content -----

  /** Over every interleaving, kill, resume and change of the resource, a run that
      returns Ok leaves, in the cache and on the medium, the bytes of the one version
      it probed, outside the offsets a 416 passed over. */
  lemma CompletedRunIsOneVersion(c: Config, s: Sys)
    requires Setting(c) && Reachable(c, s) && s.run == Returned(Complete)
    ensures s.probed < |c.versions|
    ensures var b := Current(c, s).bytes;
            && |s.cache| == |b| && s.disk == s.cache
            && forall k :: 0 <= k < |b| && k !in s.holes ==> s.cache[k] == b[k]
  {
    ReachableInv(c, s);
  }

  ghost predicate Never416(steps: seq<Step>) {
    forall k :: 0 <= k < |steps| ==> !(steps[k].Worker? && steps[k].act == Unsatisfiable)
  }

  lemma {:induction false} NoHoles(c: Config, s: Sys, steps: seq<Step>)
    requires Never416(steps) && Exec(c, s, steps).Some? && s.holes == s.diskHoles == {}
    ensures Exec(c, s, steps).value.holes == {}
    decreases |steps|
  {
    if steps != [] {
      NoHolesStep(c, s, steps[0]);
      NoHoles(c, Fire(c, s, steps[0]).value, steps[1..]);
    }
  }

  lemma NoHolesStep(c: Config, s: Sys, step: Step)
    requires !(step.Worker? && step.act == Unsatisfiable) && Fire(c, s, step).Some?
    requires s.holes == s.diskHoles == {}
    ensures Fire(c, s, step).value.holes == Fire(c, s, step).value.diskHoles == {}
  {
  }

  /** No splicing, and crash-safe resume: when no 416 was ever believed, Ok means the
      file is exactly one version. */
  lemma CompletedRunIsExact(c: Config, leftover: seq<Byte>, steps: seq<Step>, s: Sys)
    requires Setting(c) && Never416(steps) && Exec(c, Init(leftover), steps) == Some(s)
    requires s.run == Returned(Complete)
    ensures s.probed < |c.versions| && s.cache == Current(c, s).bytes == s.disk
  {
    CompletedRunIsOneVersion(c, s);
    NoHoles(c, Init(leftover), steps);
  }

  /** A resource that never changes needs no validators for the same guarantee. */
  lemma UnchangedResourceIsExact(c: Config, leftover: seq<Byte>, steps: seq<Step>, s: Sys)
    requires |c.versions| == 1 && (c.powerLoss ==> c.durable)
    requires Never416(steps) && Exec(c, Init(leftover), steps) == Some(s)
    requires s.run == Returned(Complete)
    ensures s.cache == c.versions[0].bytes
  {
    CompletedRunIsExact(c, leftover, steps, s);
  }

  /** For versions told apart by their dates alone the same holds, whatever weak tags they have. */
  lemma DatedVersionsAreExact(c: Config, leftover: seq<Byte>, steps: seq<Step>, s: Sys)
    requires |c.versions| > 0 && (c.powerLoss ==> c.durable)
    requires forall i | 0 <= i < |c.versions| :: NoStrongTag(c.versions[i]) && HasDate(c.versions[i])
    requires forall i, j | 0 <= i < j < |c.versions| :: c.versions[i].lastModified != c.versions[j].lastModified
    requires Never416(steps) && Exec(c, Init(leftover), steps) == Some(s) && s.run == Returned(Complete)
    ensures s.probed < |c.versions| && s.cache == Current(c, s).bytes == s.disk
  {
    DistinctDatesIdentify(c.versions);
    CompletedRunIsExact(c, leftover, steps, s);
  }

  /** In every reachable state, each byte a live worker claims is the probed version's
      byte in the cache. */
  lemma LiveClaimsHold(c: Config, s: Sys, i: nat, k: nat)
    requires Setting(c) && Reachable(c, s) && s.run.Active? && i < |s.run.job.ranges|
    requires s.run.job.ranges[i].start <= k < s.run.job.ranges[i].current && k !in s.holes
    ensures k < |s.cache| && s.probed < |c.versions| && k < |Current(c, s).bytes|
    ensures s.cache[k] == Current(c, s).bytes[k]
  {
    ReachableInv(c, s);
    assert Right(s.cache, Current(c, s).bytes, s.holes, s.run.job.ranges[i].start, s.run.job.ranges[i].current);
  }

  lemma OnlyProbedResumes(c: Config, s: Sys, st: DownloadState)
    requires Setting(c) && Inv(c, s) && FromPast(c, s.probed, st) && Resumable(st, c.versions[s.now])
    ensures s.now == s.probed
  {
    if s.probed < s.now {
      StaleState(c, s, Some(st));
    }
  }

  /** A state file that the next run would resume from names only bytes that file has;
      with durable_resume, only bytes that are already on the medium, and so does
      whichever state file a power failure would leave. */
  lemma SavedClaimsHold(c: Config, s: Sys)
    requires Setting(c) && Reachable(c, s)
    ensures s.now < |c.versions|
    ensures var r := c.versions[s.now];
            && (Loads(s.live, r) ==> Claims(s.live.value.workers, s.cache, r.bytes, s.holes))
            && (c.durable && Loads(s.live, r) ==> Claims(s.live.value.workers, s.disk, r.bytes, s.diskHoles))
            && (c.durable && Loads(s.dur, r) ==> Claims(s.dur.value.workers, s.disk, r.bytes, s.diskHoles))
  {
    ReachableInv(c, s);
    if Loads(s.live, c.versions[s.now]) {
      OnlyProbedResumes(c, s, s.live.value);
    }
    if Loads(s.dur, c.versions[s.now]) {
      OnlyProbedResumes(c, s, s.dur.value);
    }
  }

  // ----- checkpoints -----

  /** A state assembled from positions read at different moments always validates, and
      no saved position is ahead of the worker's. */
  lemma SnapshotsAreSafe(c: Config, s: Sys)
    requires Setting(c) && Reachable(c, s)
    ensures s.probed < |c.versions|
    ensures s.live.Some? ==> Usable(s.live.value)
    ensures s.run.Active? && s.run.job.saver.TempReady? ==>
              && s.temp == Some(s.run.job.saver.st)
              && Usable(s.run.job.saver.st) && Behind(s.run.job.saver.st.workers, s.run.job.ranges)
    ensures s.run.Active? && Loads(s.live, Current(c, s)) ==> Behind(s.live.value.workers, s.run.job.ranges)
  {
    ReachableInv(c, s);
    if s.run.Active? && s.run.job.saver.TempReady? {
      BehindTiles(s.run.job.saver.st.workers, s.run.job.ranges, |Current(c, s).bytes|);
    }
  }

  /** Reading a position for a checkpoint never has to clamp it. */
  lemma ClampNeverBites(c: Config, s: Sys, i: nat)
    requires Setting(c) && Reachable(c, s) && s.run.Active? && i < |s.run.job.ranges|
    ensures var w := s.run.job.ranges[i]; Min(w.current, w.end) == w.current
  {
    ReachableInv(c, s);
  }

  /** No worker writes below a saved position. */
  lemma SavedBytesAreNotRewritten(c: Config, s: Sys, s': Sys, i: nat, n: nat, m: nat, k: nat)
    requires Setting(c) && Reachable(c, s) && WorkerStep(c, s, i, Chunk(n)) == Some(s')
    requires Loads(s.live, Current(c, s)) && m < |s.live.value.workers|
    requires s.live.value.workers[m].start <= k < s.live.value.workers[m].current
    ensures k < |s.cache| == |s'.cache| && s'.cache[k] == s.cache[k]
  {
    ReachableInv(c, s);
    var len := ChunkWrites(c, s, s', i, n);
    var ranges, size := s.run.job.ranges, |Current(c, s).bytes|;
    assert Behind(s.live.value.workers, ranges);
    EndsBounded(ranges, size, m);
    if m < i { RangesInOrder(ranges, size, m, i); }
    if i < m { RangesInOrder(ranges, size, i, m); }
  }

  // ----- counting -----

  /** Every published byte is counted once, is about to be, or was passed over. */
  lemma BytesAreConserved(c: Config, s: Sys)
    requires Setting(c) && Reachable(c, s) && s.run.Active?
    ensures s.probed < |c.versions|
    ensures var j := s.run.job;
            && j.downloaded + Pending(j.pcs) + j.skipped == TotalDownloaded(j.ranges)
            && TotalDownloaded(j.ranges) <= |Current(c, s).bytes|
  {
    ReachableInv(c, s);
    TotalWithinFile(s.run.job.ranges, |Current(c, s).bytes|);
  }

  /** When all workers returned Ok, the byte-count check passes exactly when this run
      passed over nothing. */
  lemma ByteCheckPassesIffNothingSkipped(c: Config, s: Sys, s': Sys)
    requires Setting(c) && Reachable(c, s) && s.run.Active?
    requires forall i :: 0 <= i < |s.run.job.pcs| ==> s.run.job.pcs[i] == Done
    requires MainStep(c, s, Conclude) == Some(s')
    ensures s'.run.Active? <==> s.run.job.skipped == 0
    ensures s.run.job.skipped > 0 ==> s'.run == Returned(SizeMismatch)
  {
    ReachableInv(c, s);
    DoneAtEnd(c, s);
    ConcludesBy(c, s, s.run.job);
  }

  /** A returned download reported Probing, Started at most once, progress that never
      decreases or passes the total, and one terminal event; before Completed the last
      progress is the full size. */
  lemma EventsFormALifeCycle(c: Config, s: Sys)
    requires Setting(c) && Reachable(c, s) && s.run.Returned?
    ensures s.probed < |c.versions| && LifeCycle(s.log, s.run.verdict, |Current(c, s).bytes|)
  {
    ReachableInv(c, s);
  }
}
