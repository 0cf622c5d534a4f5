/** Runs that exist: an interrupted download can always be completed. */
module ProtocolRuns {
  import opened Wrappers
  import opened State
  import opened Http
  import opened Protocol
  import opened ProtocolContent
  import opened ProtocolCounts
  import opened ProtocolTheorems

  ghost predicate Reaches(c: Config, s: Sys, t: Sys) {
    exists steps :: Exec(c, s, steps) == Some(t)
  }

  lemma {:induction false} ExecAppend(c: Config, s: Sys, a: seq<Step>, b: seq<Step>)
    requires Exec(c, s, a).Some?
    ensures Exec(c, s, a + b) == Exec(c, Exec(c, s, a).value, b)
    decreases |a|
  {
    if a == [] {
      assert a + b == b;
    } else {
      assert (a + b)[1..] == a[1..] + b;
      ExecAppend(c, Fire(c, s, a[0]).value, a[1..], b);
    }
  }

  lemma ReachesSelf(c: Config, s: Sys)
    ensures Reaches(c, s, s)
  {
    assert Exec(c, s, []) == Some(s);
  }

  lemma ExecSingle(c: Config, s: Sys, step: Step)
    ensures Exec(c, s, [step]) == Fire(c, s, step)
  {
    assert [step][1..] == [];
    if Fire(c, s, step).Some? {
      assert Exec(c, Fire(c, s, step).value, []) == Fire(c, s, step);
    }
  }

  lemma Then(c: Config, s: Sys, t: Sys, step: Step) returns (t': Sys)
    requires Reaches(c, s, t) && Fire(c, t, step).Some?
    ensures Fire(c, t, step) == Some(t') && Reaches(c, s, t')
  {
    var steps :| Exec(c, s, steps) == Some(t);
    t' := Fire(c, t, step).value;
    ExecSingle(c, t, step);
    ExecAppend(c, s, steps, [step]);
  }

  lemma ThenSave(c: Config, s: Sys, t: Sys, act: SaverAct) returns (t': Sys)
    requires Reaches(c, s, t) && SaverStep(c, t, act).Some?
    ensures SaverStep(c, t, act) == Some(t') && Reaches(c, s, t')
  {
    t' := Then(c, s, t, Save(act));
  }

  lemma ThenWorker(c: Config, s: Sys, t: Sys, i: nat, act: WorkerAct) returns (t': Sys)
    requires Reaches(c, s, t) && WorkerStep(c, t, i, act).Some?
    ensures WorkerStep(c, t, i, act) == Some(t') && Reaches(c, s, t')
  {
    t' := Then(c, s, t, Worker(i, act));
  }

  lemma ThenMain(c: Config, s: Sys, t: Sys, step: Step) returns (t': Sys)
    requires Reaches(c, s, t) && MainStep(c, t, step).Some?
    ensures MainStep(c, t, step) == Some(t') && Reaches(c, s, t')
  {
    t' := Then(c, s, t, step);
  }

  lemma ThenWorld(c: Config, s: Sys, t: Sys, step: Step) returns (t': Sys)
    requires Reaches(c, s, t) && InWorld(step) && WorldStep(c, t, step).Some?
    ensures WorldStep(c, t, step) == Some(t') && Reaches(c, s, t')
  {
    t' := Then(c, s, t, step);
  }

  lemma ReachableThrough(c: Config, s: Sys, t: Sys)
    requires Reachable(c, s) && Reaches(c, s, t)
    ensures Reachable(c, t)
  {
    var leftover, before :| Exec(c, Init(leftover), before) == Some(s);
    var after :| Exec(c, s, after) == Some(t);
    ExecAppend(c, Init(leftover), before, after);
  }

  // ----- counting, for every configuration -----

  lemma {:induction false} ExecBalances(c: Config, s: Sys, steps: seq<Step>)
    requires CountInv(s) && Exec(c, s, steps).Some?
    ensures CountInv(Exec(c, s, steps).value)
    decreases |steps|
  {
    if steps != [] {
      var s' := Fire(c, s, steps[0]).value;
      StepCounts(c, s, s', steps[0]);
      ExecBalances(c, s', steps[1..]);
    }
  }

  lemma ReachableBalances(c: Config, s: Sys, t: Sys)
    requires Reachable(c, s) && Reaches(c, s, t)
    ensures CountInv(t)
  {
    ReachableThrough(c, s, t);
    var leftover, steps :| Exec(c, Init(leftover), steps) == Some(t);
    ExecBalances(c, Init(leftover), steps);
  }

  lemma {:induction false} ExecMovesOn(c: Config, s: Sys, steps: seq<Step>)
    requires s.probed <= s.now < |c.versions| && Exec(c, s, steps).Some?
    ensures var t := Exec(c, s, steps).value; t.probed <= t.now < |c.versions|
    decreases |steps|
  {
    if steps != [] {
      MovesOn(c, s, steps[0]);
      ExecMovesOn(c, Fire(c, s, steps[0]).value, steps[1..]);
    }
  }

  lemma MovesOn(c: Config, s: Sys, step: Step)
    requires s.probed <= s.now < |c.versions| && Fire(c, s, step).Some?
    ensures var t := Fire(c, s, step).value; t.probed <= t.now < |c.versions|
  {
  }

  lemma ReachableVersions(c: Config, s: Sys)
    requires Reachable(c, s) && |c.versions| > 0
    ensures s.probed <= s.now < |c.versions|
  {
    var leftover, steps :| Exec(c, Init(leftover), steps) == Some(s);
    ExecMovesOn(c, Init(leftover), steps);
  }

  // ----- opening a run -----

  ghost predicate Resting(t: Sys) {
    t.run.Idle? || t.run.Returned?
  }

  // Every worker of the run is done, or about to ask for the rest of its range.
  ghost predicate Steady(c: Config, t: Sys) {
    && t.probed < |c.versions| && t.now < |c.versions| && t.run.Active?
    && var j, size := t.run.job, |Current(c, t).bytes|;
       && j.stage == Working && j.saver == Waiting && j.reporting
       && |j.pcs| == |j.ranges| && Tiles(j.ranges, size) && |t.cache| == size
       && forall i :: 0 <= i < |j.pcs| ==> AtRest(j.pcs[i], j.ranges[i])
  }

  ghost predicate AtRest(pc: Pc, w: WorkerRange) {
    pc == Head || (pc == Done && w.current == w.end)
  }

  lemma ProbeRun(c: Config, s: Sys, t: Sys) returns (t': Sys)
    requires Reaches(c, s, t) && Resting(t) && t.probed < |c.versions| && t.now < |c.versions|
    requires |c.versions[t.now].bytes| > 0
    ensures Reaches(c, s, t') && t'.run == Probed && t'.probed == t'.now == t.now
    ensures t'.cache == t.cache && t'.live == t.live
    ensures t'.holes == if t.probed == t.now then t.holes else {}
  {
    t' := ThenMain(c, s, t, StartRun);
    t' := ThenMain(c, s, t', ProbeOk);
  }

  lemma PickedTiles(c: Config, live: Option<DownloadState>, r: Resource)
    requires |r.bytes| > 0
    ensures Tiles(PickRanges(c, live, r), |r.bytes|)
  {
    if !Loads(live, r) {
      SplitTiles(|r.bytes|, c.threads, c.minChunk);
    }
  }

  lemma StartSteady(c: Config, t: Sys, ranges: seq<WorkerRange>)
    requires t.probed < |c.versions| && t.now < |c.versions| && t.run == Active(StartJob(ranges))
    requires Tiles(ranges, |Current(c, t).bytes|) && |t.cache| == |Current(c, t).bytes|
    ensures Steady(c, t)
  {
  }

  lemma LoadRun(c: Config, s: Sys, t: Sys) returns (t': Sys)
    requires Reaches(c, s, t) && t.run == Probed && t.probed == t.now < |c.versions| && |Current(c, t).bytes| > 0
    ensures Reaches(c, s, t')
    ensures t' == t.(cache := Resize(t.cache, |Current(c, t).bytes|), run := Sized(PickRanges(c, t.live, Current(c, t))))
  {
    t' := ThenMain(c, s, t, Load);
    t' := ThenMain(c, s, t', SetLength);
  }

  /** A run can be opened on whatever was left behind. */
  lemma OpenRun(c: Config, s: Sys, t: Sys) returns (t': Sys)
    requires Reaches(c, s, t) && Resting(t) && t.probed < |c.versions| && t.now < |c.versions|
    requires |c.versions[t.now].bytes| > 0
    ensures Reaches(c, s, t') && Steady(c, t') && t'.probed == t'.now == t.now
    ensures t'.run.job == StartJob(PickRanges(c, t.live, c.versions[t.now])) && t'.live == t.live
    ensures t'.cache == t'.disk == Resize(t.cache, |c.versions[t.now].bytes|)
    ensures t'.holes == t'.diskHoles == if t.probed == t.now then t.holes else {}
  {
    PickedTiles(c, t.live, c.versions[t.now]);
    t' := ProbeRun(c, s, t);
    t' := LoadRun(c, s, t');
    t' := ThenMain(c, s, t', SyncLength);
    StartSteady(c, t', PickRanges(c, t.live, c.versions[t.now]));
  }

  // ----- one worker -----

  ghost predicate Asking(c: Config, t: Sys, i: nat) {
    && Steady(c, t) && i < |t.run.job.pcs| && t.run.job.pcs[i] == Head
    && t.run.job.ranges[i].current < t.run.job.ranges[i].end
  }

  // The server's version would be sent for the rest of worker i's range.
  ghost predicate CanFetch(c: Config, t: Sys, w: WorkerRange)
    requires t.probed < |c.versions| && t.now < |c.versions|
  {
    Honours(IfRangeValidator(Current(c, t)), c.versions[t.now]) && w.end <= |c.versions[t.now].bytes|
  }

  ghost function WithRange(t: Sys, i: nat, downloaded: int, skipped: nat): Sys
    requires t.run.Active? && i < |t.run.job.ranges|
  {
    var j := t.run.job;
    t.(run := Active(j.(ranges := SetCurrent(j.ranges, i, j.ranges[i].end), downloaded := j.downloaded + downloaded,
                        skipped := j.skipped + skipped)))
  }

  ghost function FetchedBy(c: Config, t: Sys, i: nat): Sys
    requires Asking(c, t, i) && CanFetch(c, t, t.run.job.ranges[i])
  {
    var w := t.run.job.ranges[i];
    WithRange(t, i, w.end - w.current, 0).(
      cache := Overwrite(t.cache, w.current, c.versions[t.now].bytes[w.current..w.end]),
      holes := t.holes - Span(w.current, w.end))
  }

  ghost function SkippedBy(c: Config, t: Sys, i: nat): Sys
    requires Asking(c, t, i)
  {
    var w := t.run.job.ranges[i];
    WithRange(t, i, 0, w.end - w.current).(
      holes := t.holes + Span(w.current, w.end), diskHoles := t.diskHoles + Span(w.current, w.end))
  }

  lemma ReceiveRange(c: Config, s: Sys, t: Sys, i: nat) returns (t': Sys)
    requires Reaches(c, s, t) && Asking(c, t, i) && CanFetch(c, t, t.run.job.ranges[i])
    ensures Reaches(c, s, t')
    ensures var w := t.run.job.ranges[i];
            t' == SetPc(t, t.run.job, i, Written(t.now, w.end - w.current)).(
                    cache := FetchedBy(c, t, i).cache, holes := FetchedBy(c, t, i).holes)
  {
    var j, w := t.run.job, t.run.job.ranges[i];
    t' := ThenWorker(c, s, t, i, Partial);
    assert t' == SetPc(t, j, i, Streaming(t.now));
    t' := ThenWorker(c, s, t', i, Chunk(w.end - w.current));
    assert j.pcs[i := Streaming(t.now)][i := Written(t.now, w.end - w.current)]
        == j.pcs[i := Written(t.now, w.end - w.current)];
  }

  lemma CountRange(c: Config, s: Sys, t: Sys, j: Job, i: nat) returns (t': Sys)
    requires Reaches(c, s, t) && t.probed < |c.versions| && t.now < |c.versions|
    requires i < |j.pcs| && i < |j.ranges| && j.pcs[i] == Head && j.stage == Working
    requires j.ranges[i].current < j.ranges[i].end
    requires t.run == SetPc(t, j, i, Written(t.now, j.ranges[i].end - j.ranges[i].current)).run
    ensures Reaches(c, s, t') && t' == WithRange(t.(run := Active(j)), i, j.ranges[i].end - j.ranges[i].current, 0)
  {
    t' := ThenWorker(c, s, t, i, Publish);
    t' := ThenWorker(c, s, t', i, Count);
    assert t'.run.job.pcs == j.pcs;
  }

  // One worker fetches all it still needs.
  lemma FetchRange(c: Config, s: Sys, t: Sys, i: nat) returns (t': Sys)
    requires Reaches(c, s, t) && Asking(c, t, i) && CanFetch(c, t, t.run.job.ranges[i])
    ensures Reaches(c, s, t') && t' == FetchedBy(c, t, i)
  {
    t' := ReceiveRange(c, s, t, i);
    t' := CountRange(c, s, t', t.run.job, i);
  }

  lemma SkipRange(c: Config, s: Sys, t: Sys, i: nat) returns (t': Sys)
    requires Reaches(c, s, t) && Asking(c, t, i)
    ensures Reaches(c, s, t') && t' == SkippedBy(c, t, i)
  {
    t' := ThenWorker(c, s, t, i, Unsatisfiable);
  }

  // ----- all workers, in order -----

  // From t0 on, the first i workers have finished and the others have not moved.
  ghost predicate WorkedTo(t0: Sys, t: Sys, i: nat) {
    && t0.run.Active? && t.run.Active?
    && t == t0.(run := t.run, cache := t.cache, holes := t.holes, diskHoles := t.diskHoles)
    && var j0, j := t0.run.job, t.run.job;
       && j == j0.(ranges := j.ranges, pcs := j.pcs, downloaded := j.downloaded, skipped := j.skipped)
       && |j.pcs| == |j.ranges| == |j0.pcs| == |j0.ranges| && i <= |j.pcs|
       && (forall m :: 0 <= m < i ==> j.pcs[m] == Done && j.ranges[m] == j0.ranges[m].(current := j0.ranges[m].end))
       && (forall m :: i <= m < |j.pcs| ==> j.pcs[m] == j0.pcs[m] && j.ranges[m] == j0.ranges[m])
  }

  // What the first i workers still needed is in the file, with b's bytes, and what any
  // worker already had is as before.
  ghost predicate Got(t0: Sys, t: Sys, i: nat, b: seq<Byte>)
    requires WorkedTo(t0, t, i)
  {
    && |t.cache| == |t0.cache| && t.holes <= t0.holes && t.run.job.skipped == t0.run.job.skipped
    && t.diskHoles == t0.diskHoles
    && var ranges := t0.run.job.ranges;
       && (forall m :: 0 <= m < i ==> Right(t.cache, b, {}, ranges[m].current, ranges[m].end))
       && (forall m :: 0 <= m < |ranges| ==> Right(t.cache, t0.cache, {}, ranges[m].start, ranges[m].current))
  }

  ghost predicate SameFile(t0: Sys, t: Sys) {
    t.cache == t0.cache && t.holes == t0.holes && t.diskHoles == t0.diskHoles
  }

  ghost predicate AllCanFetch(c: Config, t: Sys)
    requires t.probed < |c.versions| && t.now < |c.versions| && t.run.Active?
  {
    forall m :: 0 <= m < |t.run.job.ranges| && t.run.job.ranges[m].current < t.run.job.ranges[m].end
      ==> CanFetch(c, t, t.run.job.ranges[m])
  }

  lemma WorkedSteady(c: Config, t0: Sys, t: Sys, i: nat)
    requires Steady(c, t0) && WorkedTo(t0, t, i) && |t.cache| == |t0.cache|
    ensures Steady(c, t)
  {
  }

  lemma FinishWorker(c: Config, s: Sys, t: Sys, i: nat) returns (t': Sys)
    requires Reaches(c, s, t) && Steady(c, t) && i < |t.run.job.pcs|
    requires t.run.job.ranges[i].current == t.run.job.ranges[i].end
    ensures Reaches(c, s, t')
    ensures t' == SetPc(t, t.run.job, i, Done)
  {
    t' := t;
    if t.run.job.pcs[i] == Head {
      t' := ThenWorker(c, s, t, i, Finish);
    } else {
      assert t.run.job.pcs[i := Done] == t.run.job.pcs;
    }
  }

  // Worker i asks for what it needs, if anything, and is not done yet.
  lemma ServeWorker(c: Config, s: Sys, t: Sys, i: nat, fetch: bool) returns (t': Sys)
    requires Reaches(c, s, t) && Steady(c, t) && i < |t.run.job.pcs|
    requires fetch && t.run.job.ranges[i].current < t.run.job.ranges[i].end ==> CanFetch(c, t, t.run.job.ranges[i])
    ensures Reaches(c, s, t')
    ensures var w := t.run.job.ranges[i];
            t' == if w.current == w.end then t else if fetch then FetchedBy(c, t, i) else SkippedBy(c, t, i)
  {
    t' := t;
    if t.run.job.ranges[i].current < t.run.job.ranges[i].end {
      if fetch {
        t' := FetchRange(c, s, t, i);
      } else {
        t' := SkipRange(c, s, t, i);
      }
    }
  }

  lemma ServedSteady(c: Config, t: Sys, i: nat, fetch: bool, t': Sys)
    requires Steady(c, t) && i < |t.run.job.pcs|
    requires fetch && t.run.job.ranges[i].current < t.run.job.ranges[i].end ==> CanFetch(c, t, t.run.job.ranges[i])
    requires var w := t.run.job.ranges[i];
             t' == if w.current == w.end then t else if fetch then FetchedBy(c, t, i) else SkippedBy(c, t, i)
    ensures Steady(c, t') && |t'.run.job.pcs| == |t.run.job.pcs| && |t'.cache| == |t.cache|
    ensures t'.run.job.ranges == t.run.job.ranges[i := t.run.job.ranges[i].(current := t.run.job.ranges[i].end)]
    ensures t'.run.job.pcs == t.run.job.pcs
  {
    EndsBounded(t.run.job.ranges, |Current(c, t).bytes|, i);
  }

  // Worker i has been served (t1) and finishes (t').
  lemma WorkedMore(t0: Sys, t: Sys, t1: Sys, t': Sys, i: nat)
    requires WorkedTo(t0, t, i) && i < |t.run.job.pcs| && t1.run.Active?
    requires t1 == t.(run := t1.run, cache := t1.cache, holes := t1.holes, diskHoles := t1.diskHoles)
    requires var j, j1 := t.run.job, t1.run.job;
             && j1 == j.(ranges := j1.ranges, downloaded := j1.downloaded, skipped := j1.skipped)
             && j1.ranges == j.ranges[i := j.ranges[i].(current := j.ranges[i].end)]
    requires t' == SetPc(t1, t1.run.job, i, Done)
    ensures WorkedTo(t0, t', i + 1)
  {
  }

  lemma WorkOne(c: Config, s: Sys, t0: Sys, t: Sys, i: nat, fetch: bool) returns (t': Sys)
    requires Reaches(c, s, t) && Steady(c, t0) && WorkedTo(t0, t, i) && i < |t.run.job.pcs| && |t.cache| == |t0.cache|
    requires fetch ==> AllCanFetch(c, t0)
    ensures Reaches(c, s, t') && WorkedTo(t0, t', i + 1) && |t'.cache| == |t0.cache|
    ensures fetch && Got(t0, t, i, c.versions[t0.now].bytes) ==> Got(t0, t', i + 1, c.versions[t0.now].bytes)
    ensures !fetch ==> t'.cache == t.cache && t'.run.job.skipped >= t.run.job.skipped
    ensures !fetch && t0.run.job.ranges[i].current < t0.run.job.ranges[i].end ==> t'.run.job.skipped > 0
    ensures t0.run.job.ranges[i].current == t0.run.job.ranges[i].end ==>
              SameFile(t, t') && t'.run.job.skipped == t.run.job.skipped
  {
    WorkedSteady(c, t0, t, i);
    var t1 := ServeWorker(c, s, t, i, fetch);
    ServedSteady(c, t, i, fetch, t1);
    t' := FinishWorker(c, s, t1, i);
    WorkedMore(t0, t, t1, t', i);
    if fetch && Got(t0, t, i, c.versions[t0.now].bytes) {
      GotMore(c, t0, t, t', i);
    }
  }

  lemma GotMore(c: Config, t0: Sys, t: Sys, t': Sys, i: nat)
    requires Steady(c, t0) && WorkedTo(t0, t, i) && i < |t.run.job.pcs| && Got(t0, t, i, c.versions[t0.now].bytes)
    requires WorkedTo(t0, t', i + 1) && t'.run.job.skipped == t.run.job.skipped
    requires t'.diskHoles == t.diskHoles && t'.holes <= t.holes
    requires var w, b := t0.run.job.ranges[i], c.versions[t0.now].bytes;
             if w.current == w.end then t'.cache == t.cache
             else w.end <= |b| && t'.cache == Overwrite(t.cache, w.current, b[w.current..w.end])
    ensures Got(t0, t', i + 1, c.versions[t0.now].bytes)
  {
    var ranges, size, b := t0.run.job.ranges, |Current(c, t0).bytes|, c.versions[t0.now].bytes;
    EndsBounded(ranges, size, i);
    forall m | 0 <= m < i + 1 ensures Right(t'.cache, b, {}, ranges[m].current, ranges[m].end) {
      if m < i {
        RangesInOrder(ranges, size, m, i);
        assert Right(t.cache, b, {}, ranges[m].current, ranges[m].end);
      }
    }
    forall m | 0 <= m < |ranges| ensures Right(t'.cache, t0.cache, {}, ranges[m].start, ranges[m].current) {
      EndsBounded(ranges, size, m);
      if m < i { RangesInOrder(ranges, size, m, i); }
      if i < m { RangesInOrder(ranges, size, i, m); }
      assert Right(t.cache, t0.cache, {}, ranges[m].start, ranges[m].current);
    }
  }

  ghost predicate WorkedAll(c: Config, t0: Sys, t: Sys, fetch: bool) {
    && Steady(c, t0) && Steady(c, t) && WorkedTo(t0, t, |t0.run.job.pcs|) && Finished(c, t)
    && (fetch ==> Got(t0, t, |t0.run.job.pcs|, c.versions[t0.now].bytes))
    && (!fetch ==> t.cache == t0.cache)
    && (NothingLeft(t0.run.job.ranges) ==> SameFile(t0, t) && t.run.job.skipped == t0.run.job.skipped)
    && (!fetch && !NothingLeft(t0.run.job.ranges) ==> t.run.job.skipped > 0)
  }

  // Every worker has returned Ok.
  ghost predicate Finished(c: Config, t: Sys) {
    && Steady(c, t)
    && NothingLeft(t.run.job.ranges)
    && forall i :: 0 <= i < |t.run.job.pcs| ==> t.run.job.pcs[i] == Done
  }

  ghost predicate LeftBefore(ws: seq<WorkerRange>, i: nat) {
    exists m :: 0 <= m < i && m < |ws| && ws[m].current < ws[m].end
  }

  lemma {:induction false} WorkFrom(c: Config, s: Sys, t0: Sys, t: Sys, i: nat, fetch: bool) returns (t': Sys)
    requires Reaches(c, s, t) && Steady(c, t0) && WorkedTo(t0, t, i) && |t.cache| == |t0.cache|
    requires fetch ==> AllCanFetch(c, t0) && Got(t0, t, i, c.versions[t0.now].bytes)
    requires !fetch ==> t.cache == t0.cache && (LeftBefore(t0.run.job.ranges, i) ==> t.run.job.skipped > 0)
    requires NothingLeft(t0.run.job.ranges) ==> SameFile(t0, t) && t.run.job.skipped == t0.run.job.skipped
    ensures Reaches(c, s, t') && WorkedAll(c, t0, t', fetch)
    decreases |t0.run.job.pcs| - i
  {
    if i == |t0.run.job.pcs| {
      t' := t;
      WorkedSteady(c, t0, t, i);
      EndIsFinished(c, t0, t);
    } else {
      t' := WorkOne(c, s, t0, t, i, fetch);
      t' := WorkFrom(c, s, t0, t', i + 1, fetch);
    }
  }

  lemma EndIsFinished(c: Config, t0: Sys, t: Sys)
    requires Steady(c, t0) && Steady(c, t) && WorkedTo(t0, t, |t0.run.job.pcs|)
    ensures Finished(c, t)
    ensures LeftBefore(t0.run.job.ranges, |t0.run.job.pcs|) || NothingLeft(t0.run.job.ranges)
  {
  }

  /** Every worker fetches the rest of its range, or has it declared unsatisfiable. */
  lemma WorkAll(c: Config, s: Sys, t: Sys, fetch: bool) returns (t': Sys)
    requires Reaches(c, s, t) && Steady(c, t) && (fetch ==> AllCanFetch(c, t))
    ensures Reaches(c, s, t') && WorkedAll(c, t, t', fetch)
  {
    forall m | 0 <= m < |t.run.job.ranges|
      ensures Right(t.cache, t.cache, {}, t.run.job.ranges[m].start, t.run.job.ranges[m].current)
    {
      EndsBounded(t.run.job.ranges, |Current(c, t).bytes|, m);
    }
    t' := WorkFrom(c, s, t, t, 0, fetch);
  }

  // ----- the end of a run -----

  // A checkpoint can read these positions.
  ghost predicate Readable(c: Config, t: Sys) {
    && t.probed < |c.versions| && t.run.Active? && t.run.job.stage in {Working, Stage.Draining}
    && forall i :: 0 <= i < |t.run.job.ranges| ==> t.run.job.ranges[i].current <= t.run.job.ranges[i].end
  }

  // t with its checkpoint at another point.
  ghost function WithSaver(t: Sys, saver: Saver): Sys
    requires t.run.Active?
  {
    t.(run := Active(t.run.job.(saver := saver)))
  }

  ghost function Positions(ws: seq<WorkerRange>): seq<nat> {
    seq(|ws|, k requires 0 <= k < |ws| => ws[k].current)
  }

  lemma {:induction false} ReadAll(c: Config, s: Sys, t: Sys, last: bool, n: nat) returns (t': Sys)
    requires Readable(c, t) && n <= |t.run.job.ranges|
    requires Reaches(c, s, WithSaver(t, Reading(last, Positions(t.run.job.ranges)[..n])))
    ensures Reaches(c, s, t') && t' == WithSaver(t, Reading(last, Positions(t.run.job.ranges)))
    decreases |t.run.job.ranges| - n
  {
    var all := Positions(t.run.job.ranges);
    t' := WithSaver(t, Reading(last, all[..n]));
    if n < |all| {
      t' := ThenSave(c, s, t', ReadNext);
      assert all[..n] + [all[n]] == all[..n + 1];
      t' := ReadAll(c, s, t, last, n + 1);
    } else {
      assert all[..n] == all;
    }
  }

  lemma TakeSnapshot(c: Config, s: Sys, t: Sys) returns (t': Sys)
    requires Reaches(c, s, t) && Readable(c, t) && t.run.job.saver == Waiting
    ensures Reaches(c, s, t')
    ensures t' == WithSaver(t, Snapped(t.run.job.stage.Draining?, StateFor(c, Current(c, t), t.run.job.ranges)))
  {
    var ranges := t.run.job.ranges;
    t' := ThenSave(c, s, t, SaverAct.Begin);
    assert Positions(ranges)[..0] == [];
    t' := ReadAll(c, s, t, t.run.job.stage.Draining?, 0);
    t' := ThenSave(c, s, t', Assemble);
    assert t'.run.job.saver.st.workers == ranges;
  }

  // One checkpoint, undisturbed: the state file has the positions as they are.
  lemma Checkpoint(c: Config, s: Sys, t: Sys) returns (t': Sys)
    requires Reaches(c, s, t) && Readable(c, t) && t.run.job.saver == Waiting
    ensures Reaches(c, s, t')
    ensures t' == (if c.durable then Flush(t) else t).(
                    live := Some(StateFor(c, Current(c, t), t.run.job.ranges)), temp := None,
                    run := Active(t.run.job.(saver := AfterCheckpoint(t.run.job.stage.Draining?))))
  {
    t' := TakeSnapshot(c, s, t);
    t' := ThenSave(c, s, t', Sync);
    t' := ThenSave(c, s, t', WriteTemp);
    t' := ThenSave(c, s, t', Rename);
  }

  /** At any time in a run, when no checkpoint is under way, one can be made that saves exactly
      the published positions. */
  lemma CheckpointCanBeMade(c: Config, s: Sys)
    requires Setting(c) && Reachable(c, s) && s.run.Active? && s.run.job.saver == Waiting
    requires s.run.job.stage in {Working, Stage.Draining}
    ensures s.probed < |c.versions|
    ensures exists t :: Reaches(c, s, t) && t.run.Active? && t.run.job.ranges == s.run.job.ranges
                        && t.live == Some(StateFor(c, Current(c, s), s.run.job.ranges))
  {
    ReachableInv(c, s);
    ReachesSelf(c, s);
    var t := Checkpoint(c, s, s);
  }

  lemma LastCheckpoint(c: Config, s: Sys, t: Sys) returns (t': Sys)
    requires Reaches(c, s, t) && Finished(c, t)
    ensures Reaches(c, s, t')
    ensures t' == (if c.durable then Flush(t) else t).(
                    live := Some(StateFor(c, Current(c, t), t.run.job.ranges)), temp := None,
                    run := Active(t.run.job.(stage := Stage.Draining, saver := Exited)))
  {
    t' := ThenMain(c, s, t, Drain);
    t' := Checkpoint(c, s, t');
  }

  // What the run's last checkpoint leaves, whatever the verdict.
  ghost predicate Checkpointed(c: Config, t: Sys, t': Sys)
    requires t.probed < |c.versions| && t.run.Active?
  {
    && t'.cache == t.cache && t'.holes == t.holes && t'.probed == t.probed && t'.now == t.now
    && t'.live == Some(StateFor(c, Current(c, t), t.run.job.ranges))
  }

  lemma ReportRun(c: Config, s: Sys, t: Sys) returns (t': Sys)
    requires Reaches(c, s, t) && t.probed < |c.versions| && t.now < |c.versions| && t.run.Active?
    requires t.run.job.stage == Stage.Draining && t.run.job.reporting
    ensures Reaches(c, s, t') && t' == t.(log := t'.log, run := Active(t.run.job.(reporting := false)))
  {
    t' := ThenMain(c, s, t, LastTick);
  }

  lemma ConcludeRun(c: Config, s: Sys, t: Sys) returns (t': Sys)
    requires Reachable(c, s) && Reaches(c, s, t) && Finished(c, t)
    ensures Reaches(c, s, t') && Checkpointed(c, t, t')
    ensures t'.run == if t.run.job.skipped == 0
                      then Active(t.run.job.(stage := Verified, saver := Exited, reporting := false))
                      else Returned(SizeMismatch)
  {
    t' := LastCheckpoint(c, s, t);
    t' := ReportRun(c, s, t');
    ReachableBalances(c, s, t');
    ConcludesBy(c, t', t'.run.job);
    t' := ThenMain(c, s, t', Conclude);
  }

  // A run that skipped nothing returns Ok.
  lemma CompleteRun(c: Config, s: Sys, t: Sys) returns (t': Sys)
    requires Reachable(c, s) && Reaches(c, s, t) && Finished(c, t) && t.run.job.skipped == 0
    ensures Reaches(c, s, t') && t'.run == Returned(Complete) && t'.cache == t.cache && t'.holes == t.holes
    ensures t'.probed == t.probed && t'.now == t.now
  {
    t' := ConcludeRun(c, s, t);
    t' := ThenMain(c, s, t', FinalSync);
    t' := ThenMain(c, s, t', FinalDelete);
  }

  /** For every configuration, whatever has happened so far: once no run is in progress, a
      new one can complete, with the version the server has now and no offset passed over
      that was not before; and then, where the guarantees hold, the file is that version. */
  lemma InterruptedDownloadCanComplete(c: Config, s: Sys)
    requires Reachable(c, s) && Resting(s) && s.now < |c.versions| && |c.versions[s.now].bytes| > 0
    requires Honours(IfRangeValidator(c.versions[s.now]), c.versions[s.now])
    ensures exists t :: Reaches(c, s, t) && t.run == Returned(Complete) && t.probed == s.now
                        && (t.holes <= if s.probed == s.now then s.holes else {})
                        && (Setting(c) && t.holes == {} ==> t.cache == t.disk == c.versions[s.now].bytes)
  {
    ReachesSelf(c, s);
    ReachableVersions(c, s);
    var t := OpenRun(c, s, s);
    OwnVersionCanFetch(c, t);
    t := WorkAll(c, s, t, true);
    t := CompleteRun(c, s, t);
    if Setting(c) {
      ReachableThrough(c, s, t);
      CompletedRunIsOneVersion(c, t);
    }
  }

  lemma OwnVersionCanFetch(c: Config, t: Sys)
    requires Steady(c, t) && t.probed == t.now && Honours(IfRangeValidator(Current(c, t)), Current(c, t))
    ensures AllCanFetch(c, t)
  {
    forall m | 0 <= m < |t.run.job.ranges| ensures t.run.job.ranges[m].end <= |Current(c, t).bytes| {
      EndsBounded(t.run.job.ranges, |Current(c, t).bytes|, m);
    }
  }
}
