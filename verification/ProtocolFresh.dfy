/** A run that resumes nothing that was passed over: if it returns Ok the file is exact,
    416s or not. */
module ProtocolFresh {
  import opened Wrappers
  import opened State
  import opened Http
  import opened Protocol
  import opened ProtocolContent
  import opened ProtocolCounts
  import opened ProtocolTheorems

  ghost predicate Clear(holes: set<nat>, lo: nat, hi: nat) {
    forall k :: lo <= k < hi ==> k !in holes
  }

  // No offset the workers claim was passed over.
  ghost predicate ClearRanges(ws: seq<WorkerRange>, holes: set<nat>) {
    forall i :: 0 <= i < |ws| ==> Clear(holes, ws[i].start, ws[i].current)
  }

  ghost predicate ClearPcs(j: Job, holes: set<nat>) {
    forall i :: 0 <= i < |j.pcs| && i < |j.ranges| && j.pcs[i].Written? ==>
      Clear(holes, j.ranges[i].current, j.ranges[i].current + j.pcs[i].n)
  }

  ghost predicate ClearJob(j: Job, holes: set<nat>) {
    && (j.skipped == 0 ==> ClearRanges(j.ranges, holes) && ClearPcs(j, holes))
    && (j.stage.Verified? || j.stage.Flushed? ==> j.skipped == 0)
  }

  // What holds from the moment the ranges are loaded to the end of the run.
  ghost predicate ClearRun(c: Config, s: Sys)
    requires s.probed < |c.versions|
  {
    match s.run
    case Idle => true
    case Probing => false
    case Probed => false
    case Loaded(ranges) => ClearRanges(ranges, s.holes)
    case Sized(ranges) => ClearRanges(ranges, s.holes)
    case Active(j) => ClearJob(j, s.holes)
    case Returned(v) => v == Complete ==> Clear(s.holes, 0, |Current(c, s).bytes|)
  }

  lemma ChunkClears(c: Config, s: Sys, s': Sys, i: nat, n: nat)
    requires Inv(c, s) && ClearRun(c, s) && WorkerStep(c, s, i, Chunk(n)) == Some(s')
    ensures ClearRun(c, s')
  {
    var len := ChunkWrites(c, s, s', i, n);
  }

  lemma PublishClears(c: Config, s: Sys, s': Sys, i: nat)
    requires Inv(c, s) && ClearRun(c, s) && WorkerStep(c, s, i, Publish) == Some(s')
    ensures ClearRun(c, s')
  {
    var w, n := s.run.job.ranges[i], s.run.job.pcs[i].n;
    if s.run.job.skipped == 0 {
      assert Clear(s.holes, w.start, w.current) && Clear(s.holes, w.current, w.current + n);
    }
  }

  lemma WorkerClears(c: Config, s: Sys, s': Sys, i: nat, act: WorkerAct)
    requires Inv(c, s) && ClearRun(c, s) && WorkerStep(c, s, i, act) == Some(s')
    ensures ClearRun(c, s')
  {
    if act.Chunk? {
      ChunkClears(c, s, s', i, act.n);
    } else if act.Publish? {
      PublishClears(c, s, s', i);
    }
  }

  lemma SaverClears(c: Config, s: Sys, s': Sys, act: SaverAct)
    requires s.probed < |c.versions| && ClearRun(c, s) && SaverStep(c, s, act) == Some(s')
    ensures s'.probed < |c.versions| && ClearRun(c, s')
  {
  }

  // The byte check passes only a run that skipped nothing.
  lemma ConcludeClears(c: Config, s: Sys, s': Sys, j: Job)
    requires s.probed < |c.versions| && s.run == Active(j) && ClearJob(j, s.holes) && ConcludeStep(c, s, j) == s'
    requires Balanced(j) && TotalDownloaded(j.ranges) <= |Current(c, s).bytes|
    ensures s'.probed < |c.versions| && ClearRun(c, s')
  {
  }

  lemma DoneIsClear(ws: seq<WorkerRange>, size: nat, holes: set<nat>)
    requires Tiles(ws, size) && ClearRanges(ws, holes) && NothingLeft(ws)
    ensures Clear(holes, 0, size)
  {
    forall k | 0 <= k < size ensures k !in holes {
      EveryOffsetHasOneWorker(ws, size, k);
      var i :| 0 <= i < |ws| && ws[i].start <= k < ws[i].end;
      assert Clear(holes, ws[i].start, ws[i].current);
    }
  }

  lemma DeleteClears(c: Config, s: Sys, s': Sys)
    requires Inv(c, s) && ClearRun(c, s) && MainStep(c, s, FinalDelete) == Some(s')
    ensures ClearRun(c, s')
  {
    DoneAtEnd(c, s);
    DoneIsClear(s.run.job.ranges, |Current(c, s).bytes|, s.holes);
  }

  lemma MainClears(c: Config, s: Sys, s': Sys, step: Step)
    requires Inv(c, s) && CountInv(s) && ClearRun(c, s) && MainStep(c, s, step) == Some(s')
    requires step != StartRun
    ensures s'.probed < |c.versions| && ClearRun(c, s')
  {
    if step == Conclude {
      TotalWithinFile(s.run.job.ranges, |Current(c, s).bytes|);
      ConcludeClears(c, s, s', s.run.job);
    } else if step == FinalDelete {
      DeleteClears(c, s, s');
    }
  }

  lemma WorldClears(c: Config, s: Sys, s': Sys, step: Step)
    requires s.probed < |c.versions| && ClearRun(c, s) && WorldStep(c, s, step) == Some(s')
    ensures s'.probed < |c.versions| && ClearRun(c, s')
  {
  }

  lemma StepClears(c: Config, s: Sys, s': Sys, step: Step)
    requires Inv(c, s) && CountInv(s) && ClearRun(c, s) && Fire(c, s, step) == Some(s') && step != StartRun
    requires s'.probed < |c.versions|
    ensures ClearRun(c, s')
  {
    if step.Worker? {
      WorkerClears(c, s, s', step.i, step.act);
    } else if step.Save? {
      SaverClears(c, s, s', step.sact);
    } else if InWorld(step) {
      WorldClears(c, s, s', step);
    } else {
      MainClears(c, s, s', step);
    }
  }

  lemma {:induction false} ExecClears(c: Config, s: Sys, steps: seq<Step>)
    requires Setting(c) && Inv(c, s) && CountInv(s) && ClearRun(c, s) && Exec(c, s, steps).Some?
    requires StartRun !in steps
    ensures var t := Exec(c, s, steps).value; Inv(c, t) && ClearRun(c, t)
    decreases |steps|
  {
    if steps != [] {
      var s' := Fire(c, s, steps[0]).value;
      StepKeeps(c, s, s', steps[0]);
      StepCounts(c, s, s', steps[0]);
      StepClears(c, s, s', steps[0]);
      ExecClears(c, s', steps[1..]);
    }
  }

  /** A run whose ranges claim nothing that was passed over leaves exactly the probed
      version if it returns Ok, whatever 416s came before or come during it. */
  lemma ClearRunIsExact(c: Config, s: Sys, steps: seq<Step>, t: Sys)
    requires Setting(c) && Reachable(c, s) && s.run.Loaded? && ClearRanges(s.run.ranges, s.holes)
    requires StartRun !in steps && Exec(c, s, steps) == Some(t) && t.run == Returned(Complete)
    ensures t.probed < |c.versions| && t.cache == t.disk == Current(c, t).bytes
  {
    ReachableInv(c, s);
    ExecClears(c, s, steps);
  }

  /** In particular a run that finds no state to resume. */
  lemma FreshRunIsExact(c: Config, s: Sys, steps: seq<Step>, t: Sys)
    requires Setting(c) && Reachable(c, s) && s.run.Loaded? && s.probed < |c.versions| && |Current(c, s).bytes| > 0
    requires s.run.ranges == PickRanges(c, s.live, Current(c, s)) && !Loads(s.live, Current(c, s))
    requires StartRun !in steps && Exec(c, s, steps) == Some(t) && t.run == Returned(Complete)
    ensures t.probed < |c.versions| && t.cache == t.disk == Current(c, t).bytes
  {
    SplitTiles(|Current(c, s).bytes|, c.threads, c.minChunk);
    ClearRunIsExact(c, s, steps, t);
  }
}
