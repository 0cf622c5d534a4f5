/** What checkpoints save: never less than what was published when they began, and after
    the last one everything, so that the next run goes on exactly where this one stopped. */
module ProtocolCheckpoints {
  import opened Wrappers
  import opened State
  import opened Http
  import opened Protocol
  import opened ProtocolContent
  import opened ProtocolTheorems

  // ----- a checkpoint saves what was there when it began -----

  ghost predicate SeenSince(was: seq<WorkerRange>, seen: seq<nat>) {
    |seen| <= |was| && forall i :: 0 <= i < |seen| ==> was[i].current <= seen[i]
  }

  // The checkpoint at work in a run that has got at least as far as `was`.
  ghost predicate SavesSince(was: seq<WorkerRange>, s: Sys, j: Job) {
    && Behind(was, j.ranges)
    && match j.saver
       case Reading(_, seen) => SeenSince(was, seen)
       case Snapped(_, st) => Behind(was, st.workers)
       case Synced(_, st) => Behind(was, st.workers)
       case TempReady(_, st) => Behind(was, st.workers) && s.temp == Some(st)
       case _ => true
  }

  // No new run begins.
  ghost predicate SameRun(s: Sys) {
    s.run.Active? || s.run.Returned? || s.run.Idle?
  }

  ghost predicate SavingSince(was: seq<WorkerRange>, s: Sys) {
    SameRun(s) && (s.run.Active? ==> SavesSince(was, s, s.run.job))
  }

  lemma BehindThrough(a: seq<WorkerRange>, b: seq<WorkerRange>, c: seq<WorkerRange>)
    requires Behind(a, b) && Behind(b, c)
    ensures Behind(a, c)
  {
  }

  // Workers only move forward.
  lemma WorkerAdvances(c: Config, s: Sys, s': Sys, i: nat, act: WorkerAct)
    requires Inv(c, s) && WorkerStep(c, s, i, act) == Some(s')
    ensures s'.run.Active? && s'.run.job.saver == s.run.job.saver && s'.temp == s.temp
    ensures Behind(s.run.job.ranges, s'.run.job.ranges)
  {
  }

  lemma WorkerSavesSince(c: Config, was: seq<WorkerRange>, s: Sys, s': Sys, i: nat, act: WorkerAct)
    requires Inv(c, s) && SavingSince(was, s) && WorkerStep(c, s, i, act) == Some(s')
    ensures SavingSince(was, s')
  {
    WorkerAdvances(c, s, s', i, act);
    BehindThrough(was, s.run.job.ranges, s'.run.job.ranges);
  }

  lemma SaverSavesSince(c: Config, was: seq<WorkerRange>, s: Sys, s': Sys, act: SaverAct)
    requires Inv(c, s) && SavingSince(was, s) && SaverStep(c, s, act) == Some(s')
    ensures SavingSince(was, s')
  {
  }

  lemma MainSavesSince(c: Config, was: seq<WorkerRange>, s: Sys, s': Sys, step: Step)
    requires SavingSince(was, s) && MainStep(c, s, step) == Some(s') && step != StartRun
    ensures SavingSince(was, s')
  {
  }

  lemma StepSavesSince(c: Config, was: seq<WorkerRange>, s: Sys, s': Sys, step: Step)
    requires Inv(c, s) && SavingSince(was, s) && Fire(c, s, step) == Some(s') && step != StartRun
    ensures SavingSince(was, s')
  {
    if step.Worker? {
      WorkerSavesSince(c, was, s, s', step.i, step.act);
    } else if step.Save? {
      SaverSavesSince(c, was, s, s', step.sact);
    } else if !InWorld(step) {
      MainSavesSince(c, was, s, s', step);
    }
  }

  lemma {:induction false} ExecSavesSince(c: Config, was: seq<WorkerRange>, s: Sys, steps: seq<Step>)
    requires Setting(c) && Inv(c, s) && SavingSince(was, s) && Exec(c, s, steps).Some? && StartRun !in steps
    ensures var t := Exec(c, s, steps).value; Inv(c, t) && SavingSince(was, t)
    decreases |steps|
  {
    if steps != [] {
      var s' := Fire(c, s, steps[0]).value;
      StepKeeps(c, s, s', steps[0]);
      StepSavesSince(c, was, s, s', steps[0]);
      ExecSavesSince(c, was, s', steps[1..]);
    }
  }

  lemma RenameInstalls(c: Config, was: seq<WorkerRange>, t: Sys, t': Sys)
    requires Inv(c, t) && SavingSince(was, t) && SaverStep(c, t, Rename) == Some(t')
    ensures t'.live.Some? && t'.run.Active?
    ensures Behind(was, t'.live.value.workers) && Behind(t'.live.value.workers, t'.run.job.ranges)
  {
  }

  /** Every state file a checkpoint installs has, for every worker, at least the position
      that was published when the checkpoint began, and at most the one published now. */
  lemma CheckpointKeepsPositions(c: Config, s: Sys, s1: Sys, steps: seq<Step>, t: Sys, t': Sys)
    requires Setting(c) && Reachable(c, s) && SaverStep(c, s, SaverAct.Begin) == Some(s1)
    requires Exec(c, s1, steps) == Some(t) && StartRun !in steps && SaverStep(c, t, Rename) == Some(t')
    ensures t'.live.Some? && t'.run.Active?
    ensures Behind(s.run.job.ranges, t'.live.value.workers) && Behind(t'.live.value.workers, t'.run.job.ranges)
  {
    ReachableInv(c, s);
    BeginSaves(c, s, s1);
    ExecSavesSince(c, s.run.job.ranges, s1, steps);
    RenameInstalls(c, s.run.job.ranges, t, t');
  }

  lemma BeginSaves(c: Config, s: Sys, s1: Sys)
    requires Inv(c, s) && SaverStep(c, s, SaverAct.Begin) == Some(s1)
    ensures Inv(c, s1) && SavingSince(s.run.job.ranges, s1)
  {
    ReadingKeeps(c, s, s1, SaverAct.Begin);
  }

  // ----- the last checkpoint saves everything -----

  ghost predicate NotLast(saver: Saver) {
    match saver
    case Waiting => true
    case Exited => false
    case _ => !saver.last
  }

  // While workers work, the checkpoint under way is not the last one.
  ghost predicate EarlySaver(s: Sys) {
    s.run.Active? && s.run.job.stage.Working? ==> NotLast(s.run.job.saver)
  }

  lemma WorkerEarly(c: Config, s: Sys, s': Sys, i: nat, act: WorkerAct)
    requires EarlySaver(s) && WorkerStep(c, s, i, act) == Some(s')
    ensures EarlySaver(s')
  {
  }

  lemma SaverEarly(c: Config, s: Sys, s': Sys, act: SaverAct)
    requires EarlySaver(s) && SaverStep(c, s, act) == Some(s')
    ensures EarlySaver(s')
  {
  }

  lemma MainEarly(c: Config, s: Sys, s': Sys, step: Step)
    requires EarlySaver(s) && MainStep(c, s, step) == Some(s')
    ensures EarlySaver(s')
  {
  }

  lemma StepEarly(c: Config, s: Sys, s': Sys, step: Step)
    requires EarlySaver(s) && Fire(c, s, step) == Some(s')
    ensures EarlySaver(s')
  {
    if step.Worker? {
      WorkerEarly(c, s, s', step.i, step.act);
    } else if step.Save? {
      SaverEarly(c, s, s', step.sact);
    } else if !InWorld(step) {
      MainEarly(c, s, s', step);
    }
  }

  lemma {:induction false} ExecEarly(c: Config, s: Sys, steps: seq<Step>)
    requires EarlySaver(s) && Exec(c, s, steps).Some?
    ensures EarlySaver(Exec(c, s, steps).value)
    decreases |steps|
  {
    if steps != [] {
      StepEarly(c, s, Fire(c, s, steps[0]).value, steps[0]);
      ExecEarly(c, Fire(c, s, steps[0]).value, steps[1..]);
    }
  }

  // The workers have stopped at ws; what the last checkpoint has so far is exactly that.
  ghost predicate SavesAll(ws: seq<WorkerRange>, st: DownloadState, s: Sys, j: Job) {
    && j.ranges == ws && !j.stage.Working? && (j.saver.Exited? || j.stage.Draining?)
    && match j.saver
       case Waiting => true
       case Reading(last, seen) =>
         last ==> |seen| <= |ws| && forall i :: 0 <= i < |seen| ==> seen[i] == ws[i].current
       case Snapped(last, snap) => last ==> snap == st
       case Synced(last, snap) => last ==> snap == st
       case TempReady(last, snap) => s.temp == Some(snap) && (last ==> snap == st)
       case Exited => s.live == Some(st)
  }

  // What a returned run has left: nothing when there is nothing to resume, or all of it.
  ghost predicate LeftAll(st: DownloadState, s: Sys, v: Verdict) {
    s.live == if v == Complete || v == Changed then None else Some(st)
  }

  ghost predicate SavingAll(c: Config, probed: nat, ws: seq<WorkerRange>, s: Sys)
    requires probed < |c.versions|
  {
    var st := StateFor(c, c.versions[probed], ws);
    && SameRun(s) && s.probed == probed
    && (s.run.Active? ==> SavesAll(ws, st, s, s.run.job))
    && (s.run.Returned? ==> LeftAll(st, s, s.run.verdict))
  }

  lemma SaverSavesAll(c: Config, probed: nat, ws: seq<WorkerRange>, s: Sys, s': Sys, act: SaverAct)
    requires probed < |c.versions| && SavingAll(c, probed, ws, s) && SaverStep(c, s, act) == Some(s')
    requires act != SaveFails && forall i :: 0 <= i < |ws| ==> ws[i].current <= ws[i].end
    ensures SavingAll(c, probed, ws, s')
  {
    if act == Assemble && s.run.job.saver.last {
      assert s'.run.job.saver.st.workers == ws;
    }
  }

  lemma ConcludeSavesAll(c: Config, s: Sys, j: Job, st: DownloadState)
    requires s.probed < |c.versions| && s.run == Active(j) && s.live == Some(st)
    ensures var s' := ConcludeStep(c, s, j);
            && s'.probed == s.probed
            && (s'.run.Active? ==> s'.live == Some(st) && s'.run.job == j.(stage := Verified))
            && (!s'.run.Active? ==> s'.run.Returned? && LeftAll(st, s', s'.run.verdict))
  {
  }

  lemma MainSavesAll(c: Config, probed: nat, ws: seq<WorkerRange>, s: Sys, s': Sys, step: Step)
    requires probed < |c.versions| && SavingAll(c, probed, ws, s) && MainStep(c, s, step) == Some(s')
    requires step != StartRun
    ensures SavingAll(c, probed, ws, s')
  {
    if step == Conclude {
      ConcludeSavesAll(c, s, s.run.job, StateFor(c, c.versions[probed], ws));
    }
  }

  lemma StepSavesAll(c: Config, probed: nat, ws: seq<WorkerRange>, s: Sys, s': Sys, step: Step)
    requires probed < |c.versions| && SavingAll(c, probed, ws, s) && Fire(c, s, step) == Some(s')
    requires step != StartRun && step != Save(SaveFails) && forall i :: 0 <= i < |ws| ==> ws[i].current <= ws[i].end
    ensures SavingAll(c, probed, ws, s')
  {
    if step.Save? {
      SaverSavesAll(c, probed, ws, s, s', step.sact);
    } else if !step.Worker? && !InWorld(step) {
      MainSavesAll(c, probed, ws, s, s', step);
    }
  }

  lemma {:induction false} ExecSavesAll(c: Config, probed: nat, ws: seq<WorkerRange>, s: Sys, steps: seq<Step>)
    requires probed < |c.versions| && SavingAll(c, probed, ws, s) && Exec(c, s, steps).Some?
    requires StartRun !in steps && Save(SaveFails) !in steps
    requires forall i :: 0 <= i < |ws| ==> ws[i].current <= ws[i].end
    ensures SavingAll(c, probed, ws, Exec(c, s, steps).value)
    decreases |steps|
  {
    if steps != [] {
      var s' := Fire(c, s, steps[0]).value;
      StepSavesAll(c, probed, ws, s, s', steps[0]);
      ExecSavesAll(c, probed, ws, s', steps[1..]);
    }
  }

  lemma DrainBegins(c: Config, s: Sys, s1: Sys)
    requires Inv(c, s) && EarlySaver(s) && MainStep(c, s, Drain) == Some(s1)
    ensures s.probed < |c.versions| && s.run.Active? && SavingAll(c, s.probed, s.run.job.ranges, s1)
    ensures forall i :: 0 <= i < |s.run.job.ranges| ==> s.run.job.ranges[i].current <= s.run.job.ranges[i].end
  {
  }

  /** Once all workers have stopped, and if no checkpoint fails, a run that returns Cancelled,
      an error or a size mismatch leaves a state file with exactly the published positions;
      one that returns Ok or finds the resource changed leaves none. */
  lemma ReturnedRunHasSavedAll(c: Config, s: Sys, s1: Sys, steps: seq<Step>, t: Sys)
    requires Setting(c) && Reachable(c, s) && MainStep(c, s, Drain) == Some(s1)
    requires Exec(c, s1, steps) == Some(t) && StartRun !in steps && Save(SaveFails) !in steps && t.run.Returned?
    ensures s.probed < |c.versions| && t.probed == s.probed && s.run.Active?
    ensures t.live == if t.run.verdict == Complete || t.run.verdict == Changed then None
                      else Some(StateFor(c, Current(c, s), s.run.job.ranges))
  {
    ReachableInv(c, s);
    ReachableEarly(c, s);
    DrainBegins(c, s, s1);
    ExecSavesAll(c, s.probed, s.run.job.ranges, s1, steps);
  }

  lemma ReachableEarly(c: Config, s: Sys)
    requires Reachable(c, s)
    ensures EarlySaver(s)
  {
    var leftover, before :| Exec(c, Init(leftover), before) == Some(s);
    ExecEarly(c, Init(leftover), before);
  }

  // ----- and the next run resumes there -----

  lemma OpensAt(c: Config, t: Sys, ws: seq<WorkerRange>)
    requires t.run.Returned? && t.probed == t.now < |c.versions| && t.live == Some(StateFor(c, Current(c, t), ws))
    requires Tiles(ws, |Current(c, t).bytes|) && |Current(c, t).bytes| > 0
    ensures var end := Exec(c, t, [StartRun, ProbeOk, Load]); end.Some? && end.value.run == Loaded(ws)
  {
    var t1 := MainStep(c, t, StartRun).value;
    var t2 := MainStep(c, t1, ProbeOk).value;
    var t3 := MainStep(c, t2, Load).value;
    assert Loads(t2.live, Current(c, t2));
    assert [StartRun, ProbeOk, Load][1..] == [ProbeOk, Load] && [ProbeOk, Load][1..] == [Load] && [Load][1..] == [];
    assert Exec(c, t3, []) == Some(t3);
    assert Exec(c, t2, [Load]) == Some(t3);
    assert Exec(c, t1, [ProbeOk, Load]) == Some(t3);
  }

  /** So a download that was cancelled or failed goes on, on the same version, exactly from
      the positions its workers had published: nothing is fetched twice. */
  lemma ResumesWhereItStopped(c: Config, s: Sys, s1: Sys, steps: seq<Step>, t: Sys)
    requires Setting(c) && Reachable(c, s) && MainStep(c, s, Drain) == Some(s1)
    requires Exec(c, s1, steps) == Some(t) && StartRun !in steps && Save(SaveFails) !in steps
    requires t.run.Returned? && t.run.verdict != Complete && t.run.verdict != Changed && t.now == t.probed
    requires s.probed < |c.versions| && |Current(c, s).bytes| > 0
    ensures var end := Exec(c, t, [StartRun, ProbeOk, Load]); end.Some? && end.value.run == Loaded(s.run.job.ranges)
  {
    ReachableInv(c, s);
    ReturnedRunHasSavedAll(c, s, s1, steps, t);
    OpensAt(c, t, s.run.job.ranges);
  }
}
