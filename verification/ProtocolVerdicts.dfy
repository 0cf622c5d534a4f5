/** What a run reports: the verdict its workers' outcomes call for, a cancellation only if
    somebody asked for it, and progress that is exactly what was published. */
module ProtocolVerdicts {
  import opened Wrappers
  import opened State
  import opened Http
  import opened Protocol
  import opened ProtocolContent
  import opened ProtocolCounts
  import opened ProtocolTheorems

  ghost predicate Failure(pc: Pc) {
    pc.Stopped? && pc.why != Cancelled
  }

  // The first worker, in order, that failed.
  ghost predicate FailedFirst(pcs: seq<Pc>, i: nat) {
    i < |pcs| && Failure(pcs[i]) && forall m :: 0 <= m < i ==> !Failure(pcs[m])
  }

  ghost predicate SomeCancelled(pcs: seq<Pc>) {
    exists i :: 0 <= i < |pcs| && pcs[i] == Stopped(Cancelled)
  }

  ghost predicate NoneFailed(pcs: seq<Pc>) {
    forall m :: 0 <= m < |pcs| ==> !Failure(pcs[m])
  }

  lemma {:induction false} FirstErrorIs(pcs: seq<Pc>, i: nat)
    requires FailedFirst(pcs, i)
    ensures FirstError(pcs) == Some(pcs[i].why)
  {
    if i > 0 {
      assert !Failure(pcs[0]);
      assert forall m :: 0 <= m < i - 1 ==> pcs[1..][m] == pcs[m + 1];
      FirstErrorIs(pcs[1..], i - 1);
    }
  }

  lemma {:induction false} NoFirstError(pcs: seq<Pc>)
    requires NoneFailed(pcs)
    ensures FirstError(pcs).None?
  {
    if pcs != [] {
      assert !Failure(pcs[0]);
      assert forall m :: 0 <= m < |pcs| - 1 ==> pcs[1..][m] == pcs[m + 1];
      NoFirstError(pcs[1..]);
    }
  }

  /** Cancelled if any worker was; else what the first failed worker calls for, and the state
      file is dropped only for a changed resource; else a size mismatch exactly when something
      was skipped, and the final steps otherwise. */
  ghost predicate Follows(s: Sys, j: Job, s': Sys, i: nat) {
    if SomeCancelled(j.pcs) then s'.run == Returned(WasCancelled) && s'.live == s.live
    else if FailedFirst(j.pcs, i) then
      if j.pcs[i].why == ResourceChanged then s'.run == Returned(Changed) && s'.live == None
      else s'.run == Returned(Failed) && s'.live == s.live
    else NoneFailed(j.pcs) ==>
      s'.live == s.live && if j.skipped > 0 then s'.run == Returned(SizeMismatch) else s'.run.Active?
  }

  lemma ConcludeFollows(c: Config, s: Sys, j: Job, i: nat)
    requires s.probed < |c.versions|
    requires NoneFailed(j.pcs) && !SomeCancelled(j.pcs) ==>
               ConcludeStep(c, s, j)
               == if j.skipped == 0 then s.(run := Active(j.(stage := Verified))) else Return(s, SizeMismatch)
    ensures Follows(s, j, ConcludeStep(c, s, j), i)
  {
    if FailedFirst(j.pcs, i) {
      FirstErrorIs(j.pcs, i);
    }
  }

  /** The verdict follows from the workers' outcomes. */
  lemma VerdictFollowsWorkers(c: Config, s: Sys, s': Sys, i: nat)
    requires Setting(c) && Reachable(c, s) && s.run.Active? && MainStep(c, s, Conclude) == Some(s')
    ensures Follows(s, s.run.job, s', i)
  {
    ReachableInv(c, s);
    ConcludesAt(c, s, s');
    if !SomeCancelled(s.run.job.pcs) && NoneFailed(s.run.job.pcs) {
      NoneFailedConcludes(c, s);
    }
    ConcludeFollows(c, s, s.run.job, i);
  }

  lemma ConcludesAt(c: Config, s: Sys, s': Sys)
    requires s.run.Active? && MainStep(c, s, Conclude) == Some(s')
    ensures s.probed < |c.versions| && s.run.job.stage == Stage.Draining && s' == ConcludeStep(c, s, s.run.job)
  {
  }

  lemma NoneFailedConcludes(c: Config, s: Sys)
    requires Inv(c, s) && CountInv(s) && s.run.Active? && s.run.job.stage != Working
    requires !SomeCancelled(s.run.job.pcs) && NoneFailed(s.run.job.pcs)
    ensures ConcludeStep(c, s, s.run.job)
            == if s.run.job.skipped == 0 then s.(run := Active(s.run.job.(stage := Verified))) else Return(s, SizeMismatch)
  {
    NoneFailedIsDone(c, s);
    DoneAtEnd(c, s);
    ConcludesBy(c, s, s.run.job);
  }

  lemma NoneFailedIsDone(c: Config, s: Sys)
    requires Inv(c, s) && s.run.Active? && s.run.job.stage != Working
    requires !SomeCancelled(s.run.job.pcs) && NoneFailed(s.run.job.pcs)
    ensures forall i :: 0 <= i < |s.run.job.pcs| ==> s.run.job.pcs[i] == Done
  {
    var pcs := s.run.job.pcs;
    forall i | 0 <= i < |pcs| ensures pcs[i] == Done {
      assert Ended(pcs[i]) && !Failure(pcs[i]) && pcs[i] != Stopped(Cancelled);
    }
  }

  // ----- cancellation -----

  ghost predicate Asked(s: Sys) {
    && (s.run.Active? && SomeCancelled(s.run.job.pcs) ==> s.cancelled)
    && (s.run == Returned(WasCancelled) ==> s.cancelled)
  }

  lemma WorkerAsked(c: Config, s: Sys, s': Sys, i: nat, act: WorkerAct)
    requires Asked(s) && WorkerStep(c, s, i, act) == Some(s')
    ensures Asked(s')
  {
  }

  lemma SaverAsked(c: Config, s: Sys, s': Sys, act: SaverAct)
    requires Asked(s) && SaverStep(c, s, act) == Some(s')
    ensures Asked(s')
  {
  }

  lemma MainAsked(c: Config, s: Sys, s': Sys, step: Step)
    requires Asked(s) && MainStep(c, s, step) == Some(s')
    ensures Asked(s')
  {
  }

  lemma StepAsked(c: Config, s: Sys, s': Sys, step: Step)
    requires Asked(s) && Fire(c, s, step) == Some(s')
    ensures Asked(s')
  {
    if step.Worker? {
      WorkerAsked(c, s, s', step.i, step.act);
    } else if step.Save? {
      SaverAsked(c, s, s', step.sact);
    } else if !InWorld(step) {
      MainAsked(c, s, s', step);
    }
  }

  lemma {:induction false} ExecAsked(c: Config, s: Sys, steps: seq<Step>)
    requires Asked(s) && Exec(c, s, steps).Some?
    ensures Asked(Exec(c, s, steps).value)
    decreases |steps|
  {
    if steps != [] {
      StepAsked(c, s, Fire(c, s, steps[0]).value, steps[0]);
      ExecAsked(c, Fire(c, s, steps[0]).value, steps[1..]);
    }
  }

  /** A run reports Cancelled only if the download was cancelled. */
  lemma CancelledOnlyIfAsked(c: Config, s: Sys)
    requires Reachable(c, s) && s.run == Returned(WasCancelled)
    ensures s.cancelled
  {
    var leftover, steps :| Exec(c, Init(leftover), steps) == Some(s);
    ExecAsked(c, Init(leftover), steps);
  }

  // ----- progress -----

  /** A progress report is the number of bytes published, less those not yet counted and
      those passed over. */
  lemma ReportsWhatIsPublished(c: Config, s: Sys, s': Sys, step: Step)
    requires Setting(c) && Reachable(c, s) && step in {Tick, LastTick} && MainStep(c, s, step) == Some(s')
    ensures s.run.Active?
    ensures var j := s.run.job;
            s'.log == s.log + [EvProgress(TotalDownloaded(j.ranges) - Pending(j.pcs) - j.skipped)]
  {
    ReachableInv(c, s);
  }

  /** While workers work a report can be made at any time. */
  lemma ProgressCanBeReported(c: Config, s: Sys)
    requires Setting(c) && Reachable(c, s) && s.run.Active? && s.run.job.stage == Working
    ensures MainStep(c, s, Tick).Some?
  {
    ReachableInv(c, s);
  }
}
