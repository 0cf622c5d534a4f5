/** What every step keeps about numbers: no byte is counted twice or lost, and the
    reported progress never runs backwards or past the file. */
module ProtocolCounts {
  import opened Wrappers
  import opened State
  import opened Http
  import opened Protocol
  import opened ProtocolContent

  function PendingIn(pc: Pc): nat {
    if pc.Stored? then pc.n else 0
  }

  /** Bytes whose position is published but which the counter does not have yet. */
  function Pending(pcs: seq<Pc>): nat {
    if pcs == [] then 0 else PendingIn(pcs[0]) + Pending(pcs[1..])
  }

  lemma {:induction false} PendingAfterMove(pcs: seq<Pc>, i: nat, pc: Pc)
    requires i < |pcs|
    ensures Pending(pcs[i := pc]) == Pending(pcs) - PendingIn(pcs[i]) + PendingIn(pc)
  {
    if i == 0 {
      assert pcs[i := pc][1..] == pcs[1..];
    } else {
      assert pcs[i := pc][1..] == pcs[1..][i - 1 := pc];
      PendingAfterMove(pcs[1..], i - 1, pc);
    }
  }

  lemma {:induction false} NothingPending(pcs: seq<Pc>)
    requires forall i :: 0 <= i < |pcs| ==> !pcs[i].Stored?
    ensures Pending(pcs) == 0
  {
    if pcs != [] {
      assert forall i :: 0 <= i < |pcs[1..]| ==> pcs[1..][i] == pcs[i + 1];
      NothingPending(pcs[1..]);
    }
  }

  /** Every byte between a start and a current is counted, about to be, or was skipped. */
  ghost predicate Balanced(j: Job) {
    && |j.pcs| == |j.ranges|
    && j.downloaded + Pending(j.pcs) + j.skipped == TotalDownloaded(j.ranges)
  }

  ghost predicate CountInv(s: Sys) {
    s.run.Active? ==> Balanced(s.run.job)
  }

  lemma WorkerCounts(c: Config, s: Sys, s': Sys, i: nat, act: WorkerAct)
    requires CountInv(s) && WorkerStep(c, s, i, act) == Some(s')
    ensures CountInv(s')
  {
    var j, j' := s.run.job, s'.run.job;
    PendingAfterMove(j.pcs, i, j'.pcs[i]);
    TotalAfterMove(j.ranges, i, j'.ranges[i]);
    assert j'.pcs == j.pcs[i := j'.pcs[i]];
    assert j'.ranges == j.ranges[i := j'.ranges[i]];
  }

  lemma SaverCounts(c: Config, s: Sys, s': Sys, act: SaverAct)
    requires CountInv(s) && SaverStep(c, s, act) == Some(s')
    ensures CountInv(s')
  {
  }

  lemma MainCounts(c: Config, s: Sys, s': Sys, step: Step)
    requires CountInv(s) && MainStep(c, s, step) == Some(s')
    ensures CountInv(s')
  {
    if step == SyncLength {
      NothingPending(StartJob(s.run.ranges).pcs);
    }
  }

  lemma StepCounts(c: Config, s: Sys, s': Sys, step: Step)
    requires CountInv(s) && Fire(c, s, step) == Some(s')
    ensures CountInv(s')
  {
    match step
    case Worker(i, act) => WorkerCounts(c, s, s', i, act);
    case Save(act) => SaverCounts(c, s, s', act);
    case _ =>
      if !InWorld(step) {
        MainCounts(c, s, s', step);
      }
  }

  lemma {:induction false} NoErrorWhenDone(pcs: seq<Pc>)
    requires forall i :: 0 <= i < |pcs| ==> pcs[i] == Done
    ensures FirstError(pcs).None? && Stopped(Cancelled) !in pcs
  {
    if pcs != [] {
      assert forall i :: 0 <= i < |pcs[1..]| ==> pcs[1..][i] == pcs[i + 1];
      NoErrorWhenDone(pcs[1..]);
    }
  }

  lemma ConcludesBy(c: Config, t: Sys, j: Job)
    requires t.probed < |c.versions| && Balanced(j) && Tiles(j.ranges, |Current(c, t).bytes|) && NothingLeft(j.ranges)
    requires forall i :: 0 <= i < |j.pcs| ==> j.pcs[i] == Done
    ensures ConcludeStep(c, t, j)
            == if j.skipped == 0 then t.(run := Active(j.(stage := Verified))) else Return(t, SizeMismatch)
  {
    NothingPending(j.pcs);
    NoErrorWhenDone(j.pcs);
    TotalWithinFile(j.ranges, |Current(c, t).bytes|);
  }

  // ----- events -----

  /** Probing, Started, then progress reports that never decrease and stay within a bound. */
  ghost predicate Running(log: seq<Event>, size: nat, bound: int) {
    && |log| >= 2
    && log[0] == EvProbing
    && log[1] == EvStarted(size)
    && (forall k :: 2 <= k < |log| ==> log[k].EvProgress? && log[k].downloaded <= bound)
    && (forall k, m :: 2 <= k <= m < |log| ==> log[k].downloaded <= log[m].downloaded)
  }

  ghost predicate Reported(log: seq<Event>, bytes: int) {
    |log| > 2 && log[|log| - 1] == EvProgress(bytes)
  }

  /** The whole event sequence of a download that has returned. */
  ghost predicate LifeCycle(log: seq<Event>, v: Verdict, size: nat) {
    && |log| >= 2
    && var body, last := log[..|log| - 1], log[|log| - 1];
       match v
       case Complete => last == EvCompleted(size) && Running(body, size, size) && Reported(body, size)
       case WasCancelled => last == EvCancelled && (body == [EvProbing] || Running(body, size, size))
       case _ => last == EvFailed && (body == [EvProbing] || Running(body, size, size))
  }

  ghost predicate EventInv(c: Config, s: Sys)
    requires s.probed < |c.versions|
  {
    var size := |Current(c, s).bytes|;
    match s.run
    case Idle => true
    case Probing => s.log == [EvProbing]
    case Active(j) =>
      && Running(s.log, size, j.downloaded)
      && (j.stage.Working? ==> j.reporting)
      && (!j.reporting ==> Reported(s.log, j.downloaded))
      && (j.stage.Verified? || j.stage.Flushed? ==> !j.reporting && j.downloaded == size)
    case Returned(v) => LifeCycle(s.log, v, size)
    case _ => s.log == [EvProbing, EvStarted(size)]
  }

  lemma CountedWithinFile(c: Config, s: Sys)
    requires Inv(c, s) && CountInv(s) && s.run.Active?
    ensures s.run.job.downloaded <= |Current(c, s).bytes|
  {
    TotalWithinFile(s.run.job.ranges, |Current(c, s).bytes|);
  }

  lemma WorkerEvents(c: Config, s: Sys, s': Sys, i: nat, act: WorkerAct)
    requires s.probed < |c.versions| && EventInv(c, s) && WorkerStep(c, s, i, act) == Some(s')
    ensures EventInv(c, s')
  {
  }

  lemma ReturnEvents(c: Config, s: Sys, v: Verdict, bound: int)
    requires s.probed < |c.versions|
    requires var size := |Current(c, s).bytes|;
             || (Running(s.log, size, bound) && bound <= size)
             || (s.log == [EvProbing] && (v == WasCancelled || v == Failed))
    requires v == Complete ==> |s.cache| == |Current(c, s).bytes| && Reported(s.log, |Current(c, s).bytes|)
    ensures EventInv(c, Return(s, v))
  {
    assert Return(s, v).log[..|s.log|] == s.log;
  }

  lemma ConcludeEvents(c: Config, s: Sys, s': Sys, j: Job)
    requires s.probed < |c.versions| && s.run == Active(j) && j.stage.Draining? && !j.reporting
    requires EventInv(c, s) && j.downloaded <= |Current(c, s).bytes| && ConcludeStep(c, s, j) == s'
    ensures EventInv(c, s')
  {
    if s'.run.Returned? {
      ReturnEvents(c, s, s'.run.verdict, j.downloaded);
    }
  }

  lemma MainEvents(c: Config, s: Sys, s': Sys, step: Step)
    requires Inv(c, s) && CountInv(s) && EventInv(c, s) && MainStep(c, s, step) == Some(s')
    ensures EventInv(c, s')
  {
    if step == ProbeFails || step == ProbeCancelled {
      ReturnEvents(c, s, s'.run.verdict, 0);
    } else if step == OpenFails {
      ReturnEvents(c, s, Failed, 0);
    } else if step == Conclude {
      CountedWithinFile(c, s);
      ConcludeEvents(c, s, s', s.run.job);
    } else if step == FinalDelete {
      ReturnEvents(c, s.(live := None), Complete, s.run.job.downloaded);
    } else if step in {Tick, Drain, LastTick, FinalSync} {
      JobEvents(c, s, s', step);
    } else {
      OpeningEvents(c, s, s', step);
    }
  }

  lemma JobEvents(c: Config, s: Sys, s': Sys, step: Step)
    requires s.probed < |c.versions| && EventInv(c, s) && MainStep(c, s, step) == Some(s')
    requires step in {Tick, Drain, LastTick, FinalSync}
    ensures EventInv(c, s')
  {
  }

  lemma OpeningEvents(c: Config, s: Sys, s': Sys, step: Step)
    requires s.probed < |c.versions| && EventInv(c, s) && MainStep(c, s, step) == Some(s')
    requires step in {StartRun, ProbeOk, Load, SetLength, SyncLength}
    ensures s'.probed < |c.versions| && EventInv(c, s')
  {
  }

  lemma SaverEvents(c: Config, s: Sys, s': Sys, act: SaverAct)
    requires s.probed < |c.versions| && EventInv(c, s) && SaverStep(c, s, act) == Some(s')
    ensures EventInv(c, s')
  {
  }

  lemma WorldEvents(c: Config, s: Sys, s': Sys, step: Step)
    requires s.probed < |c.versions| && EventInv(c, s) && WorldStep(c, s, step) == Some(s')
    ensures EventInv(c, s')
  {
  }

  lemma StepEvents(c: Config, s: Sys, s': Sys, step: Step)
    requires Inv(c, s) && CountInv(s) && EventInv(c, s) && Fire(c, s, step) == Some(s')
    requires s'.probed < |c.versions|
    ensures EventInv(c, s')
  {
    if step.Worker? {
      WorkerEvents(c, s, s', step.i, step.act);
    } else if step.Save? {
      SaverEvents(c, s, s', step.sact);
    } else if InWorld(step) {
      WorldEvents(c, s, s', step);
    } else {
      MainEvents(c, s, s', step);
    }
  }

  lemma {:induction false} ExecCounts(c: Config, s: Sys, steps: seq<Step>)
    requires Setting(c) && Inv(c, s) && CountInv(s) && EventInv(c, s) && Exec(c, s, steps).Some?
    ensures var s' := Exec(c, s, steps).value; Inv(c, s') && CountInv(s') && EventInv(c, s')
    decreases |steps|
  {
    if steps != [] {
      var s' := Fire(c, s, steps[0]).value;
      StepKeeps(c, s, s', steps[0]);
      StepCounts(c, s, s', steps[0]);
      StepEvents(c, s, s', steps[0]);
      ExecCounts(c, s', steps[1..]);
    }
  }
}
