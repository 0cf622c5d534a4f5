/** What happens to the tasks of a queue: none is lost except to a shutdown, all others can be
    run, in the order they were sent, and everybody who waits can be cancelled. */
module TaskQueueRuns {
  import opened Wrappers
  import opened TaskQueue

  // ----- no task is lost -----

  lemma TakenUntilReplied(q: Queue, q': Queue, limit: nat, step: Step, id: nat)
    requires Inv(q', limit) && Fire(q, step) == Some(q') && id in q.runners && Unanswered(q.runners[id].pc)
    requires Places(q)
    ensures id in q'.runners && q'.runners[id].token == q.runners[id].token
    ensures Unanswered(q'.runners[id].pc) || q'.replied[id] == 1
  {
  }

  lemma ArrivingUntilSent(q: Queue, q': Queue, step: Step, id: nat)
    requires Places(q) && id in q.arriving && Fire(q, step) == Some(q') && step != SendFails(id)
    ensures if step == Send(id) then q'.open && Submit(id, q.arriving[id]) in q'.channel
            else id in q'.arriving && q'.arriving[id] == q.arriving[id]
  {
    if step == Send(id) {
      assert q'.channel[|q'.channel| - 1] == Submit(id, q.arriving[id]);
    }
  }

  /** Whatever happens, an outstanding task stays outstanding until it is replied to, unless its
      submitter finds the queue closed or the dispatcher takes a shutdown before it. */
  lemma OutstandingUntilReplied(q: Queue, q': Queue, limit: nat, step: Step, id: nat, token: nat)
    requires Inv(q, limit) && Outstanding(q, id, token) && Fire(q, step) == Some(q')
    requires step != SendFails(id)
    requires !(step == Receive && q.channel[0].Shutdown? && Submit(id, token) in q.channel)
    ensures Outstanding(q', id, token) || q'.replied[id] == 1
  {
    StepKeeps(q, q', limit, step);
    if id in q.arriving && q.arriving[id] == token {
      ArrivingUntilSent(q, q', step, id);
    } else if q.open && Submit(id, token) in q.channel {
      ChannelUntilTaken(q, q', step, id, token);
    } else {
      TakenUntilReplied(q, q', limit, step, id);
    }
  }

  lemma ChannelUntilTaken(q: Queue, q': Queue, step: Step, id: nat, token: nat)
    requires q.open && Submit(id, token) in q.channel && Fire(q, step) == Some(q')
    requires !(step == Receive && q.channel[0].Shutdown?)
    ensures q'.open
    ensures Submit(id, token) in q'.channel || (id in q'.runners && q'.runners[id] == Runner(token, Pending))
  {
    StaysInChannel(q, q', step, Submit(id, token));
  }

  lemma StaysInChannel(q: Queue, q': Queue, step: Step, m: Msg)
    requires Fire(q, step) == Some(q') && m in q.channel
    ensures m in q'.channel || step == Receive
    ensures step == Receive && q.channel[0].Submit? && q.channel[0] != m ==> m in q'.channel
  {
    var k :| 0 <= k < |q.channel| && q.channel[k] == m;
    if step == Receive {
      if k > 0 && q.channel[0].Submit? {
        assert q'.channel[k - 1] == m;
      }
    } else {
      assert q'.channel[k] == m;
    }
  }

  // ----- executions -----

  ghost predicate Reaches(q: Queue, t: Queue) {
    exists steps :: Exec(q, steps) == Some(t)
  }

  lemma {:induction false} ExecOneMore(q: Queue, steps: seq<Step>, step: Step)
    requires Exec(q, steps).Some?
    ensures Exec(q, steps + [step]) == Fire(Exec(q, steps).value, step)
    decreases |steps|
  {
    if steps == [] {
      assert steps + [step] == [step] && [step][1..] == [];
      if Fire(q, step).Some? {
        assert Exec(Fire(q, step).value, []) == Fire(q, step);
      }
    } else {
      assert (steps + [step])[1..] == steps[1..] + [step];
      ExecOneMore(Fire(q, steps[0]).value, steps[1..], step);
    }
  }

  lemma ReachesSelf(q: Queue)
    ensures Reaches(q, q)
  {
    assert Exec(q, []) == Some(q);
  }

  lemma Then(q: Queue, t: Queue, limit: nat, step: Step) returns (t': Queue)
    requires Reaches(q, t) && Inv(t, limit) && Fire(t, step).Some?
    ensures Reaches(q, t') && Inv(t', limit) && Fire(t, step) == Some(t')
  {
    var steps :| Exec(q, steps) == Some(t);
    t' := Fire(t, step).value;
    ExecOneMore(q, steps, step);
    assert Exec(q, steps + [step]) == Some(t');
    StepKeeps(t, t', limit, step);
  }

  // ----- a task that was taken can run -----

  lemma HolderMoves(q: Queue, t: Queue, limit: nat, id: nat, h: nat, step: Step, pc: Pc) returns (t': Queue)
    requires Reaches(q, t) && Inv(t, limit) && At(t, id, Pending) && h != id && h in t.runners
    requires (step == Complete(h) && t.runners[h].pc == Running && pc == Replied(true))
             || (step == Remove(h) && t.runners[h].pc == Replied(true) && pc == Leaving)
    ensures Reaches(q, t') && Inv(t', limit) && At(t', id, Pending) && At(t', h, pc)
  {
    t' := Then(q, t, limit, step);
  }

  lemma HolderLetsGo(q: Queue, t: Queue, limit: nat, id: nat, h: nat) returns (t': Queue)
    requires Reaches(q, t) && Inv(t, limit) && At(t, id, Pending) && h in Holders(t)
    ensures Reaches(q, t') && Inv(t', limit) && At(t', id, Pending) && t'.free > 0
  {
    t' := t;
    if At(t', h, Running) {
      t' := HolderMoves(q, t', limit, id, h, Complete(h), Replied(true));
    }
    if At(t', h, Replied(true)) {
      t' := HolderMoves(q, t', limit, id, h, Remove(h), Leaving);
    }
    t' := LeaverReleases(q, t', limit, id, h);
  }

  lemma LeaverReleases(q: Queue, t: Queue, limit: nat, id: nat, h: nat) returns (t': Queue)
    requires Reaches(q, t) && Inv(t, limit) && At(t, id, Pending) && At(t, h, Leaving)
    ensures Reaches(q, t') && Inv(t', limit) && At(t', id, Pending) && t'.free > 0
  {
    t' := Then(q, t, limit, Release(h));
  }

  lemma GetPermit(q: Queue, t: Queue, limit: nat, id: nat) returns (t': Queue)
    requires Reaches(q, t) && Inv(t, limit) && limit > 0 && At(t, id, Pending)
    ensures Reaches(q, t') && Inv(t', limit) && At(t', id, Pending) && t'.free > 0
  {
    t' := t;
    if t.free == 0 {
      assert |Holders(t)| > 0;
      var h :| h in Holders(t);
      t' := HolderLetsGo(q, t, limit, id, h);
    }
  }

  lemma RunTaken(q: Queue, t: Queue, limit: nat, id: nat) returns (t': Queue)
    requires Reaches(q, t) && Inv(t, limit) && limit > 0
    requires id in t.runners && Unanswered(t.runners[id].pc)
    ensures Reaches(q, t') && Inv(t', limit) && At(t', id, Running)
  {
    t' := t;
    if t.runners[id].pc.Pending? {
      t' := GetPermit(q, t, limit, id);
      t' := Then(q, t', limit, Acquire(id));
    }
  }

  // ----- a task that was submitted can be taken -----

  // Task id is in the channel at k, with no shutdown before it.
  ghost predicate Queued(q: Queue, id: nat, k: nat) {
    && k < |q.channel| && q.channel[k].Submit? && q.channel[k].id == id
    && forall m :: 0 <= m < k ==> q.channel[m].Submit?
  }

  /** No shutdown is ahead of the task, if it still needs the dispatcher. */
  ghost predicate InTime(q: Queue, id: nat) {
    || id in q.runners
    || (q.open && exists k: nat :: Queued(q, id, k))
    || (q.open && id in q.arriving && Shutdown !in q.channel)
  }

  lemma {:induction false} TakeQueued(q: Queue, t: Queue, limit: nat, id: nat, k: nat) returns (t': Queue)
    requires Reaches(q, t) && Inv(t, limit) && t.open && Queued(t, id, k)
    ensures Reaches(q, t') && Inv(t', limit) && At(t', id, Pending)
    decreases k
  {
    t' := Then(q, t, limit, Receive);
    if k > 0 {
      t' := TakeQueued(q, t', limit, id, k - 1);
    }
  }

  lemma MakeRoom(q: Queue, t: Queue, limit: nat, id: nat) returns (t': Queue)
    requires Reaches(q, t) && Inv(t, limit) && t.open && id in t.arriving && Shutdown !in t.channel
    requires 0 < t.capacity && |t.channel| <= t.capacity
    ensures Reaches(q, t') && Inv(t', limit) && t'.open && id in t'.arriving && Shutdown !in t'.channel
    ensures |t'.channel| < t'.capacity
  {
    t' := t;
    if |t.channel| == t.capacity {
      assert t.channel[0] in t.channel;
      t' := Then(q, t, limit, Receive);
    }
  }

  lemma SendArriving(q: Queue, t: Queue, limit: nat, id: nat) returns (t': Queue)
    requires Reaches(q, t) && Inv(t, limit) && t.open && id in t.arriving && Shutdown !in t.channel
    requires 0 < t.capacity && |t.channel| <= t.capacity
    ensures Reaches(q, t') && Inv(t', limit) && t'.open && exists k: nat :: Queued(t', id, k)
  {
    t' := MakeRoom(q, t, limit, id);
    var sent := t'.channel;
    t' := Then(q, t', limit, Send(id));
    assert forall m :: 0 <= m < |sent| ==> t'.channel[m] == sent[m] && sent[m] in sent;
    assert Queued(t', id, |sent|);
  }

  // ----- the channel is bounded -----

  ghost predicate Bounded(q: Queue) {
    0 < q.capacity && |q.channel| <= q.capacity
  }

  lemma StepBounded(q: Queue, step: Step)
    requires Bounded(q) && Fire(q, step).Some?
    ensures Bounded(Fire(q, step).value) && Fire(q, step).value.capacity == q.capacity
  {
  }

  lemma {:induction false} ExecBounded(q: Queue, steps: seq<Step>)
    requires Bounded(q) && Exec(q, steps).Some?
    ensures Bounded(Exec(q, steps).value) && Exec(q, steps).value.capacity == q.capacity
    decreases |steps|
  {
    if steps != [] {
      StepBounded(q, steps[0]);
      ExecBounded(Fire(q, steps[0]).value, steps[1..]);
    }
  }

  /** The channel never holds more than its capacity. */
  lemma Backpressure(q: Queue, maxConcurrent: nat, capacity: nat, steps: seq<Step>)
    requires Exec(Init(maxConcurrent, capacity), steps) == Some(q)
    ensures |q.channel| <= if capacity > 1 then capacity else 1
  {
    ExecBounded(Init(maxConcurrent, capacity), steps);
  }

  lemma ReachableBounded(q: Queue, maxConcurrent: nat)
    requires Reachable(q, maxConcurrent)
    ensures Bounded(q)
  {
    var capacity: nat, steps :| Exec(Init(maxConcurrent, capacity), steps) == Some(q);
    ExecBounded(Init(maxConcurrent, capacity), steps);
  }

  // ----- behind a shutdown -----

  // The dispatcher will never get to the task.
  ghost predicate Missed(q: Queue, id: nat) {
    id < q.nextId && !InTime(q, id)
  }

  lemma StaysMissed(q: Queue, step: Step, id: nat)
    requires Missed(q, id) && Fire(q, step).Some?
    ensures Missed(Fire(q, step).value, id)
  {
    var q' := Fire(q, step).value;
    assert id !in q'.runners by {
      if step == Receive && q.channel[0].Submit? && q.channel[0].id == id {
        assert Queued(q, id, 0);
      }
    }
    if q'.open {
      forall k: nat ensures !Queued(q', id, k) {
        if Queued(q', id, k) {
          QueuedWasInTime(q, step, id, k);
        }
      }
    }
  }

  lemma QueuedWasInTime(q: Queue, step: Step, id: nat, k: nat)
    requires Fire(q, step).Some? && q.open && Fire(q, step).value.open && Queued(Fire(q, step).value, id, k)
    ensures InTime(q, id)
  {
    var q' := Fire(q, step).value;
    if step == Receive {
      assert forall m :: 0 <= m < |q'.channel| ==> q'.channel[m] == q.channel[m + 1];
      assert Queued(q, id, k + 1);
    } else {
      assert forall m :: 0 <= m < |q.channel| ==> q'.channel[m] == q.channel[m];
      if k < |q.channel| {
        assert Queued(q, id, k);
      } else {
        assert forall m :: 0 <= m < |q.channel| ==> q.channel[m].Submit?;
      }
    }
  }

  lemma {:induction false} MissedForEver(q: Queue, steps: seq<Step>, id: nat)
    requires Missed(q, id) && Exec(q, steps).Some?
    ensures id !in Exec(q, steps).value.runners
    decreases |steps|
  {
    if steps != [] {
      StaysMissed(q, steps[0], id);
      MissedForEver(Fire(q, steps[0]).value, steps[1..], id);
    }
  }

  /** From every reachable state an outstanding task can get to run if and only if no shutdown is
      ahead of it, however many tasks wait or hold permits. */
  lemma CanRunIffInTime(q: Queue, maxConcurrent: nat, id: nat, token: nat)
    requires Reachable(q, maxConcurrent) && Outstanding(q, id, token)
    ensures (exists t :: Reaches(q, t) && At(t, id, Running)) <==> InTime(q, id)
  {
    ReachableInv(q, maxConcurrent);
    if InTime(q, id) {
      var t := RunOutstanding(q, maxConcurrent, id, token);
    } else {
      HasOwnToken(q, id, token);
      assert Missed(q, id);
      forall t | Reaches(q, t) ensures !At(t, id, Running) {
        var steps :| Exec(q, steps) == Some(t);
        MissedForEver(q, steps, id);
      }
    }
  }

  lemma RunOutstanding(q: Queue, maxConcurrent: nat, id: nat, token: nat) returns (t: Queue)
    requires Reachable(q, maxConcurrent) && Outstanding(q, id, token) && InTime(q, id)
    ensures Reaches(q, t) && At(t, id, Running) && Inv(t, Max(1, maxConcurrent))
  {
    var limit := Max(1, maxConcurrent);
    ReachableInv(q, maxConcurrent);
    ReachableBounded(q, maxConcurrent);
    ReachesSelf(q);
    t := q;
    if id !in q.runners {
      if !exists k: nat :: Queued(q, id, k) {
        t := SendArriving(q, q, limit, id);
      }
      var k: nat :| Queued(t, id, k);
      t := TakeQueued(q, t, limit, id, k);
    } else {
      TakenIsUnanswered(q, id, token, limit);
    }
    t := RunTaken(q, t, limit, id);
  }

  lemma TakenIsUnanswered(q: Queue, id: nat, token: nat, limit: nat)
    requires Inv(q, limit) && Outstanding(q, id, token) && id in q.runners
    ensures Unanswered(q.runners[id].pc)
  {
    forall k | 0 <= k < |q.channel| ensures q.channel[k] != Submit(id, token) {
      assert q.channel[k].Submit? ==> q.channel[k].id !in q.runners;
    }
  }

  /** And then it is replied to exactly once. */
  lemma OutstandingCanBeAnswered(q: Queue, maxConcurrent: nat, id: nat, token: nat)
    requires Reachable(q, maxConcurrent) && Outstanding(q, id, token) && InTime(q, id)
    ensures exists t :: Reaches(q, t) && t.replied[id] == 1
  {
    var t := RunOutstanding(q, maxConcurrent, id, token);
    t := Then(q, t, Max(1, maxConcurrent), Complete(id));
  }

  // ----- in order -----

  // Task a is taken, or ahead of task b.
  ghost predicate Before(q: Queue, a: nat, b: nat) {
    || a in q.runners
    || (b !in q.runners && b < q.nextId
        && (!q.open || (b !in q.arriving && exists i: nat, k: nat :: Ordered(q, a, b, i, k))))
  }

  ghost predicate Ordered(q: Queue, a: nat, b: nat, i: nat, k: nat) {
    && i < k < |q.channel| && q.channel[i].Submit? && q.channel[k].Submit?
    && q.channel[i].id == a && q.channel[k].id == b
  }

  lemma StaysBefore(q: Queue, limit: nat, step: Step, a: nat, b: nat)
    requires Inv(q, limit) && Before(q, a, b) && Fire(q, step).Some?
    ensures Before(Fire(q, step).value, a, b)
  {
    var q' := Fire(q, step).value;
    if a !in q.runners && q.open && q'.open {
      var i: nat, k: nat :| Ordered(q, a, b, i, k);
      OrderKept(q, q', step, a, b, i, k);
      NotTakenYet(q, q', step, b, k);
    }
  }

  lemma OrderKept(q: Queue, q': Queue, step: Step, a: nat, b: nat, i: nat, k: nat)
    requires Ordered(q, a, b, i, k) && Fire(q, step) == Some(q') && q'.open
    ensures a in q'.runners || Ordered(q', a, b, i, k) || (i > 0 && Ordered(q', a, b, i - 1, k - 1))
  {
  }

  lemma NotTakenYet(q: Queue, q': Queue, step: Step, b: nat, k: nat)
    requires Places(q) && Fire(q, step) == Some(q')
    requires 0 < k < |q.channel| && q.channel[k].Submit? && q.channel[k].id == b
    ensures b !in q'.runners && b !in q'.arriving && b < q'.nextId
  {
  }

  lemma {:induction false} ExecBefore(q: Queue, limit: nat, steps: seq<Step>, a: nat, b: nat)
    requires Inv(q, limit) && Before(q, a, b) && Exec(q, steps).Some?
    ensures Before(Exec(q, steps).value, a, b)
    decreases |steps|
  {
    if steps != [] {
      StaysBefore(q, limit, steps[0], a, b);
      StepKeeps(q, Fire(q, steps[0]).value, limit, steps[0]);
      ExecBefore(Fire(q, steps[0]).value, limit, steps[1..], a, b);
    }
  }

  /** Tasks are taken in the order they were sent. */
  lemma TakenInOrder(q: Queue, maxConcurrent: nat, a: nat, b: nat, i: nat, k: nat, steps: seq<Step>)
    requires Reachable(q, maxConcurrent) && q.open && Ordered(q, a, b, i, k) && Exec(q, steps).Some?
    requires b in Exec(q, steps).value.runners
    ensures a in Exec(q, steps).value.runners
  {
    ReachableInv(q, maxConcurrent);
    ExecBefore(q, Max(1, maxConcurrent), steps, a, b);
  }

  // ----- cancellation and cleaning up -----

  /** cancel_all reaches every outstanding task. */
  lemma CancelAllReachesAll(q: Queue, maxConcurrent: nat)
    requires Reachable(q, maxConcurrent)
    ensures Fire(q, CancelAll).Some?
    ensures forall id, token | Outstanding(q, id, token) :: token in Fire(q, CancelAll).value.cancelled
  {
    ReachableInv(q, maxConcurrent);
    forall id, token | Outstanding(q, id, token) ensures token in Fire(q, CancelAll).value.cancelled {
      HasOwnToken(q, id, token);
    }
  }

  ghost predicate Cleaned(q: Queue) {
    forall id :: id in q.runners && (q.runners[id].pc.Leaving? || q.runners[id].pc.Ended?) ==> id !in q.cancels
  }

  lemma StepCleaned(q: Queue, limit: nat, step: Step)
    requires Inv(q, limit) && Cleaned(q) && Fire(q, step).Some?
    ensures Cleaned(Fire(q, step).value)
  {
    if OfRunner(step) {
      RunnerCleaned(q, Fire(q, step).value, step);
    } else if step == Receive || step == Register {
      SubmitCleaned(q, Fire(q, step).value, step);
    }
  }

  lemma RunnerCleaned(q: Queue, q': Queue, step: Step)
    requires Cleaned(q) && OfRunner(step) && Fire(q, step) == Some(q')
    ensures Cleaned(q')
  {
  }

  lemma SubmitCleaned(q: Queue, q': Queue, step: Step)
    requires Places(q) && Cleaned(q) && (step == Receive || step == Register) && Fire(q, step) == Some(q')
    ensures Cleaned(q')
  {
  }

  lemma {:induction false} ExecCleaned(q: Queue, limit: nat, steps: seq<Step>)
    requires Inv(q, limit) && Cleaned(q) && Exec(q, steps).Some?
    ensures Cleaned(Exec(q, steps).value)
    decreases |steps|
  {
    if steps != [] {
      StepCleaned(q, limit, steps[0]);
      StepKeeps(q, Fire(q, steps[0]).value, limit, steps[0]);
      ExecCleaned(Fire(q, steps[0]).value, limit, steps[1..]);
    }
  }

  /** A task whose runner has ended is not found any more. */
  lemma EndedTaskIsForgotten(q: Queue, maxConcurrent: nat, id: nat)
    requires Reachable(q, maxConcurrent) && At(q, id, Ended)
    ensures Fire(q, Cancel(id)).None?
  {
    var capacity: nat, steps :| Exec(Init(maxConcurrent, capacity), steps) == Some(q);
    InitInv(maxConcurrent, capacity);
    ExecCleaned(Init(maxConcurrent, capacity), Max(1, maxConcurrent), steps);
  }
}
