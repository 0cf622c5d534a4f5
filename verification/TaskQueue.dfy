/** The task queue as a step system: submitters, a dispatcher, one runner per task, a
    semaphore, and the map of cancellation tokens. Ids are assigned by the queue. */
module TaskQueue {
  import opened Wrappers

  datatype Msg = Submit(id: nat, token: nat) | Shutdown

  datatype Pc =
    | Pending                 // waiting for a permit or for cancellation
    | Running                 // holds a permit
    | Replied(holding: bool)  // reply sent, entry still in the map
    | Leaving                 // entry removed, permit not yet dropped
    | Ended

  datatype Runner = Runner(token: nat, pc: Pc)

  datatype Queue = Queue(
    capacity: nat,
    free: nat,                     // permits left in the semaphore
    nextId: nat,
    nextToken: nat,
    cancels: map<nat, nat>,        // task id to cancellation token
    cancelled: set<nat>,           // tokens that were cancelled
    arriving: map<nat, nat>,       // registered in the map, message not yet sent
    channel: seq<Msg>,
    open: bool,                    // the dispatcher still receives
    runners: map<nat, Runner>,     // tasks the dispatcher has taken
    replied: multiset<nat>)        // one occurrence of an id for every reply sent

  datatype Step =
    | Register | Send(id: nat) | SendFails(id: nat) | SendShutdown | Receive
    | Cancel(id: nat) | CancelAll | CancelToken(token: nat)
    | Acquire(id: nat) | Bail(id: nat) | Complete(id: nat) | Remove(id: nat) | Release(id: nat)

  function Init(maxConcurrent: nat, capacity: nat): Queue {
    Queue(Max(1, capacity), Max(1, maxConcurrent), 1, 0, map[], {}, map[], [], true, map[], multiset{})
  }

  predicate At(q: Queue, id: nat, pc: Pc) {
    id in q.runners && q.runners[id].pc == pc
  }

  function Move(q: Queue, id: nat, pc: Pc): Queue
    requires id in q.runners
  {
    q.(runners := q.runners[id := q.runners[id].(pc := pc)])
  }

  function Fire(q: Queue, step: Step): Option<Queue> {
    match step
    // submit: a fresh id and token, entered in the map before the message is sent
    case Register =>
      Some(q.(nextId := q.nextId + 1, nextToken := q.nextToken + 1,
              cancels := q.cancels[q.nextId := q.nextToken], arriving := q.arriving[q.nextId := q.nextToken]))
    case Send(id) =>
      if id in q.arriving && q.open && |q.channel| < q.capacity
      then Some(q.(channel := q.channel + [Submit(id, q.arriving[id])], arriving := q.arriving - {id})) else None
    case SendFails(id) =>
      if id in q.arriving && !q.open then Some(q.(arriving := q.arriving - {id})) else None
    case SendShutdown =>
      if q.open && |q.channel| < q.capacity then Some(q.(channel := q.channel + [Shutdown])) else None
    // the dispatcher
    case Receive =>
      if !q.open || q.channel == [] then None
      else if q.channel[0].Shutdown? then Some(q.(open := false, channel := []))
      else
        var m := q.channel[0];
        Some(q.(channel := q.channel[1..], runners := q.runners[m.id := Runner(m.token, Pending)]))
    // cancellation
    case Cancel(id) =>
      if id in q.cancels then Some(q.(cancelled := q.cancelled + {q.cancels[id]})) else None
    case CancelAll => Some(q.(cancelled := q.cancelled + q.cancels.Values))
    case CancelToken(token) => Some(q.(cancelled := q.cancelled + {token}))
    // a runner
    case Acquire(id) =>
      if At(q, id, Pending) && q.free > 0 then Some(Move(q, id, Running).(free := q.free - 1)) else None
    case Bail(id) =>
      if At(q, id, Pending) && q.runners[id].token in q.cancelled
      then Some(Move(q, id, Replied(false)).(replied := q.replied + multiset{id})) else None
    case Complete(id) =>
      if At(q, id, Running)
      then Some(Move(q, id, Replied(true)).(replied := q.replied + multiset{id})) else None
    case Remove(id) =>
      if id in q.runners && q.runners[id].pc.Replied?
      then Some(Move(q, id, if q.runners[id].pc.holding then Leaving else Ended).(cancels := q.cancels - {id}))
      else None
    case Release(id) =>
      if At(q, id, Leaving) then Some(Move(q, id, Ended).(free := q.free + 1)) else None
  }

  function Exec(q: Queue, steps: seq<Step>): Option<Queue>
    decreases |steps|
  {
    if steps == [] then Some(q)
    else match Fire(q, steps[0])
      case None => None
      case Some(q') => Exec(q', steps[1..])
  }

  // ----- the invariant -----

  predicate Holds(pc: Pc) {
    pc.Running? || pc.Leaving? || pc == Replied(true)
  }

  function Holders(q: Queue): set<nat> {
    set id | id in q.runners && Holds(q.runners[id].pc)
  }

  predicate Unanswered(pc: Pc) {
    pc.Pending? || pc.Running?
  }

  ghost predicate Permits(q: Queue, limit: nat) {
    q.free + |Holders(q)| == limit
  }

  /** One reply per task, sent when its runner leaves the unanswered states. */
  ghost predicate Replies(q: Queue) {
    && (forall id :: id in q.runners ==> q.replied[id] == if Unanswered(q.runners[id].pc) then 0 else 1)
    && (forall id :: id in q.replied ==> id in q.runners)
  }

  /** Ids are used once: a task is arriving, or in the channel, or taken. */
  ghost predicate Places(q: Queue) {
    && (forall id :: id in q.arriving ==> id < q.nextId && id !in q.runners)
    && (forall id :: id in q.runners ==> id < q.nextId)
    && (forall k :: 0 <= k < |q.channel| && q.channel[k].Submit? ==>
          var id := q.channel[k].id; id < q.nextId && id !in q.runners && id !in q.arriving)
    && (forall k, m :: 0 <= k < m < |q.channel| && q.channel[k].Submit? && q.channel[m].Submit?
          ==> q.channel[k].id != q.channel[m].id)
  }

  /** Every task without a reply is in the map under its own token. */
  ghost predicate Cancellable(q: Queue) {
    && (forall id :: id in q.arriving ==> id in q.cancels && q.cancels[id] == q.arriving[id])
    && (forall k :: 0 <= k < |q.channel| && q.channel[k].Submit? ==>
          q.channel[k].id in q.cancels && q.cancels[q.channel[k].id] == q.channel[k].token)
    && (forall id :: id in q.runners && (Unanswered(q.runners[id].pc) || q.runners[id].pc.Replied?) ==>
          id in q.cancels && q.cancels[id] == q.runners[id].token)
  }

  /** No two tasks share a token. */
  ghost predicate OwnTokens(q: Queue) {
    && (forall id :: id in q.cancels ==> id < q.nextId && q.cancels[id] < q.nextToken)
    && (forall i, k :: i in q.cancels && k in q.cancels && q.cancels[i] == q.cancels[k] ==> i == k)
  }

  ghost predicate Inv(q: Queue, limit: nat) {
    Permits(q, limit) && Replies(q) && Places(q) && Cancellable(q) && OwnTokens(q)
  }

  // ----- preservation, conjunct by conjunct -----

  predicate OfRunner(step: Step) {
    step.Acquire? || step.Bail? || step.Complete? || step.Remove? || step.Release?
  }

  lemma TakePermit(q: Queue, q': Queue, id: nat)
    requires Fire(q, Acquire(id)) == Some(q')
    ensures q.free == q'.free + 1 && Holders(q') == Holders(q) + {id} && id !in Holders(q)
  {
  }

  lemma DropPermit(q: Queue, q': Queue, id: nat)
    requires Fire(q, Release(id)) == Some(q')
    ensures q'.free == q.free + 1 && Holders(q') == Holders(q) - {id} && id in Holders(q)
  {
  }

  lemma RunnerPermits(q: Queue, q': Queue, limit: nat, step: Step)
    requires Permits(q, limit) && OfRunner(step) && Fire(q, step) == Some(q')
    ensures Permits(q', limit)
  {
    if step.Acquire? {
      TakePermit(q, q', step.id);
    } else if step.Release? {
      DropPermit(q, q', step.id);
    } else {
      SameHolders(q, q', step);
    }
  }

  lemma SameHolders(q: Queue, q': Queue, step: Step)
    requires (step.Bail? || step.Complete? || step.Remove?) && Fire(q, step) == Some(q')
    ensures Holders(q') == Holders(q) && q'.free == q.free
  {
  }

  lemma PermitsKept(q: Queue, q': Queue, limit: nat, step: Step)
    requires Permits(q, limit) && Places(q) && Fire(q, step) == Some(q')
    ensures Permits(q', limit)
  {
    if OfRunner(step) {
      RunnerPermits(q, q', limit, step);
    } else {
      assert Holders(q') == Holders(q);
    }
  }

  lemma ReplySent(q: Queue, id: nat, holding: bool)
    requires Replies(q) && id in q.runners && Unanswered(q.runners[id].pc)
    ensures Replies(Move(q, id, Replied(holding)).(replied := q.replied + multiset{id}))
  {
  }

  lemma NoReplySent(q: Queue, id: nat, pc: Pc)
    requires Replies(q) && id in q.runners && Unanswered(q.runners[id].pc) == Unanswered(pc)
    ensures Replies(Move(q, id, pc))
  {
  }

  lemma RunnerReplies(q: Queue, q': Queue, step: Step)
    requires Replies(q) && OfRunner(step) && Fire(q, step) == Some(q')
    ensures Replies(q')
  {
    if step.Bail? {
      ReplySent(q, step.id, false);
    } else if step.Complete? {
      ReplySent(q, step.id, true);
    } else {
      NoReplySent(q, step.id, q'.runners[step.id].pc);
    }
  }

  lemma RepliesKept(q: Queue, q': Queue, step: Step)
    requires Replies(q) && Places(q) && Fire(q, step) == Some(q')
    ensures Replies(q')
  {
    if OfRunner(step) {
      RunnerReplies(q, q', step);
    }
  }

  lemma PlacesKept(q: Queue, q': Queue, step: Step)
    requires Places(q) && Fire(q, step) == Some(q')
    ensures Places(q')
  {
  }

  lemma RunnerCancellable(q: Queue, q': Queue, step: Step)
    requires Cancellable(q) && Places(q) && OfRunner(step) && Fire(q, step) == Some(q')
    ensures Cancellable(q')
  {
  }

  lemma SubmitCancellable(q: Queue, q': Queue, step: Step)
    requires Cancellable(q) && Places(q) && (step.Register? || step.Send? || step.Receive?)
    requires Fire(q, step) == Some(q')
    ensures Cancellable(q')
  {
  }

  lemma CancellableKept(q: Queue, q': Queue, step: Step)
    requires Cancellable(q) && Places(q) && Fire(q, step) == Some(q')
    ensures Cancellable(q')
  {
    if OfRunner(step) {
      RunnerCancellable(q, q', step);
    } else if step.Register? || step.Send? || step.Receive? {
      SubmitCancellable(q, q', step);
    }
  }

  lemma OwnTokensKept(q: Queue, q': Queue, step: Step)
    requires OwnTokens(q) && Fire(q, step) == Some(q')
    ensures OwnTokens(q')
  {
  }

  lemma InitInv(maxConcurrent: nat, capacity: nat)
    ensures Inv(Init(maxConcurrent, capacity), Max(1, maxConcurrent))
  {
    assert Holders(Init(maxConcurrent, capacity)) == {};
  }

  lemma StepKeeps(q: Queue, q': Queue, limit: nat, step: Step)
    requires Inv(q, limit) && Fire(q, step) == Some(q')
    ensures Inv(q', limit)
  {
    PermitsKept(q, q', limit, step);
    RepliesKept(q, q', step);
    PlacesKept(q, q', step);
    CancellableKept(q, q', step);
    OwnTokensKept(q, q', step);
  }

  lemma {:induction false} ExecKeeps(q: Queue, limit: nat, steps: seq<Step>)
    requires Inv(q, limit) && Exec(q, steps).Some?
    ensures Inv(Exec(q, steps).value, limit)
    decreases |steps|
  {
    if steps != [] {
      StepKeeps(q, Fire(q, steps[0]).value, limit, steps[0]);
      ExecKeeps(Fire(q, steps[0]).value, limit, steps[1..]);
    }
  }

  // ----- guarantees -----

  ghost predicate Reachable(q: Queue, maxConcurrent: nat) {
    exists capacity: nat, steps :: Exec(Init(maxConcurrent, capacity), steps) == Some(q)
  }

  lemma ReachableInv(q: Queue, maxConcurrent: nat)
    requires Reachable(q, maxConcurrent)
    ensures Inv(q, Max(1, maxConcurrent))
  {
    var capacity: nat, steps :| Exec(Init(maxConcurrent, capacity), steps) == Some(q);
    InitInv(maxConcurrent, capacity);
    ExecKeeps(Init(maxConcurrent, capacity), Max(1, maxConcurrent), steps);
  }

  function RunningTasks(q: Queue): set<nat> {
    set id | id in q.runners && q.runners[id].pc.Running?
  }

  /** Permits are conserved: with those in the semaphore, the tasks that hold one make up
      the limit, and no more tasks than that run at once. */
  lemma ConcurrencyIsBounded(q: Queue, maxConcurrent: nat)
    requires Reachable(q, maxConcurrent)
    ensures q.free + |Holders(q)| == Max(1, maxConcurrent)
    ensures |RunningTasks(q)| <= Max(1, maxConcurrent)
  {
    ReachableInv(q, maxConcurrent);
    SubsetIsSmaller(RunningTasks(q), Holders(q));
  }

  lemma {:induction false} SubsetIsSmaller(a: set<nat>, b: set<nat>)
    requires a <= b
    ensures |a| <= |b|
  {
    if a != {} {
      var x :| x in a;
      SubsetIsSmaller(a - {x}, b - {x});
    }
  }

  /** Every task the dispatcher takes is replied to at most once, and exactly once by the
      time its runner is past the reply; nobody else is replied to. */
  lemma OneReplyPerTask(q: Queue, maxConcurrent: nat, id: nat)
    requires Reachable(q, maxConcurrent)
    ensures q.replied[id] <= 1
    ensures q.replied[id] == 1 <==> id in q.runners && !Unanswered(q.runners[id].pc)
  {
    ReachableInv(q, maxConcurrent);
  }

  // A submitted task with this token that nobody has answered: about to be sent, in the
  // channel, or taken.
  ghost predicate Outstanding(q: Queue, id: nat, token: nat) {
    || (id in q.arriving && q.arriving[id] == token)
    || (q.open && Submit(id, token) in q.channel)
    || (id in q.runners && Unanswered(q.runners[id].pc) && q.runners[id].token == token)
  }

  /** A task without a reply, wherever it is, can be cancelled by its id, which is accepted and
      does what its own handle does: it sets the task's own token, and no other task's. */
  lemma UnansweredTaskIsCancellable(q: Queue, maxConcurrent: nat, id: nat, token: nat)
    requires Reachable(q, maxConcurrent) && Outstanding(q, id, token)
    ensures Fire(q, Cancel(id)).Some? && Fire(q, CancelToken(token)) == Fire(q, Cancel(id))
    ensures var q' := Fire(q, Cancel(id)).value;
            && token in q'.cancelled
            && forall other, t | other != id && Outstanding(q, other, t) :: t in q'.cancelled <==> t in q.cancelled
  {
    ReachableInv(q, maxConcurrent);
    HasOwnToken(q, id, token);
    forall other, t | other != id && Outstanding(q, other, t)
      ensures t in Fire(q, Cancel(id)).value.cancelled <==> t in q.cancelled
    {
      HasOwnToken(q, other, t);
    }
  }

  lemma HasOwnToken(q: Queue, id: nat, token: nat)
    requires Cancellable(q) && Outstanding(q, id, token)
    ensures id in q.cancels && q.cancels[id] == token
  {
    if Submit(id, token) in q.channel {
      var k :| 0 <= k < |q.channel| && q.channel[k] == Submit(id, token);
      assert q.channel[k].Submit?;
    }
  }

  /** A cancelled task that still waits for a permit is answered without one. */
  lemma CancelledPendingTaskBails(q: Queue, maxConcurrent: nat, id: nat)
    requires Reachable(q, maxConcurrent) && At(q, id, Pending)
    ensures var q' := Fire(q, Cancel(id));
            && q'.Some?
            && var q2 := Fire(q'.value, Bail(id));
               q2.Some? && q2.value.replied[id] == 1 && q2.value.free == q.free
  {
    ReachableInv(q, maxConcurrent);
  }
}
