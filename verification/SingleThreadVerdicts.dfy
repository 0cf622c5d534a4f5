/** How a single-thread run turns out, and why: which attempts are made, what ends them, and
    that a run nobody cancels succeeds as soon as one answer is complete. */
module SingleThreadVerdicts {
  import opened Wrappers
  import opened Http
  import opened Segment
  import opened SingleThread
  import opened SingleThreadTheorems

  // ----- one body -----

  // A non-empty piece arrives before item k, when the announced bytes are all there.
  ghost predicate Overruns(stream: seq<Item>, k: nat, room: Option<nat>)
    requires k <= |stream| && forall j :: 0 <= j < k ==> stream[j].Data?
  {
    room.Some? && exists i :: 0 <= i < k && stream[i].bytes != [] && |BytesBefore(stream, 0, i)| >= room.value
  }

  lemma OneMoreBefore(stream: seq<Item>, i: nat)
    requires i < |stream| && forall j :: 0 <= j <= i ==> stream[j].Data?
    ensures BytesBefore(stream, 0, i + 1) == BytesBefore(stream, 0, i) + stream[i].bytes
  {
    var some := seq(i, j requires 0 <= j < i => stream[0 + j].bytes);
    var more := seq(i + 1, j requires 0 <= j < i + 1 => stream[0 + j].bytes);
    assert more == some + [stream[i].bytes];
    FlattenMore(some, stream[i].bytes);
  }

  lemma {:induction false} FlattenMore(chunks: seq<seq<Byte>>, last: seq<Byte>)
    ensures Flatten(chunks + [last]) == Flatten(chunks) + last
  {
    if chunks != [] {
      assert (chunks + [last])[1..] == chunks[1..] + [last];
      FlattenMore(chunks[1..], last);
    }
  }

  lemma {:induction false} ReadingFrom(stream: seq<Item>, cancelAt: nat, k: nat, room: Option<nat>, i: nat)
    requires StopsAt(stream, cancelAt, k) && i <= k && !Overruns(stream, i, room)
    ensures ReadingEnds(stream, i, cancelAt, Used(room, |BytesBefore(stream, 0, i)|))
            == if Overruns(stream, k, room) then Ok(()) else EndingFrom(stream, i, cancelAt)
    decreases k - i
  {
    if i < k {
      OneMoreBefore(stream, i);
      if !Overruns(stream, i + 1, room) {
        ReadingFrom(stream, cancelAt, k, room, i + 1);
      }
    }
  }

  /** Reading ends well when more arrives than was announced, and else as the stream does. */
  lemma ReadingStops(stream: seq<Item>, cancelAt: nat, k: nat, room: Option<nat>)
    requires StopsAt(stream, cancelAt, k)
    ensures ReadingEnds(stream, 0, cancelAt, room)
            == if Overruns(stream, k, room) || k == |stream| then Ok(())
               else if k == cancelAt then Err(ErrCancelled) else Err(ErrTransient)
  {
    assert BytesBefore(stream, 0, 0) == [];
    ReadingFrom(stream, cancelAt, k, room, 0);
    StreamStops(stream, cancelAt, k);
  }

  // ----- one attempt -----

  // The cancellation is seen in the body attempt t gets.
  ghost predicate CancelledInBody(data: seq<Byte>, plan: Plan, t: nat, origin: Origin, watch: Watch) {
    && Streams(data, plan, t, origin, watch)
    && var stream := origin(t, Resumes(data, plan), |data|).stream;
       watch.item < |stream| && StopsAt(stream, watch.item, watch.item)
  }

  // Attempt t fails for a reason of the network or the server.
  ghost predicate Unlucky(data: seq<Byte>, plan: Plan, t: nat, origin: Origin, watch: Watch) {
    var a := origin(t, Resumes(data, plan), |data|);
    || a.NoAnswer? || a.status.NotSuccess?
    || (exists k: nat :: StopsAt(a.stream, watch.item, k) && k < |a.stream| && k < watch.item)
    || (AnnouncedTotal(data, plan, a).Some?
        && |Attempt(data, plan, t, origin, watch).0| != AnnouncedTotal(data, plan, a).value)
  }

  /** An attempt reports a cancellation only if one was seen, and an error to be retried only
      for a missing answer, a status that is no success, a broken body or a wrong length. */
  lemma AttemptFailsFor(data: seq<Byte>, plan: Plan, t: nat, origin: Origin, watch: Watch)
    ensures var r := Attempt(data, plan, t, origin, watch).1;
            && (r == Err(ErrCancelled) ==> watch.send || CancelledInBody(data, plan, t, origin, watch))
            && (r == Err(ErrTransient) ==> !watch.send && Unlucky(data, plan, t, origin, watch))
            && (r.Err? ==> r.error == ErrCancelled || r.error == ErrTransient)
  {
    if Streams(data, plan, t, origin, watch) {
      var a := origin(t, Resumes(data, plan), |data|);
      var room := Room(AnnouncedTotal(data, plan, a), |Base(data, plan, a.status)|);
      var k := StopExists(a.stream, watch.item, 0);
      ReadingStops(a.stream, watch.item, k, room);
    }
  }

  /** A request without an answer, or answered without success, is an error to be retried,
      and leaves the file alone. */
  lemma FailedRequestIsTransient(data: seq<Byte>, plan: Plan, t: nat, origin: Origin, watch: Watch)
    requires plan.expected.Some? ==> |data| < plan.expected.value || |data| == 0
    requires var a := origin(t, |data| > 0 && plan.ranges, |data|); a.NoAnswer? || a.status.NotSuccess?
    requires !watch.send
    ensures Attempt(data, plan, t, origin, watch) == (data, Err(ErrTransient))
  {
  }

  // ----- the run -----

  // The file before attempt u, if the run gets that far from attempt t.
  ghost function FileBefore(data: seq<Byte>, plan: Plan, t: nat, u: nat, origin: Origin, watch: nat -> Watch)
      : Option<seq<Byte>>
    requires t <= u
    decreases u - t
  {
    if u == t then Some(data)
    else if watch(t).head then None
    else
      var (data', r) := Attempt(data, plan, t, origin, watch(t));
      if r == Err(ErrTransient) && t + 1 < plan.maxRetries && !watch(t).backoff
      then FileBefore(data', plan, t + 1, u, origin, watch) else None
  }

  // How the run ends if u is the last attempt it gets to, with file d.
  ghost predicate EndsAt(d: seq<Byte>, plan: Plan, u: nat, origin: Origin, watch: nat -> Watch,
                         end: seq<Byte>, verdict: Verdict) {
    var (d', r) := Attempt(d, plan, u, origin, watch(u));
    if watch(u).head then end == d && verdict == WasCancelled
    else
      && end == d'
      && if r.Ok? then verdict == Finished
         else if r == Err(ErrCancelled) then verdict == WasCancelled
         else if u + 1 >= plan.maxRetries then verdict == Exhausted(u + 1)
         else watch(u).backoff && verdict == WasCancelled
  }

  lemma {:induction false} LastAttempt(data: seq<Byte>, plan: Plan, t: nat, origin: Origin, watch: nat -> Watch)
      returns (u: nat, d: seq<Byte>)
    ensures t <= u && (u == t || u < plan.maxRetries) && FileBefore(data, plan, t, u, origin, watch) == Some(d)
    ensures EndsAt(d, plan, u, origin, watch, Run(data, plan, t, origin, watch).0, Run(data, plan, t, origin, watch).1)
    decreases plan.maxRetries - t
  {
    u, d := t, data;
    if !watch(t).head {
      var (data', r) := Attempt(data, plan, t, origin, watch(t));
      AttemptFailsFor(data, plan, t, origin, watch(t));
      if r == Err(ErrTransient) && t + 1 < plan.maxRetries && !watch(t).backoff {
        u, d := LastAttempt(data', plan, t + 1, origin, watch);
      }
    }
  }

  // Attempt m, which the run gets to, is retried by the next one.
  ghost predicate Retried(data: seq<Byte>, plan: Plan, m: nat, origin: Origin, watch: nat -> Watch) {
    var file := FileBefore(data, plan, 0, m, origin, watch);
    && file.Some? && !watch(m).head && !watch(m).backoff
    && Attempt(file.value, plan, m, origin, watch(m)).1 == Err(ErrTransient)
  }

  lemma {:induction false} FileBeforeNext(data: seq<Byte>, plan: Plan, t: nat, u: nat, origin: Origin, watch: nat -> Watch)
    requires t <= u && FileBefore(data, plan, t, u + 1, origin, watch).Some?
    ensures FileBefore(data, plan, t, u, origin, watch).Some?
    ensures var d := FileBefore(data, plan, t, u, origin, watch).value;
            && !watch(u).head && !watch(u).backoff && u + 1 < plan.maxRetries
            && Attempt(d, plan, u, origin, watch(u)).1 == Err(ErrTransient)
            && FileBefore(data, plan, t, u + 1, origin, watch) == Some(Attempt(d, plan, u, origin, watch(u)).0)
    decreases u - t
  {
    if t < u {
      FileBeforeNext(Attempt(data, plan, t, origin, watch(t)).0, plan, t + 1, u, origin, watch);
    }
  }

  lemma {:induction false} AllRetried(data: seq<Byte>, plan: Plan, u: nat, origin: Origin, watch: nat -> Watch)
    requires FileBefore(data, plan, 0, u, origin, watch).Some?
    ensures forall m: nat | m < u :: Retried(data, plan, m, origin, watch)
  {
    if u > 0 {
      FileBeforeNext(data, plan, 0, u - 1, origin, watch);
      AllRetried(data, plan, u - 1, origin, watch);
    }
  }

  // The cancellation is seen around attempt u, or in the body it gets.
  ghost predicate CancelSeen(d: seq<Byte>, plan: Plan, u: nat, origin: Origin, watch: nat -> Watch) {
    watch(u).head || watch(u).send || watch(u).backoff || CancelledInBody(d, plan, u, origin, watch(u))
  }

  /** A run is Cancelled only if the cancellation is seen at an attempt it gets to; it gives up
      only after exactly max(1, max_retries) attempts, each of which failed for a reason of the
      network or the server. */
  lemma VerdictHasACause(data: seq<Byte>, plan: Plan, origin: Origin, watch: nat -> Watch) returns (u: nat, d: seq<Byte>)
    ensures FileBefore(data, plan, 0, u, origin, watch) == Some(d)
    ensures forall m: nat | m < u :: Retried(data, plan, m, origin, watch)
    ensures match Run(data, plan, 0, origin, watch).1
            case WasCancelled => CancelSeen(d, plan, u, origin, watch)
            case Exhausted(n) => n == u + 1 == Max(1, plan.maxRetries) && !watch(u).head && Unlucky(d, plan, u, origin, watch(u))
            case Finished =>
              && !watch(u).head && Attempt(d, plan, u, origin, watch(u)).1.Ok?
              && Attempt(d, plan, u, origin, watch(u)).0 == Run(data, plan, 0, origin, watch).0
  {
    u, d := LastAttempt(data, plan, 0, origin, watch);
    AllRetried(data, plan, u, origin, watch);
    AttemptFailsFor(d, plan, u, origin, watch(u));
  }

  // ----- success -----

  // The answer to attempt u is the whole resource, or all of it from where it is asked for.
  ghost predicate CompleteAnswer(origin: Origin, r: Resource, u: nat) {
    forall ranged: bool, n: nat | n <= |r.bytes| ::
      var a := origin(u, ranged, n);
      && a.Answer? && !a.status.NotSuccess? && StopsAt(a.stream, |a.stream|, |a.stream|)
      && BytesBefore(a.stream, 0, |a.stream|) == if ranged && a.status.Part? then r.bytes[n..] else r.bytes
  }

  // The cancellation is never seen.
  ghost predicate Quiet(origin: Origin, watch: nat -> Watch) {
    && (forall t: nat :: !watch(t).head && !watch(t).send && !watch(t).backoff)
    && (forall t: nat, ranged: bool, n: nat ::
          origin(t, ranged, n).Answer? ==> |origin(t, ranged, n).stream| <= watch(t).item)
  }

  // A body that is not cut, and for which there is room, is kept whole and ends well.
  lemma CompleteBody(stream: seq<Item>, cancelAt: nat, room: Option<nat>)
    requires StopsAt(stream, |stream|, |stream|) && |stream| <= cancelAt
    requires room.Some? ==> |BytesBefore(stream, 0, |stream|)| <= room.value
    ensures Take(Delivered(stream, cancelAt), room) == BytesBefore(stream, 0, |stream|)
    ensures ReadingEnds(stream, 0, cancelAt, room) == Ok(())
  {
    assert StopsAt(stream, cancelAt, |stream|);
    StreamStops(stream, cancelAt, |stream|);
    ReadingStops(stream, cancelAt, |stream|, room);
  }

  /** Whatever prefix is there, known length or not: a complete answer completes the file. */
  lemma CompleteAttempt(r: Resource, data: seq<Byte>, plan: Plan, u: nat, origin: Origin, watch: Watch)
    requires data <= r.bytes && (plan.expected.Some? ==> plan.expected.value == |r.bytes|)
    requires HonestServer(origin, Constant(r), false) && CompleteAnswer(origin, r, u) && !watch.send
    requires forall ranged: bool, n: nat :: origin(u, ranged, n).Answer? ==> |origin(u, ranged, n).stream| <= watch.item
    ensures Attempt(data, plan, u, origin, watch) == (r.bytes, Ok(()))
  {
    if !LooksComplete(data, plan) {
      var a := origin(u, Resumes(data, plan), |data|);
      var base := Base(data, plan, a.status);
      CompleteBody(a.stream, watch.item, Room(AnnouncedTotal(data, plan, a), |base|));
      assert base + BytesBefore(a.stream, 0, |a.stream|) == r.bytes;
    } else {
      assert data == r.bytes;
    }
  }

  /** The length announced with a 206 nobody asked for does not count: the probed one does. */
  lemma UnaskedPartIsMeasuredByProbe(r: Resource, plan: Plan, origin: Origin, watch: Watch)
    requires plan.expected == Some(|r.bytes|) && !watch.send
    requires var a := origin(0, false, 0);
             && a.Answer? && a.status.Part? && |a.stream| <= watch.item
             && StopsAt(a.stream, |a.stream|, |a.stream|) && BytesBefore(a.stream, 0, |a.stream|) == r.bytes
    ensures Attempt([], plan, 0, origin, watch) == (r.bytes, Ok(()))
  {
    CompleteBody(origin(0, false, 0).stream, watch.item, Some(|r.bytes|));
    assert [] + r.bytes == r.bytes;
  }

  lemma {:induction false} FileBeforeIsPrefix(r: Resource, data: seq<Byte>, plan: Plan, u: nat, origin: Origin,
                                              watch: nat -> Watch)
    requires data <= r.bytes && HonestServer(origin, Constant(r), false)
    requires FileBefore(data, plan, 0, u, origin, watch).Some?
    ensures FileBefore(data, plan, 0, u, origin, watch).value <= r.bytes
  {
    if u > 0 {
      FileBeforeNext(data, plan, 0, u - 1, origin, watch);
      FileBeforeIsPrefix(r, data, plan, u - 1, origin, watch);
      OneVersionIdentifies(r);
      var d := FileBefore(data, plan, 0, u - 1, origin, watch).value;
      var v := AttemptKeepsOneVersion(d, 0, plan, u - 1, origin, watch(u - 1), Constant(r));
    }
  }

  /** If nobody cancels and the answer to some attempt within the limit is complete, the run
      finishes with exactly the resource, whatever fails before. */
  lemma RunSucceeds(r: Resource, data: seq<Byte>, plan: Plan, u: nat, origin: Origin, watch: nat -> Watch)
    requires data <= r.bytes && HonestServer(origin, Constant(r), false) && Quiet(origin, watch)
    requires u < Max(1, plan.maxRetries) && CompleteAnswer(origin, r, u)
    ensures Run(data, Probing(plan, r), 0, origin, watch) == (r.bytes, Finished)
  {
    var p := Probing(plan, r);
    var last, d := VerdictHasACause(data, p, origin, watch);
    OneVersionIdentifies(r);
    if Run(data, p, 0, origin, watch).1 == Finished {
      UnchangedFinishedRunIsExact(data, p, 0, origin, watch, Constant(r));
    } else if Run(data, p, 0, origin, watch).1.Exhausted? {
      if u < last {
        assert Retried(data, p, u, origin, watch);
      }
      FileBeforeIsPrefix(r, data, p, u, origin, watch);
      CompleteAttempt(r, FileBefore(data, p, 0, u, origin, watch).value, p, u, origin, watch(u));
      assert false;
    }
  }

  /** With no known length a complete first answer does it. */
  lemma FirstAnswerSuffices(r: Resource, plan: Plan, origin: Origin, watch: nat -> Watch)
    requires HonestServer(origin, Constant(r), false) && Quiet(origin, watch)
    requires plan.expected.None? && CompleteAnswer(origin, r, 0)
    ensures Run([], plan, 0, origin, watch) == (r.bytes, Finished)
  {
    CompleteAttempt(r, [], plan, 0, origin, watch(0));
  }
}
