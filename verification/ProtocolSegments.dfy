/** The retry loop and the segment writer take the steps of the protocol: what one round
    does to the file, the position and the counter is a sequence of that worker's steps. */
module ProtocolSegments {
  import opened Wrappers
  import opened State
  import opened Http
  import opened Protocol
  import ProtocolRuns
  import Segment
  import RetryLoop

  ghost predicate OnlyBy(steps: seq<Step>, i: nat) {
    forall k :: 0 <= k < |steps| ==> steps[k].Worker? && steps[k].i == i
  }

  // Worker i alone can take the system from s to t.
  ghost predicate ByWorker(c: Config, s: Sys, t: Sys, i: nat) {
    exists steps :: OnlyBy(steps, i) && Exec(c, s, steps) == Some(t)
  }

  lemma NoStep(c: Config, s: Sys, i: nat)
    ensures ByWorker(c, s, s, i)
  {
    assert OnlyBy([], i) && Exec(c, s, []) == Some(s);
  }

  lemma Then(c: Config, s: Sys, t: Sys, i: nat, act: WorkerAct) returns (t': Sys)
    requires ByWorker(c, s, t, i) && WorkerStep(c, t, i, act).Some?
    ensures ByWorker(c, s, t', i) && WorkerStep(c, t, i, act) == Some(t')
  {
    var steps :| OnlyBy(steps, i) && Exec(c, s, steps) == Some(t);
    t' := WorkerStep(c, t, i, act).value;
    assert Fire(c, t, Worker(i, act)) == Some(t');
    ProtocolRuns.ExecAppend(c, s, steps, [Worker(i, act)]);
    ProtocolRuns.ExecSingle(c, t, Worker(i, act));
    assert OnlyBy(steps + [Worker(i, act)], i);
  }

  // ----- the stream -----

  // Worker i is at work in a file that holds its range.
  ghost predicate Working(c: Config, t: Sys, i: nat) {
    && t.probed < |c.versions| && t.now < |c.versions|
    && t.run.Active? && t.run.job.stage == Stage.Working
    && i < |t.run.job.pcs| && i < |t.run.job.ranges|
    && t.run.job.ranges[i].current <= t.run.job.ranges[i].end <= |t.cache|
  }

  ghost predicate Streams(c: Config, t: Sys, i: nat, v: nat) {
    && Working(c, t, i) && v < |c.versions|
    && t.run.job.pcs[i] == Streaming(v) && t.run.job.ranges[i].current < t.run.job.ranges[i].end
  }

  // The state after worker i has put n more bytes of version v in the file.
  ghost function Wrote(c: Config, t: Sys, i: nat, v: nat, n: nat): Sys
    requires Working(c, t, i) && v < |c.versions|
    requires var w := t.run.job.ranges[i];
             w.current + n <= w.end && w.current + n <= |c.versions[v].bytes|
  {
    var j, w := t.run.job, t.run.job.ranges[i];
    t.(cache := Segment.Patch(t.cache, w.current, c.versions[v].bytes[w.current..w.current + n]),
       holes := t.holes - Span(w.current, w.current + n),
       run := Active(j.(ranges := SetCurrent(j.ranges, i, w.current + n), downloaded := j.downloaded + n,
                        pcs := j.pcs[i := if w.current + n >= w.end then Head else Streaming(v)])))
  }

  lemma PatchIsOverwrite(f: seq<Byte>, at: nat, b: seq<Byte>)
    requires at + |b| <= |f|
    ensures Segment.Patch(f, at, b) == Overwrite(f, at, b)
  {
  }

  // A chunk is written, published and counted, cut to the worker's range.
  lemma ChunkSteps(c: Config, s: Sys, t: Sys, i: nat, v: nat, n: nat) returns (t': Sys)
    requires ByWorker(c, s, t, i) && Streams(c, t, i, v)
    requires n > 0 && t.run.job.ranges[i].current + n <= |c.versions[v].bytes|
    ensures ByWorker(c, s, t', i)
    ensures var w := t.run.job.ranges[i]; t' == Wrote(c, t, i, v, Min(n, w.end - w.current))
  {
    var j, w := t.run.job, t.run.job.ranges[i];
    var len := Min(n, w.end - w.current);
    PatchIsOverwrite(t.cache, w.current, c.versions[v].bytes[w.current..w.current + len]);
    t' := Then(c, s, t, i, Chunk(n));
    assert t'.run.job == j.(pcs := j.pcs[i := Written(v, len)]);
    t' := Then(c, s, t', i, Publish);
    assert t'.run.job.pcs[i] == Stored(v, len);
    t' := Then(c, s, t', i, Count);
    assert t'.run.job.pcs == Wrote(c, t, i, v, len).run.job.pcs;
  }

  lemma WroteMore(c: Config, t: Sys, i: nat, v: nat, n: nat, m: nat)
    requires Streams(c, t, i, v) && n > 0
    requires var w := t.run.job.ranges[i];
             w.current + n < w.end && w.current + n + m <= w.end && w.current + n + m <= |c.versions[v].bytes|
    ensures Streams(c, Wrote(c, t, i, v, n), i, v)
    ensures Wrote(c, Wrote(c, t, i, v, n), i, v, m) == Wrote(c, t, i, v, n + m)
  {
    var at, b := t.run.job.ranges[i].current, c.versions[v].bytes;
    assert b[at..at + n] + b[at + n..at + n + m] == b[at..at + n + m];
    Segment.PatchExtends(t.cache, at, b[at..at + n], b[at + n..at + n + m]);
    assert t.holes - Span(at, at + n) - Span(at + n, at + n + m) == t.holes - Span(at, at + n + m);
    var one, both := Wrote(c, Wrote(c, t, i, v, n), i, v, m).run.job, Wrote(c, t, i, v, n + m).run.job;
    assert one.ranges == both.ranges && one.pcs == both.pcs;
  }

  lemma WroteNothing(c: Config, t: Sys, i: nat, v: nat)
    requires Streams(c, t, i, v) && t.run.job.ranges[i].current <= |c.versions[v].bytes|
    ensures Wrote(c, t, i, v, 0) == t
  {
    var j, w := t.run.job, t.run.job.ranges[i];
    assert Segment.Patch(t.cache, w.current, []) == t.cache;
    assert SetCurrent(j.ranges, i, w.current) == j.ranges && j.pcs[i := Streaming(v)] == j.pcs;
    assert t.holes - Span(w.current, w.current) == t.holes;
  }

  lemma BytesSplit(chunk: seq<Byte>, rest: seq<Byte>, b: seq<Byte>, at: nat)
    requires RetryLoop.BytesAt(chunk + rest, b, at)
    ensures RetryLoop.BytesAt(chunk, b, at) && RetryLoop.BytesAt(rest, b, at + |chunk|)
  {
    assert b[at..at + |chunk + rest|][|chunk|..] == rest;
    assert b[at..at + |chunk + rest|][..|chunk|] == chunk;
  }

  // What a chunk and the rest of the stream amount to.
  lemma ChunkThenRest(c: Config, t: Sys, i: nat, v: nat, chunk: seq<Byte>, rest: seq<Byte>)
    requires Streams(c, t, i, v) && chunk != []
    requires t.run.job.ranges[i].current + |chunk + rest| <= |c.versions[v].bytes|
    ensures var w := t.run.job.ranges[i];
            var room := w.end - w.current;
            var all := |Segment.Fitting(chunk + rest, room)|;
            if |chunk| >= room then Wrote(c, t, i, v, all) == Wrote(c, t, i, v, Min(|chunk|, room))
            else Streams(c, Wrote(c, t, i, v, |chunk|), i, v)
                 && Wrote(c, t, i, v, all)
                    == Wrote(c, Wrote(c, t, i, v, |chunk|), i, v, |Segment.Fitting(rest, room - |chunk|)|)
  {
    var w := t.run.job.ranges[i];
    if |chunk| < w.end - w.current {
      WroteMore(c, t, i, v, |chunk|, |Segment.Fitting(rest, w.end - w.current - |chunk|)|);
    }
  }

  // Whether t' is t after the part of a body that fits.
  ghost predicate Streamed(c: Config, t: Sys, t': Sys, i: nat, v: nat, body: seq<Byte>)
    requires Streams(c, t, i, v) && RetryLoop.BytesAt(body, c.versions[v].bytes, t.run.job.ranges[i].current)
  {
    var w := t.run.job.ranges[i];
    t' == Wrote(c, t, i, v, |Segment.Fitting(body, w.end - w.current)|)
  }

  lemma OneChunk(c: Config, s: Sys, t: Sys, i: nat, v: nat, chunk: seq<Byte>, rest: seq<Byte>) returns (t1: Sys)
    requires ByWorker(c, s, t, i) && Streams(c, t, i, v) && chunk != []
    requires RetryLoop.BytesAt(chunk + rest, c.versions[v].bytes, t.run.job.ranges[i].current)
    ensures ByWorker(c, s, t1, i)
    ensures var w := t.run.job.ranges[i];
            if |chunk| >= w.end - w.current then Streamed(c, t, t1, i, v, chunk + rest)
            else && Streams(c, t1, i, v)
                 && RetryLoop.BytesAt(rest, c.versions[v].bytes, t1.run.job.ranges[i].current)
                 && forall t' | Streamed(c, t1, t', i, v, rest) :: Streamed(c, t, t', i, v, chunk + rest)
  {
    BytesSplit(chunk, rest, c.versions[v].bytes, t.run.job.ranges[i].current);
    t1 := ChunkSteps(c, s, t, i, v, |chunk|);
    ChunkThenRest(c, t, i, v, chunk, rest);
  }

  /** What the segment writer does with a stream of version v is a sequence of the worker's
      Chunk, Publish and Count steps. */
  lemma {:induction false} StreamIsSteps(c: Config, s: Sys, t: Sys, i: nat, v: nat, stream: seq<Segment.Item>, k: nat,
                                         cancelAt: nat) returns (t': Sys)
    requires ByWorker(c, s, t, i) && Streams(c, t, i, v)
    requires RetryLoop.BytesAt(Segment.Arriving(stream, k, cancelAt), c.versions[v].bytes, t.run.job.ranges[i].current)
    ensures ByWorker(c, s, t', i) && Streamed(c, t, t', i, v, Segment.Arriving(stream, k, cancelAt))
    decreases |stream| - k
  {
    if k >= |stream| || k >= cancelAt || stream[k].Broken? {
      t' := t;
      WroteNothing(c, t, i, v);
    } else {
      var chunk, rest := stream[k].bytes, Segment.Arriving(stream, k + 1, cancelAt);
      if chunk == [] {
        assert chunk + rest == rest;
        t' := StreamIsSteps(c, s, t, i, v, stream, k + 1, cancelAt);
      } else {
        t' := OneChunk(c, s, t, i, v, chunk, rest);
        if |chunk| < t.run.job.ranges[i].end - t.run.job.ranges[i].current {
          t' := StreamIsSteps(c, s, t', i, v, stream, k + 1, cancelAt);
        }
      }
    }
  }

  // ----- a round of the retry loop -----

  // The loop of worker i, about to make its request r in state t.
  ghost predicate Matches(c: Config, t: Sys, i: nat, l: RetryLoop.Client, r: nat, attempt: nat) {
    && Working(c, t, i) && t.run.job.pcs[i] == Head && t.run.job.ranges[i].current < t.run.job.ranges[i].end
    && var w, ifRange := t.run.job.ranges[i], IfRangeValidator(Current(c, t));
       var reply := l.server(r, w.current, w.end);
       && l.end == w.end && l.ifRange == ifRange.Some?
       && (reply.PartialContent? ==>
             && Honours(ifRange, c.versions[t.now])
             && RetryLoop.BytesAt(Segment.Delivered(reply.stream, l.polls(r).item), c.versions[t.now].bytes, w.current))
       && (RetryLoop.Round(l, r, w.current, attempt) == RetryLoop.Over(Err(RetryLoop.LoopCancelled)) ==> t.cancelled)
  }

  function StopOf(e: RetryLoop.LoopError): StopReason {
    match e
    case LoopCancelled => Cancelled
    case LoopNoRangeSupport => NoRangeSupport
    case LoopResourceChanged => ResourceChanged
    case RetryExhausted(_) => StopReason.RetryExhausted
  }

  // What a reply does, with the worker back at its loop head.
  ghost function Replied(c: Config, t: Sys, i: nat, reply: Segment.Reply, item: nat): Sys
    requires Working(c, t, i)
    requires reply.PartialContent? ==>
               RetryLoop.BytesAt(Segment.Delivered(reply.stream, item), c.versions[t.now].bytes, t.run.job.ranges[i].current)
  {
    var j, w := t.run.job, t.run.job.ranges[i];
    match reply
    case PartialContent(_) =>
      var u := Wrote(c, t, i, t.now, |Segment.Received(reply, item, w.end - w.current)|);
      u.(run := Active(u.run.job.(pcs := j.pcs)))
    case RangeNotSatisfiable =>
      t.(holes := t.holes + Span(w.current, w.end), diskHoles := t.diskHoles + Span(w.current, w.end),
         run := Active(j.(ranges := SetCurrent(j.ranges, i, w.end), skipped := j.skipped + (w.end - w.current))))
    case _ => t
  }

  // How worker i goes on from t.
  ghost function GoesOn(t: Sys, i: nat, next: RetryLoop.LoopState): Sys
    requires t.run.Active? && i < |t.run.job.pcs|
  {
    match next
    case At(_, _) => t
    case Over(Ok(_)) => SetPc(t, t.run.job, i, Done)
    case Over(Err(e)) => SetPc(t, t.run.job, i, Stopped(StopOf(e)))
  }

  lemma QuietRoundIsSteps(c: Config, s: Sys, t: Sys, i: nat, l: RetryLoop.Client, r: nat, attempt: nat) returns (t': Sys)
    requires ByWorker(c, s, t, i) && Matches(c, t, i, l, r, attempt)
    requires !l.polls(r).head && !l.server(r, t.run.job.ranges[i].current, l.end).PartialContent?
    ensures ByWorker(c, s, t', i)
    ensures var w := t.run.job.ranges[i];
            var reply := l.server(r, w.current, w.end);
            t' == GoesOn(Replied(c, t, i, reply, l.polls(r).item), i, RetryLoop.Round(l, r, w.current, attempt))
  {
    var w := t.run.job.ranges[i];
    var reply := l.server(r, w.current, w.end);
    t' := t;
    if reply.WholeEntity? {
      t' := Then(c, s, t, i, Full);
    } else if reply.RangeNotSatisfiable? {
      t' := Then(c, s, t, i, Unsatisfiable);
    } else if attempt + 1 >= l.maxRetries {
      t' := Then(c, s, t, i, GiveUp);
    } else if l.polls(r).backoff {
      t' := Then(c, s, t, i, ObserveCancel);
    }
  }

  predicate Exhausted(next: RetryLoop.LoopState) {
    next.Over? && next.result.Err? && next.result.error.RetryExhausted?
  }

  // The stream did not reach the end of the range, and leaves the worker streaming.
  lemma StreamEndsInStep(c: Config, s: Sys, u: Sys, i: nat, v: nat, pcs: seq<Pc>, next: RetryLoop.LoopState)
      returns (t': Sys)
    requires ByWorker(c, s, u, i) && Streams(c, u, i, v)
    requires i < |pcs| && pcs[i] == Head && u.run.job.pcs == pcs[i := Streaming(v)]
    requires next.At? || next == RetryLoop.Over(Err(RetryLoop.LoopCancelled)) || Exhausted(next)
    requires next == RetryLoop.Over(Err(RetryLoop.LoopCancelled)) ==> u.cancelled
    ensures ByWorker(c, s, t', i) && t' == GoesOn(u.(run := Active(u.run.job.(pcs := pcs))), i, next)
  {
    if next.At? {
      t' := Then(c, s, u, i, EndStream);
      assert t'.run.job.pcs == pcs;
    } else {
      var why := StopOf(next.result.error);
      t' := Then(c, s, u, i, if Exhausted(next) then GiveUp else ObserveCancel);
      assert u.run.job.pcs[i := Stopped(why)] == pcs[i := Stopped(why)];
    }
  }

  // The worker opens a stream and writes what it brings.
  lemma ReplyStreams(c: Config, s: Sys, t: Sys, i: nat, reply: Segment.Reply, item: nat) returns (u: Sys)
    requires ByWorker(c, s, t, i) && Working(c, t, i) && t.run.job.pcs[i] == Head && reply.PartialContent?
    requires t.run.job.ranges[i].current < t.run.job.ranges[i].end && Honours(IfRangeValidator(Current(c, t)), c.versions[t.now])
    requires RetryLoop.BytesAt(Segment.Delivered(reply.stream, item), c.versions[t.now].bytes, t.run.job.ranges[i].current)
    ensures ByWorker(c, s, u, i)
    ensures var w := t.run.job.ranges[i];
            u == Wrote(c, t, i, t.now, |Segment.Received(reply, item, w.end - w.current)|)
  {
    var t1 := Then(c, s, t, i, Partial);
    assert t1 == SetPc(t, t.run.job, i, Streaming(t.now));
    u := StreamIsSteps(c, s, t1, i, t.now, reply.stream, 0, item);
    var w := t.run.job.ranges[i];
    assert t1.run.job.pcs[i := Head] == t.run.job.pcs[i := Head];
    assert t1.run.job.pcs[i := Streaming(t.now)] == t.run.job.pcs[i := Streaming(t.now)];
  }

  lemma WroteIsReplied(c: Config, t: Sys, i: nat, reply: Segment.Reply, item: nat)
    requires Working(c, t, i) && t.run.job.pcs[i] == Head && reply.PartialContent?
    requires t.run.job.ranges[i].current < t.run.job.ranges[i].end
    requires RetryLoop.BytesAt(Segment.Delivered(reply.stream, item), c.versions[t.now].bytes, t.run.job.ranges[i].current)
    ensures var j, w := t.run.job, t.run.job.ranges[i];
            var n := |Segment.Received(reply, item, w.end - w.current)|;
            var u := Wrote(c, t, i, t.now, n);
            if w.current + n >= w.end then u == Replied(c, t, i, reply, item)
            else Streams(c, u, i, t.now) && u.run.job.pcs == j.pcs[i := Streaming(t.now)]
                 && Replied(c, t, i, reply, item) == u.(run := Active(u.run.job.(pcs := j.pcs)))
  {
    assert t.run.job.pcs[i := Head] == t.run.job.pcs;
  }

  // How a round with a 206 goes on depends on where the stream stopped.
  lemma PartialRound(l: RetryLoop.Client, r: nat, pos: nat, attempt: nat)
    requires pos < l.end && !l.polls(r).head && l.server(r, pos, l.end).PartialContent?
    ensures var n := |Segment.Received(l.server(r, pos, l.end), l.polls(r).item, l.end - pos)|;
            var next := RetryLoop.Round(l, r, pos, attempt);
            && (next.At? ==> next.pos == pos + n)
            && (pos + n >= l.end ==> next.At?)
            && (next.At? || next == RetryLoop.Over(Err(RetryLoop.LoopCancelled)) || Exhausted(next))
  {
  }

  lemma PartialRoundIsSteps(c: Config, s: Sys, t: Sys, i: nat, l: RetryLoop.Client, r: nat, attempt: nat) returns (t': Sys)
    requires ByWorker(c, s, t, i) && Matches(c, t, i, l, r, attempt)
    requires !l.polls(r).head && l.server(r, t.run.job.ranges[i].current, l.end).PartialContent?
    ensures ByWorker(c, s, t', i)
    ensures var w := t.run.job.ranges[i];
            var reply := l.server(r, w.current, w.end);
            t' == GoesOn(Replied(c, t, i, reply, l.polls(r).item), i, RetryLoop.Round(l, r, w.current, attempt))
  {
    var j, w := t.run.job, t.run.job.ranges[i];
    var reply, item := l.server(r, w.current, w.end), l.polls(r).item;
    var n := |Segment.Received(reply, item, w.end - w.current)|;
    var u := ReplyStreams(c, s, t, i, reply, item);
    PartialRound(l, r, w.current, attempt);
    WroteIsReplied(c, t, i, reply, item);
    if w.current + n >= w.end {
      t' := u;
    } else {
      t' := StreamEndsInStep(c, s, u, i, t.now, j.pcs, RetryLoop.Round(l, r, w.current, attempt));
    }
  }

  /** Every round of the retry loop, whatever the reply and wherever it is cut or cancelled,
      is a sequence of the worker's steps that has its effect on file, position, counters
      and outcome. */
  lemma RoundIsSteps(c: Config, t: Sys, i: nat, l: RetryLoop.Client, r: nat, attempt: nat) returns (t': Sys)
    requires Matches(c, t, i, l, r, attempt)
    ensures ByWorker(c, t, t', i)
    ensures var w := t.run.job.ranges[i];
            var reply, next := l.server(r, w.current, w.end), RetryLoop.Round(l, r, w.current, attempt);
            && t' == GoesOn(if l.polls(r).head then t else Replied(c, t, i, reply, l.polls(r).item), i, next)
            && (next.At? ==> next.pos == t'.run.job.ranges[i].current)
  {
    NoStep(c, t, i);
    if l.polls(r).head {
      t' := Then(c, t, t, i, ObserveCancel);
    } else if l.server(r, t.run.job.ranges[i].current, l.end).PartialContent? {
      t' := PartialRoundIsSteps(c, t, t, i, l, r, attempt);
    } else {
      t' := QuietRoundIsSteps(c, t, t, i, l, r, attempt);
    }
  }

  // ----- the whole loop -----

  // While the server has one version, every reply to the loop is an honest one, and the loop
  // sees a cancellation only when there is one.
  ghost predicate Served(c: Config, t: Sys, l: RetryLoop.Client)
    requires t.probed < |c.versions| && t.now < |c.versions|
  {
    var ifRange := IfRangeValidator(Current(c, t));
    && l.ifRange == ifRange.Some?
    && RetryLoop.Faithful(l.server, c.versions[t.now].bytes)
    && (forall r: nat, p: nat, e: nat :: l.server(r, p, e).PartialContent? ==> Honours(ifRange, c.versions[t.now]))
    && (forall r: nat, p: nat, attempt: nat ::
          RetryLoop.Round(l, r, p, attempt) == RetryLoop.Over(Err(RetryLoop.LoopCancelled)) ==> t.cancelled)
  }

  // Worker i of t stands where the loop stands.
  ghost predicate InState(c: Config, t: Sys, i: nat, l: RetryLoop.Client, at: RetryLoop.LoopState) {
    && Working(c, t, i) && l.end == t.run.job.ranges[i].end
    && var w, pc := t.run.job.ranges[i], t.run.job.pcs[i];
       match at
       case At(pos, _) => pc == Head && w.current == pos
       case Over(Ok(_)) => pc == Done && w.current == w.end
       case Over(Err(e)) => pc == Stopped(StopOf(e))
  }

  ghost predicate SameWorld(t: Sys, t': Sys) {
    t'.probed == t.probed && t'.now == t.now && t'.cancelled == t.cancelled
  }

  lemma ByWorkerJoins(c: Config, s: Sys, t: Sys, u: Sys, i: nat)
    requires ByWorker(c, s, t, i) && ByWorker(c, t, u, i)
    ensures ByWorker(c, s, u, i)
  {
    var one :| OnlyBy(one, i) && Exec(c, s, one) == Some(t);
    var two :| OnlyBy(two, i) && Exec(c, t, two) == Some(u);
    ProtocolRuns.ExecAppend(c, s, one, two);
    assert OnlyBy(one + two, i);
  }

  lemma GoesOnInState(c: Config, t: Sys, u: Sys, i: nat, l: RetryLoop.Client, next: RetryLoop.LoopState)
    requires Working(c, u, i) && SameWorld(t, u) && l.end == u.run.job.ranges[i].end
    requires next.At? ==> next.pos == u.run.job.ranges[i].current && u.run.job.pcs[i] == Head
    requires next.Over? ==> next.result.Err?
    ensures SameWorld(t, GoesOn(u, i, next)) && InState(c, GoesOn(u, i, next), i, l, next)
  {
  }

  lemma RepliedWorks(c: Config, t: Sys, i: nat, reply: Segment.Reply, item: nat)
    requires Working(c, t, i) && t.run.job.pcs[i] == Head
    requires reply.PartialContent? ==>
               RetryLoop.BytesAt(Segment.Delivered(reply.stream, item), c.versions[t.now].bytes, t.run.job.ranges[i].current)
    ensures var u := Replied(c, t, i, reply, item);
            && Working(c, u, i) && SameWorld(t, u) && u.run.job.ranges[i].end == t.run.job.ranges[i].end
            && u.run.job.pcs[i] == Head
  {
  }

  lemma NotYetDone(l: RetryLoop.Client, r: nat, pos: nat, attempt: nat)
    requires pos < l.end && RetryLoop.Round(l, r, pos, attempt).Over?
    ensures RetryLoop.Round(l, r, pos, attempt).result.Err?
  {
  }

  lemma RoundInState(c: Config, t: Sys, i: nat, l: RetryLoop.Client, r: nat, attempt: nat) returns (t': Sys)
    requires Working(c, t, i) && Served(c, t, l) && l.end == t.run.job.ranges[i].end && t.run.job.pcs[i] == Head
    ensures ByWorker(c, t, t', i) && SameWorld(t, t')
    ensures InState(c, t', i, l, RetryLoop.Round(l, r, t.run.job.ranges[i].current, attempt))
  {
    NoStep(c, t, i);
    var w := t.run.job.ranges[i];
    if w.current >= w.end {
      t' := Then(c, t, t, i, Finish);
    } else {
      assert Matches(c, t, i, l, r, attempt);
      t' := RoundIsSteps(c, t, i, l, r, attempt);
      var reply, item, next := l.server(r, w.current, w.end), l.polls(r).item, RetryLoop.Round(l, r, w.current, attempt);
      RepliedWorks(c, t, i, reply, item);
      if next.Over? {
        NotYetDone(l, r, w.current, attempt);
      }
      GoesOnInState(c, t, if l.polls(r).head then t else Replied(c, t, i, reply, item), i, l, next);
    }
  }

  /** The retry loop, round after round, is a sequence of its worker's steps, and the worker
      ends as the loop does. */
  lemma {:induction false} LoopIsSteps(c: Config, t: Sys, i: nat, l: RetryLoop.Client, n: nat) returns (t': Sys)
    requires Working(c, t, i) && Served(c, t, l) && l.end == t.run.job.ranges[i].end && t.run.job.pcs[i] == Head
    ensures ByWorker(c, t, t', i) && SameWorld(t, t')
    ensures InState(c, t', i, l, RetryLoop.After(l, t.run.job.ranges[i].current, n))
  {
    var from := t.run.job.ranges[i].current;
    if n == 0 {
      NoStep(c, t, i);
      t' := t;
    } else {
      t' := LoopIsSteps(c, t, i, l, n - 1);
      var at := RetryLoop.After(l, from, n - 1);
      if at.At? {
        var u := RoundInState(c, t', i, l, n - 1, at.attempt);
        ByWorkerJoins(c, t, t', u, i);
        t' := u;
      }
    }
  }
}
