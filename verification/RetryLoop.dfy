/** The retry loop of one worker: what it leaves in the file, and how many requests it
    can take. */
module RetryLoop {
  import opened Wrappers
  import opened Http
  import opened Segment

  datatype LoopError = LoopCancelled | LoopNoRangeSupport | LoopResourceChanged | RetryExhausted(attempts: nat)

  // The server's reply to the r-th request, for the bytes from a position to an end.
  type Server = (nat, nat, nat) -> Reply

  // When the cancellation token is seen around the r-th request: at the loop head, at
  // an item of the stream, during the backoff.
  datatype Polls = Polls(head: bool, item: nat, backoff: bool)

  ghost predicate BytesAt(bytes: seq<Byte>, b: seq<Byte>, at: nat) {
    at + |bytes| <= |b| && bytes == b[at..at + |bytes|]
  }

  /** A 206 carries the requested bytes of the resource, perhaps cut short or running past
      the requested end. */
  ghost predicate Faithful(server: Server, b: seq<Byte>) {
    forall r: nat, p: nat, e: nat, k: nat ::
      server(r, p, e).PartialContent? ==> BytesAt(Delivered(server(r, p, e).stream, k), b, p)
  }

  /** Every segment that ends well has brought at least one byte. */
  ghost predicate Productive(server: Server) {
    forall r: nat, p: nat, e: nat, k: nat ::
      server(r, p, e).PartialContent? && Ending(server(r, p, e).stream, k).Ok?
      ==> |Delivered(server(r, p, e).stream, k)| > 0
  }

  // ----- the loop as a machine -----

  // Everything the loop is given and does not change.
  datatype Client = Client(server: Server, polls: nat -> Polls, ifRange: bool, maxRetries: nat, end: nat)

  // At the loop head with a position and the attempts made there, or returned.
  datatype LoopState = At(pos: nat, attempt: nat) | Over(result: Result<(), LoopError>)

  // The position after a reply to a request for [pos, end).
  function NextPos(reply: Reply, item: nat, pos: nat, end: nat): (p: nat)
    requires pos <= end
    ensures pos <= p <= end
  {
    if reply.RangeNotSatisfiable? then end else pos + |Received(reply, item, end - pos)|
  }

  // One round of the loop, making request number r.
  function Round(l: Client, r: nat, pos: nat, attempt: nat): LoopState {
    if pos >= l.end then Over(Ok(()))
    else if l.polls(r).head then Over(Err(LoopCancelled))
    else
      var reply, item := l.server(r, pos, l.end), l.polls(r).item;
      match SegmentOutcome(reply, l.ifRange, item, l.end - pos)
      case Ok(_) => At(NextPos(reply, item, pos, l.end), 0)
      case Err(ErrCancelled) => Over(Err(LoopCancelled))
      case Err(ErrNoRangeSupport) => Over(Err(LoopNoRangeSupport))
      case Err(ErrResourceChanged) => Over(Err(LoopResourceChanged))
      case Err(ErrTransient) =>
        if attempt + 1 >= l.maxRetries then Over(Err(RetryExhausted(attempt + 1)))
        else if l.polls(r).backoff then Over(Err(LoopCancelled))
        else At(NextPos(reply, item, pos, l.end), attempt + 1)
  }

  // After n rounds from a position.
  function After(l: Client, from: nat, n: nat): LoopState {
    if n == 0 then At(from, 0)
    else
      var s := After(l, from, n - 1);
      if s.Over? then s else Round(l, n - 1, s.pos, s.attempt)
  }

  /** The loop returns. */
  ghost predicate Ends(l: Client, from: nat) {
    exists n: nat :: After(l, from, n).Over?
  }

  lemma {:induction false} StaysOver(l: Client, from: nat, n: nat, m: nat)
    requires n <= m && After(l, from, n).Over?
    ensures After(l, from, m) == After(l, from, n)
    decreases m - n
  {
    if n < m {
      StaysOver(l, from, n, m - 1);
    }
  }

  lemma {:induction false} InRange(l: Client, from: nat, n: nat)
    requires from <= l.end && After(l, from, n).At?
    ensures from <= After(l, from, n).pos <= l.end
  {
    if n > 0 {
      InRange(l, from, n - 1);
    }
  }

  // ----- the request budget -----

  // n * m, kept out of the solver's nonlinear arithmetic.
  function Times(n: nat, m: nat): nat {
    if n == 0 then 0 else m + Times(n - 1, m)
  }

  lemma {:induction false} TimesIsProduct(n: nat, m: nat)
    ensures Times(n, m) == n * m
  {
    if n > 0 {
      TimesIsProduct(n - 1, m);
    }
  }

  lemma {:induction false} TimesGrows(n: nat, more: nat, m: nat)
    ensures Times(n + more, m) >= Times(n, m)
    ensures more > 0 ==> Times(n + more, m) >= Times(n, m) + m
  {
    if more > 0 {
      TimesGrows(n, more - 1, m);
    }
  }

  // Requests made: at most `most` for every byte gained, plus the current attempts.
  ghost predicate InBudget(requests: nat, gained: nat, attempt: nat, most: nat) {
    requests <= Times(gained, most) + attempt
  }

  lemma OneMoreRequest(requests: nat, gained: nat, attempt: nat, most: nat, more: nat, room: nat)
    requires InBudget(requests, gained, attempt, most) && attempt < most && gained + more <= room
    ensures InBudget(requests + 1, gained + more, attempt + 1, most)
    ensures more > 0 ==> InBudget(requests + 1, gained + more, 0, most)
    ensures requests + 1 <= Times(room + 1, most)
  {
    TimesGrows(gained, more, most);
    TimesGrows(gained + more, room - gained - more, most);
    assert Times(room + 1, most) == most + Times(room, most);
  }

  // Every round the loop makes with a well-ended segment gains a byte.
  ghost predicate GainsFrom(l: Client, from: nat) {
    forall n: nat :: Gains(l, from, n)
  }

  ghost predicate Gains(l: Client, from: nat, n: nat) {
    var s, t := After(l, from, n), After(l, from, n + 1);
    s.At? && s.pos < l.end && t.At? && t.attempt == 0 ==> t.pos > s.pos
  }

  // What n rounds have cost.
  lemma {:induction false} RoundsInBudget(l: Client, from: nat, n: nat)
    requires from <= l.end && GainsFrom(l, from) && After(l, from, n).At?
    ensures var s, most := After(l, from, n), Max(1, l.maxRetries);
            from <= s.pos <= l.end && s.attempt < most && InBudget(n, s.pos - from, s.attempt, most)
    decreases n
  {
    if n > 0 {
      RoundsInBudget(l, from, n - 1);
      InRange(l, from, n);
      var s, t, most := After(l, from, n - 1), After(l, from, n), Max(1, l.maxRetries);
      assert Gains(l, from, n - 1);
      OneMoreRequest(n - 1, s.pos - from, s.attempt, most, t.pos - s.pos, l.end - from);
    }
  }

  lemma RoundsAreFew(l: Client, from: nat, n: nat)
    requires from <= l.end && GainsFrom(l, from) && After(l, from, n).At?
    ensures n + 1 <= Times(l.end - from + 1, Max(1, l.maxRetries))
  {
    var s, most := After(l, from, n), Max(1, l.maxRetries);
    RoundsInBudget(l, from, n);
    TimesGrows(s.pos - from, l.end - s.pos, most);
    assert Times(l.end - from + 1, most) == most + Times(l.end - from, most);
  }

  /** A loop whose well-ended segments gain a byte ends. */
  lemma GainsEnd(l: Client, from: nat)
    requires from <= l.end && GainsFrom(l, from)
    ensures Ends(l, from)
  {
    var n := Times(l.end - from + 1, Max(1, l.maxRetries));
    if After(l, from, n).At? {
      RoundsAreFew(l, from, n);
    }
  }

  lemma ProductiveGains(l: Client, from: nat)
    requires from <= l.end && Productive(l.server)
    ensures GainsFrom(l, from)
  {
    forall n: nat ensures Gains(l, from, n) {
      var s := After(l, from, n);
      if s.At? && s.pos < l.end && After(l, from, n + 1).At? && After(l, from, n + 1).attempt == 0 {
        InRange(l, from, n);
        var reply := l.server(n, s.pos, l.end);
        assert reply.PartialContent? && Ending(reply.stream, l.polls(n).item).Ok?
               ==> |Delivered(reply.stream, l.polls(n).item)| > 0;
      }
    }
  }

  // ----- the loop -----

  // Offsets lo to hi hold the resource's bytes; the rest is as before.
  ghost predicate Fetched(now: seq<Byte>, before: seq<Byte>, b: seq<Byte>, lo: int, hi: int) {
    && |now| == |before|
    && forall k :: 0 <= k < |now| ==>
         if lo <= k < hi then k < |b| && now[k] == b[k] else now[k] == before[k]
  }

  lemma FetchedMore(now: seq<Byte>, before: seq<Byte>, b: seq<Byte>, lo: nat, at: nat, piece: seq<Byte>, body: seq<Byte>, room: nat)
    requires Fetched(now, before, b, lo, at) && lo <= at && at + |piece| <= |now|
    requires BytesAt(body, b, at) && piece == Fitting(body, room)
    ensures Fetched(Patch(now, at, piece), before, b, lo, at + |piece|)
  {
    var f := Patch(now, at, piece);
    forall k | 0 <= k < |f|
      ensures if lo <= k < at + |piece| then k < |b| && f[k] == b[k] else f[k] == before[k]
    {
      assert f[k] == if at <= k < at + |piece| then piece[k - at] else now[k];
    }
  }

  // One request of the loop, seen from the position the loop began at.
  method Request(file: array<Byte>, end: nat, c: Counters, reply: Reply, ifRange: bool, item: nat,
                 ghost from: nat, ghost before: seq<Byte>, ghost b: seq<Byte>)
      returns (res: Outcome, skipped: nat)
    requires from <= c.current < end <= file.Length && Fetched(file[..], before, b, from, c.current)
    requires reply.PartialContent? ==> BytesAt(Delivered(reply.stream, item), b, c.current)
    modifies file, c
    ensures old(c.current) <= c.current <= end
    ensures c.downloaded - old(c.downloaded) + skipped == c.current - old(c.current)
    ensures skipped > 0 ==> c.current == end
    ensures Fetched(file[..], before, b, from, c.current - skipped)
    ensures res == SegmentOutcome(reply, ifRange, item, end - old(c.current))
    ensures reply.RangeNotSatisfiable? ==> c.current == end
    ensures !reply.RangeNotSatisfiable? ==>
              skipped == 0 && c.current == old(c.current) + |Received(reply, item, end - old(c.current))|
  {
    ghost var now := file[..];
    var pos := c.current;
    res := DownloadSegment(file, pos, end, reply, ifRange, item, c);
    skipped := if reply.RangeNotSatisfiable? then end - pos else 0;
    if reply.PartialContent? {
      FetchedMore(now, before, b, from, pos, Received(reply, item, end - pos), Delivered(reply.stream, item), end - pos);
    } else {
      assert Patch(now, pos, []) == now;
    }
  }

  lemma RoundCost(l: Client, from: nat, n: nat)
    requires from <= l.end && After(l, from, n).At?
    ensures Productive(l.server) ==> n + 1 <= Times(l.end - from + 1, Max(1, l.maxRetries))
  {
    if Productive(l.server) {
      ProductiveGains(l, from);
      RoundsAreFew(l, from, n);
    }
  }

  lemma ProductiveEnds(l: Client, from: nat)
    requires from <= l.end && Productive(l.server)
    ensures Ends(l, from)
  {
    ProductiveGains(l, from);
    GainsEnd(l, from);
  }

  lemma NotYet(l: Client, from: nat, n: nat, bound: nat)
    requires After(l, from, n).At? && After(l, from, bound).Over?
    ensures n < bound
  {
    if bound <= n {
      StaysOver(l, from, bound, n);
    }
  }

  // The stream stopped, with room left in the range, because it broke or because the
  // cancellation was seen.
  ghost predicate CutShort(reply: Reply, item: nat, room: nat, cancelled: bool) {
    reply.PartialContent?
    && exists k: nat :: StopsAt(reply.stream, item, k) && k < |reply.stream| && (k == item <==> cancelled)
                   && |BytesBefore(reply.stream, 0, k)| < room
  }

  /** The loop gives up only for the reason it states, read off the reply to the request
      before these, which was made at `asked`. */
  ghost predicate Justified(e: LoopError, l: Client, requests: nat, asked: nat) {
    match e
    case LoopCancelled =>
      || l.polls(requests).head
      || (requests > 0 && l.polls(requests - 1).backoff)
      || (requests > 0 && asked < l.end
          && CutShort(l.server(requests - 1, asked, l.end), l.polls(requests - 1).item, l.end - asked, true))
    case LoopNoRangeSupport =>
      requests > 0 && l.server(requests - 1, asked, l.end).WholeEntity? && !l.ifRange
    case LoopResourceChanged =>
      requests > 0 && l.server(requests - 1, asked, l.end).WholeEntity? && l.ifRange
    case RetryExhausted(attempts) =>
      && attempts == Max(1, l.maxRetries) <= requests && asked < l.end
      && var reply := l.server(requests - 1, asked, l.end);
         || reply.SendFailed? || reply.OtherStatus?
         || CutShort(reply, l.polls(requests - 1).item, l.end - asked, false)
  }

  // What a failed request with this many attempts before it leads to.
  ghost function Retry(l: Client, n: nat, pos: nat, attempt: nat): LoopState {
    if attempt + 1 >= l.maxRetries then Over(Err(RetryExhausted(attempt + 1)))
    else if l.polls(n).backoff then Over(Err(LoopCancelled))
    else At(pos, attempt + 1)
  }

  /** What a round does, by the reply alone: failed requests and broken streams are retried
      with one more attempt, from where they got to; a 200 ends the loop; a 416 ends the
      range; a well-ended stream, with or without bytes, starts the attempts over. */
  lemma RoundDecides(l: Client, n: nat, pos: nat, attempt: nat, k: nat)
    requires pos < l.end && !l.polls(n).head
    ensures var reply, next := l.server(n, pos, l.end), Round(l, n, pos, attempt);
            match reply
            case SendFailed => next == Retry(l, n, pos, attempt)
            case OtherStatus => next == Retry(l, n, pos, attempt)
            case WholeEntity => next == Over(Err(if l.ifRange then LoopResourceChanged else LoopNoRangeSupport))
            case RangeNotSatisfiable => next == At(l.end, 0)
            case PartialContent(stream) =>
              StopsAt(stream, l.polls(n).item, k) ==>
                var got := |BytesBefore(stream, 0, k)|;
                next == if pos + got >= l.end then At(l.end, 0)
                        else if k == |stream| then At(pos + got, 0)
                        else if k == l.polls(n).item then Over(Err(LoopCancelled))
                        else Retry(l, n, pos + got, attempt)
  {
    var reply := l.server(n, pos, l.end);
    if reply.PartialContent? && StopsAt(reply.stream, l.polls(n).item, k) {
      StreamStops(reply.stream, l.polls(n).item, k);
    }
  }

  // One round below the end: poll, ask, and decide whether to go on.
  method OneRound(file: array<Byte>, c: Counters, l: Client, attempt: nat, n: nat,
                  ghost from: nat, ghost before: seq<Byte>, ghost b: seq<Byte>)
      returns (next: LoopState, requests: nat, skipped: nat)
    requires from <= c.current < l.end <= file.Length && Fetched(file[..], before, b, from, c.current)
    requires Faithful(l.server, b) && After(l, from, n) == At(c.current, attempt)
    modifies file, c
    ensures After(l, from, n + 1) == next
    ensures next.At? ==> requests == n + 1 && next.pos == c.current
    ensures next.Over? ==> next.result.Err? && skipped == 0
                           && requests == if l.polls(n).head then n else n + 1
    ensures old(c.current) <= c.current <= l.end
    ensures c.downloaded - old(c.downloaded) + skipped == c.current - old(c.current)
    ensures skipped > 0 ==> c.current == l.end
    ensures Fetched(file[..], before, b, from, c.current - skipped)
  {
    var seen := l.polls(n);
    if seen.head {
      return Over(Err(LoopCancelled)), n, 0;
    }
    var reply := l.server(n, c.current, l.end);
    var res;
    res, skipped := Request(file, l.end, c, reply, l.ifRange, seen.item, from, before, b);
    requests := n + 1;
    if res.Ok? {
      next := At(c.current, 0);
    } else if res.error == ErrCancelled {
      next := Over(Err(LoopCancelled));
    } else if res.error == ErrNoRangeSupport {
      next := Over(Err(LoopNoRangeSupport));
    } else if res.error == ErrResourceChanged {
      next := Over(Err(LoopResourceChanged));
    } else if attempt + 1 >= l.maxRetries {
      next := Over(Err(RetryExhausted(attempt + 1)));
    } else if seen.backoff {
      next := Over(Err(LoopCancelled));
    } else {
      next := At(c.current, attempt + 1);
    }
  }

  // The loop; if it fails, in which round.
  method Rounds(file: array<Byte>, c: Counters, l: Client, ghost b: seq<Byte>, ghost bound: nat)
      returns (r: Result<(), LoopError>, requests: nat, skipped: nat, ghost n: nat)
    requires c.current <= l.end <= file.Length
    requires After(l, c.current, bound).Over? && Faithful(l.server, b)
    modifies file, c
    ensures After(l, old(c.current), n).At? && After(l, old(c.current), n + 1) == Over(r)
    ensures r.Ok? ==> c.current == l.end
    ensures requests == if r.Ok? || l.polls(n).head then n else n + 1
    ensures old(c.current) <= c.current <= l.end
    ensures c.downloaded - old(c.downloaded) + skipped == c.current - old(c.current)
    ensures skipped > 0 ==> r.Ok?
    ensures Fetched(file[..], old(file[..]), b, old(c.current), c.current - skipped)
  {
    var attempt: nat := 0;
    requests, skipped, n := 0, 0, 0;
    ghost var from, before := c.current, file[..];
    while c.current < l.end
      invariant from <= c.current <= l.end && n == requests
      invariant After(l, from, requests) == At(c.current, attempt)
      invariant c.downloaded - old(c.downloaded) + skipped == c.current - from
      invariant skipped > 0 ==> c.current == l.end
      invariant Fetched(file[..], before, b, from, c.current - skipped)
      decreases bound - requests
    {
      NotYet(l, from, n, bound);
      var next;
      next, requests, skipped := OneRound(file, c, l, attempt, requests, from, before, b);
      if next.Over? {
        return next.result, requests, skipped, n;
      }
      attempt := next.attempt;
      n := requests;
    }
    r := Ok(());
  }

  // Why the loop failed in round n.
  lemma FailureIsJustified(l: Client, from: nat, n: nat, e: LoopError, requests: nat) returns (asked: nat)
    requires from <= l.end && After(l, from, n).At? && After(l, from, n + 1) == Over(Err(e))
    requires requests == if l.polls(n).head then n else n + 1
    ensures Justified(e, l, requests, asked)
  {
    var s := After(l, from, n);
    asked := s.pos;
    AttemptsInRounds(l, from, n);
    assert Round(l, n, s.pos, s.attempt) == Over(Err(e));
    if !l.polls(n).head {
      var reply, item := l.server(n, s.pos, l.end), l.polls(n).item;
      var k := 0;
      if reply.PartialContent? {
        k := StopExists(reply.stream, item, 0);
      }
      RoundDecides(l, n, s.pos, s.attempt, k);
    }
  }

  lemma {:induction false} AttemptsInRounds(l: Client, from: nat, n: nat)
    requires After(l, from, n).At?
    ensures After(l, from, n).attempt < Max(1, l.maxRetries) && After(l, from, n).attempt <= n
  {
    if n > 0 {
      AttemptsInRounds(l, from, n - 1);
    }
  }

  // What the last round says about the whole loop.
  lemma LoopAccount(l: Client, from: nat, n: nat, r: Result<(), LoopError>, requests: nat) returns (asked: nat)
    requires from <= l.end && After(l, from, n).At? && After(l, from, n + 1) == Over(r)
    requires requests == if r.Ok? || l.polls(n).head then n else n + 1
    ensures After(l, from, requests + 1) == Over(r)
    ensures Productive(l.server) ==> requests <= (l.end - from + 1) * Max(1, l.maxRetries)
    ensures r.Err? ==> Justified(r.error, l, requests, asked)
  {
    RoundCost(l, from, n);
    TimesIsProduct(l.end - from + 1, Max(1, l.maxRetries));
    StaysOver(l, from, n + 1, requests + 1);
    asked := from;
    if r.Err? {
      asked := FailureIsJustified(l, from, n, r.error, requests);
    }
  }

  method WorkerLoop(file: array<Byte>, c: Counters, l: Client, ghost b: seq<Byte>)
      returns (r: Result<(), LoopError>, requests: nat, skipped: nat, ghost asked: nat)
    requires c.current <= l.end <= file.Length
    requires Ends(l, c.current) && Faithful(l.server, b)
    modifies file, c
    // it follows the machine, and where segments bring bytes stays within this many requests
    ensures After(l, old(c.current), requests + 1) == Over(r)
    ensures Productive(l.server) ==> requests <= (l.end - old(c.current) + 1) * Max(1, l.maxRetries)
    ensures r.Ok? ==> c.current == l.end
    ensures r.Err? ==> Justified(r.error, l, requests, asked)
    // positions and counts
    ensures old(c.current) <= c.current <= l.end
    ensures c.downloaded - old(c.downloaded) + skipped == c.current - old(c.current)
    ensures skipped > 0 ==> r.Ok?
    // the file: the resource's bytes where the worker fetched, untouched elsewhere
    ensures Fetched(file[..], old(file[..]), b, old(c.current), c.current - skipped)
  {
    ghost var from := c.current;
    ghost var n;
    ghost var bound: nat :| After(l, from, bound).Over?;
    r, requests, skipped, n := Rounds(file, c, l, b, bound);
    asked := LoopAccount(l, from, n, r, requests);
  }

  // ----- when the loop ends -----

  // Replies depend on the position alone, and nobody cancels.
  ghost predicate Stable(l: Client) {
    && (forall r: nat, p: nat, e: nat :: l.server(r, p, e) == l.server(0, p, e))
    && (forall r: nat :: !l.polls(r).head && !l.polls(r).backoff)
    && (forall r: nat, p: nat ::
          l.server(0, p, l.end).PartialContent? ==> |l.server(0, p, l.end).stream| <= l.polls(r).item)
  }

  // A 206 that ends well without a byte.
  ghost predicate Empty(reply: Reply) {
    && reply.PartialContent?
    && Delivered(reply.stream, |reply.stream|) == []
    && Ending(reply.stream, |reply.stream|).Ok?
  }

  lemma {:induction false} LongPolls(stream: seq<Item>, i: nat, k: nat)
    requires |stream| <= k
    ensures Arriving(stream, i, k) == Arriving(stream, i, |stream|)
    ensures EndingFrom(stream, i, k) == EndingFrom(stream, i, |stream|)
    decreases |stream| - i
  {
    if i < |stream| {
      LongPolls(stream, i + 1, k);
    }
  }

  // The reply at a position is the same whenever it is asked for.
  lemma ReplyAt(l: Client, n: nat, pos: nat)
    requires Stable(l) && pos < l.end
    ensures var reply, item := l.server(n, pos, l.end), l.polls(n).item;
            && reply == l.server(0, pos, l.end)
            && (reply.PartialContent? ==>
                  && Delivered(reply.stream, item) == Delivered(reply.stream, |reply.stream|)
                  && Ending(reply.stream, item) == Ending(reply.stream, |reply.stream|))
  {
    var reply := l.server(0, pos, l.end);
    assert l.server(n, pos, l.end) == reply;
    if reply.PartialContent? {
      LongPolls(reply.stream, 0, l.polls(n).item);
    }
  }

  // The loop gets to a position where the server answers with nothing.
  ghost predicate Starves(l: Client, from: nat, n: nat) {
    var s := After(l, from, n);
    s.At? && s.pos < l.end && Empty(l.server(0, s.pos, l.end))
  }

  lemma EmptyRound(l: Client, n: nat, pos: nat, attempt: nat)
    requires Stable(l) && pos < l.end && Empty(l.server(0, pos, l.end))
    ensures Round(l, n, pos, attempt) == At(pos, 0)
  {
    ReplyAt(l, n, pos);
    assert Fitting([], l.end - pos) == [];
  }

  lemma {:induction false} StarvesForEver(l: Client, from: nat, n: nat, m: nat)
    requires Stable(l) && Starves(l, from, n) && n <= m
    ensures After(l, from, m).At? && After(l, from, m).pos == After(l, from, n).pos
    decreases m - n
  {
    if n < m {
      StarvesForEver(l, from, n, m - 1);
      var s := After(l, from, m - 1);
      EmptyRound(l, m - 1, s.pos, s.attempt);
    }
  }

  lemma FedRoundGains(l: Client, from: nat, n: nat)
    requires Stable(l) && from <= l.end && !Starves(l, from, n)
    ensures Gains(l, from, n)
  {
    var s := After(l, from, n);
    if s.At? && s.pos < l.end {
      InRange(l, from, n);
      ReplyAt(l, n, s.pos);
      assert After(l, from, n + 1) == Round(l, n, s.pos, s.attempt);
      var reply, item := l.server(n, s.pos, l.end), l.polls(n).item;
      var res := SegmentOutcome(reply, l.ifRange, item, l.end - s.pos);
      if res.Ok? && reply.PartialContent? {
        assert |Delivered(reply.stream, item)| > 0;
      }
    }
  }

  /** For a server whose replies depend on the position alone, and without cancellation, the
      loop returns if and only if it never gets to a position where a 206 ends well without
      a byte: each such reply resets the attempts. */
  lemma EndsIffNeverStarved(l: Client, from: nat)
    requires Stable(l) && from <= l.end
    ensures Ends(l, from) <==> forall n: nat :: !Starves(l, from, n)
  {
    if n: nat :| Starves(l, from, n) {
      forall m: nat ensures After(l, from, m).At? {
        if m < n {
          if After(l, from, m).Over? {
            StaysOver(l, from, m, n);
          }
        } else {
          StarvesForEver(l, from, n, m);
        }
      }
    } else {
      forall n: nat ensures Gains(l, from, n) {
        FedRoundGains(l, from, n);
      }
      GainsEnd(l, from);
    }
  }

  /** So a server that keeps answering 206 with a clean empty body keeps the loop for ever. */
  lemma EmptyRepliesNeverFinish(l: Client, from: nat)
    requires Stable(l) && from < l.end && forall r: nat, p: nat, e: nat :: l.server(r, p, e) == PartialContent([])
    ensures !Ends(l, from)
  {
    assert Starves(l, from, 0);
    EndsIffNeverStarved(l, from);
  }

  // ----- when the loop succeeds -----

  // Request r brings bytes and ends well, wherever it is made.
  ghost predicate Good(l: Client, r: nat) {
    forall p: nat | p < l.end :: GoodReply(l.server(r, p, l.end))
  }

  ghost predicate GoodReply(reply: Reply) {
    reply.PartialContent? && Ending(reply.stream, |reply.stream|).Ok? && Delivered(reply.stream, |reply.stream|) != []
  }

  // Nobody cancels, and no reply says that ranges are not served.
  ghost predicate Undisturbed(l: Client) {
    && (forall r: nat :: !l.polls(r).head && !l.polls(r).backoff)
    && (forall r: nat, p: nat :: !l.server(r, p, l.end).WholeEntity?)
    && (forall r: nat, p: nat ::
          l.server(r, p, l.end).PartialContent? ==> |l.server(r, p, l.end).stream| <= l.polls(r).item)
  }

  // Of any so many requests in a row, one is good.
  ghost predicate GoodInTime(l: Client) {
    forall r: nat :: GoodFrom(l, r)
  }

  ghost predicate GoodFrom(l: Client, r: nat) {
    exists k: nat :: r <= k < r + Max(1, l.maxRetries) && Good(l, k)
  }

  // The attempts counted are the failed requests since the last good one.
  ghost predicate Streak(l: Client, n: nat, attempt: nat) {
    attempt <= n && forall k: nat :: n - attempt <= k < n ==> !Good(l, k)
  }

  // A request that does not succeed is not good, and not the last one allowed.
  lemma FailureIsRetried(l: Client, n: nat, pos: nat, attempt: nat)
    requires Undisturbed(l) && GoodInTime(l) && pos < l.end && Streak(l, n, attempt)
    ensures var next := Round(l, n, pos, attempt);
            next.At? && (next.attempt == 0 || (next.attempt == attempt + 1 && Streak(l, n + 1, attempt + 1)))
  {
    var reply, item := l.server(n, pos, l.end), l.polls(n).item;
    if reply.PartialContent? {
      LongPolls(reply.stream, 0, item);
      NeverCancelled(reply.stream, 0);
    }
    if SegmentOutcome(reply, l.ifRange, item, l.end - pos).Err? {
      assert !GoodReply(reply);
      assert !Good(l, n);
      if attempt + 1 >= l.maxRetries {
        var r := n + 1 - Max(1, l.maxRetries);
        assert GoodFrom(l, r);
        var k: nat :| r <= k < r + Max(1, l.maxRetries) && Good(l, k);
        assert false;
      }
    }
  }

  lemma {:induction false} NeverCancelled(stream: seq<Item>, i: nat)
    ensures EndingFrom(stream, i, |stream|) != Err(ErrCancelled)
    decreases |stream| - i
  {
    if i < |stream| {
      NeverCancelled(stream, i + 1);
    }
  }

  lemma {:induction false} NeverFails(l: Client, from: nat, n: nat)
    requires Undisturbed(l) && GoodInTime(l) && from <= l.end
    ensures var s := After(l, from, n);
            if s.At? then Streak(l, n, s.attempt) else s.result.Ok?
  {
    if n > 0 {
      NeverFails(l, from, n - 1);
      var s := After(l, from, n - 1);
      if s.At? && s.pos < l.end {
        FailureIsRetried(l, n - 1, s.pos, s.attempt);
      }
    }
  }

  /** If nobody cancels, ranges are served, every well-ended segment brings a byte, and of any
      max_retries requests in a row one ends well, the loop returns Ok. */
  lemma LoopSucceeds(l: Client, from: nat)
    requires Undisturbed(l) && GoodInTime(l) && Productive(l.server) && from <= l.end
    ensures exists n: nat :: After(l, from, n).Over? && After(l, from, n).result.Ok?
  {
    ProductiveEnds(l, from);
    var n: nat :| After(l, from, n).Over?;
    NeverFails(l, from, n);
  }
}
