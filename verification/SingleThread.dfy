/** The single-thread path: attempts that append to a growing file, resume it with a
    range request, or truncate it and start over. */
module SingleThread {
  import opened Wrappers
  import opened Http
  import opened Segment

  datatype Status = Whole | Part | NotSuccess

  // `total` is what Content-Range or Content-Length announces.
  datatype Answer = NoAnswer | Answer(status: Status, total: Option<nat>, stream: seq<Item>)

  // The answer to an attempt, by its number, whether it asks for a range, and from where.
  type Origin = (nat, bool, nat) -> Answer

  // When the cancellation token is seen around an attempt.
  datatype Watch = Watch(head: bool, send: bool, item: nat, backoff: bool)

  // Probed length, range support, and retry limit.
  datatype Plan = Plan(expected: Option<nat>, ranges: bool, maxRetries: nat)

  datatype Verdict = Finished | WasCancelled | Exhausted(attempts: nat)

  class PartialFile {
    var data: seq<Byte>

    constructor (data: seq<Byte>)
      ensures this.data == data
    {
      this.data := data;
    }

    // Writes b at a position that is at most the length, growing the file if needed.
    method WriteAt(pos: nat, b: seq<Byte>)
      requires pos <= |data|
      modifies this
      ensures pos == |old(data)| ==> data == old(data) + b
      ensures |data| == Max(|old(data)|, pos + |b|) && data[..pos] == old(data)[..pos]
      ensures data[pos..pos + |b|] == b
    {
      data := data[..pos] + b + (if pos + |b| <= |data| then data[pos + |b|..] else []);
    }
  }

  // ----- one attempt, as a function of the file -----

  function Room(total: Option<nat>, pos: nat): Option<nat> {
    match total
    case None => None
    case Some(t) => Some(if t >= pos then t - pos else 0)
  }

  function Used(room: Option<nat>, n: nat): Option<nat> {
    match room
    case None => None
    case Some(m) => Some(if m >= n then m - n else 0)
  }

  function Take(b: seq<Byte>, room: Option<nat>): seq<Byte> {
    if room.None? then b else Fitting(b, room.value)
  }

  // How reading the stream ends: data that no longer fits ends it well, but only once it
  // arrives; an error or a cancellation that comes first still counts.
  function ReadingEnds(stream: seq<Item>, i: nat, cancelAt: nat, room: Option<nat>): Outcome
    decreases |stream| - i
  {
    if i >= |stream| then Ok(())
    else if i >= cancelAt then Err(ErrCancelled)
    else if stream[i].Broken? then Err(ErrTransient)
    else if stream[i].bytes != [] && room == Some(0) then Ok(())
    else ReadingEnds(stream, i + 1, cancelAt, Used(room, |stream[i].bytes|))
  }

  // What is written from item i on.
  function Kept(stream: seq<Item>, i: nat, cancelAt: nat, room: Option<nat>): seq<Byte>
    decreases |stream| - i
  {
    if i >= |stream| || i >= cancelAt || stream[i].Broken? then []
    else if stream[i].bytes != [] && room == Some(0) then []
    else Take(stream[i].bytes, room) + Kept(stream, i + 1, cancelAt, Used(room, |stream[i].bytes|))
  }

  lemma TakeMore(chunk: seq<Byte>, rest: seq<Byte>, room: Option<nat>)
    ensures Take(chunk + rest, room) == Take(chunk, room) + Take(rest, Used(room, |chunk|))
  {
  }

  /** Written chunk by chunk, the body is what arrives of it, cut to the room there is. */
  lemma {:induction false} KeptIsTheBodyCut(stream: seq<Item>, i: nat, cancelAt: nat, room: Option<nat>)
    ensures Kept(stream, i, cancelAt, room) == Take(Arriving(stream, i, cancelAt), room)
    decreases |stream| - i
  {
    if i < |stream| && i < cancelAt && stream[i].Data? {
      if !(stream[i].bytes != [] && room == Some(0)) {
        KeptIsTheBodyCut(stream, i + 1, cancelAt, Used(room, |stream[i].bytes|));
        TakeMore(stream[i].bytes, Arriving(stream, i + 1, cancelAt), room);
      }
    }
  }

  function Resumes(data: seq<Byte>, plan: Plan): bool {
    |data| > 0 && plan.ranges
  }

  function Base(data: seq<Byte>, plan: Plan, status: Status): seq<Byte> {
    if Resumes(data, plan) && status.Part? then data else []
  }

  function AnnouncedTotal(data: seq<Byte>, plan: Plan, a: Answer): Option<nat>
    requires a.Answer?
  {
    if !Resumes(data, plan) && a.status.Part? then plan.expected
    else if a.total.Some? then a.total else plan.expected
  }

  function LooksComplete(data: seq<Byte>, plan: Plan): bool {
    plan.expected.Some? && |data| >= plan.expected.value && |data| > 0
  }

  function Attempt(data: seq<Byte>, plan: Plan, t: nat, origin: Origin, watch: Watch): (seq<Byte>, Outcome) {
    if LooksComplete(data, plan) then (data, Ok(()))
    else if watch.send then (data, Err(ErrCancelled))
    else
      var a := origin(t, Resumes(data, plan), |data|);
      if a.NoAnswer? || a.status.NotSuccess? then (data, Err(ErrTransient))
      else
        var base := Base(data, plan, a.status);
        var total := AnnouncedTotal(data, plan, a);
        var room := Room(total, |base|);
        var data' := base + Take(Delivered(a.stream, watch.item), room);
        var ended := ReadingEnds(a.stream, 0, watch.item, room);
        if ended.Ok? && total.Some? && |data'| != total.value then (data', Err(ErrTransient))
        else (data', ended)
  }

  // Attempt t is answered with a body.
  predicate Streams(data: seq<Byte>, plan: Plan, t: nat, origin: Origin, watch: Watch) {
    var a := origin(t, Resumes(data, plan), |data|);
    !LooksComplete(data, plan) && !watch.send && a.Answer? && !a.status.NotSuccess?
  }

  // The whole run, from its t-th attempt on.
  function Run(data: seq<Byte>, plan: Plan, t: nat, origin: Origin, watch: nat -> Watch): (seq<Byte>, Verdict)
    decreases plan.maxRetries - t
  {
    if watch(t).head then (data, WasCancelled)
    else
      var (data', r) := Attempt(data, plan, t, origin, watch(t));
      if r.Ok? then (data', Finished)
      else if r.error == ErrCancelled then (data', WasCancelled)
      else if t + 1 >= plan.maxRetries then (data', Exhausted(t + 1))
      else if watch(t).backoff then (data', WasCancelled)
      else Run(data', plan, t + 1, origin, watch)
  }

  // ----- the code -----

  method ReadBody(f: PartialFile, total: Option<nat>, stream: seq<Item>, cancelAt: nat) returns (r: Outcome)
    modifies f
    ensures f.data == old(f.data) + Take(Delivered(stream, cancelAt), Room(total, |old(f.data)|))
    ensures r == ReadingEnds(stream, 0, cancelAt, Room(total, |old(f.data)|))
  {
    ghost var room := Room(total, |f.data|);
    KeptIsTheBodyCut(stream, 0, cancelAt, room);
    r := WriteKept(f, total, stream, cancelAt);
  }

  // What is kept of one non-empty chunk when there is room.
  lemma OneChunkKept(stream: seq<Item>, i: nat, cancelAt: nat, total: Option<nat>, pos: nat, len: nat)
    requires i < |stream| && i < cancelAt && stream[i].Data? && stream[i].bytes != []
    requires total.Some? ==> pos < total.value
    requires len == if total.Some? then Min(total.value - pos, |stream[i].bytes|) else |stream[i].bytes|
    ensures Kept(stream, i, cancelAt, Room(total, pos))
            == stream[i].bytes[..len] + Kept(stream, i + 1, cancelAt, Room(total, pos + len))
    ensures ReadingEnds(stream, i, cancelAt, Room(total, pos))
            == ReadingEnds(stream, i + 1, cancelAt, Room(total, pos + len))
  {
    assert Used(Room(total, pos), |stream[i].bytes|) == Room(total, pos + len);
    assert Take(stream[i].bytes, Room(total, pos)) == stream[i].bytes[..len];
  }

  lemma EmptyChunkKept(stream: seq<Item>, i: nat, cancelAt: nat, room: Option<nat>)
    requires i < |stream| && i < cancelAt && stream[i].Data? && stream[i].bytes == []
    ensures Kept(stream, i, cancelAt, room) == Kept(stream, i + 1, cancelAt, room)
    ensures ReadingEnds(stream, i, cancelAt, room) == ReadingEnds(stream, i + 1, cancelAt, room)
  {
  }

  method WriteKept(f: PartialFile, total: Option<nat>, stream: seq<Item>, cancelAt: nat) returns (r: Outcome)
    modifies f
    ensures f.data == old(f.data) + Kept(stream, 0, cancelAt, Room(total, |old(f.data)|))
    ensures r == ReadingEnds(stream, 0, cancelAt, Room(total, |old(f.data)|))
  {
    ghost var room := Room(total, |f.data|);
    var pos := |f.data|;
    var i := 0;
    while i < |stream|
      invariant 0 <= i <= |stream| && i <= cancelAt
      invariant |f.data| == pos            // the file ends where the next write goes
      invariant old(f.data) + Kept(stream, 0, cancelAt, room) == f.data + Kept(stream, i, cancelAt, Room(total, pos))
      invariant ReadingEnds(stream, i, cancelAt, Room(total, pos)) == ReadingEnds(stream, 0, cancelAt, room)
    {
      if i >= cancelAt {
        return Err(ErrCancelled);
      }
      if stream[i].Broken? {
        return Err(ErrTransient);
      }
      var chunk := stream[i].bytes;
      if chunk == [] {
        EmptyChunkKept(stream, i, cancelAt, Room(total, pos));
        i := i + 1;
        continue;
      }
      if total.Some? && pos >= total.value {
        return Ok(());
      }
      var writeLen := if total.Some? then Min(total.value - pos, |chunk|) else |chunk|;
      OneChunkKept(stream, i, cancelAt, total, pos, writeLen);
      ghost var rest := Kept(stream, i + 1, cancelAt, Room(total, pos + writeLen));
      assert f.data + (chunk[..writeLen] + rest) == f.data + chunk[..writeLen] + rest;
      f.WriteAt(pos, chunk[..writeLen]);
      pos := pos + writeLen;
      i := i + 1;
    }
    return Ok(());
  }

  method SingleThreadAttempt(f: PartialFile, plan: Plan, t: nat, origin: Origin, watch: Watch) returns (r: Outcome)
    modifies f
    ensures (f.data, r) == Attempt(old(f.data), plan, t, origin, watch)
  {
    var existing := |f.data|;
    if plan.expected.Some? && existing >= plan.expected.value && existing > 0 {
      return Ok(());
    }
    var attemptResume := existing > 0 && plan.ranges;
    if watch.send {
      return Err(ErrCancelled);
    }
    var a := origin(t, attemptResume, existing);
    if a.NoAnswer? || a.status.NotSuccess? {
      return Err(ErrTransient);
    }
    var total := if a.total.Some? then a.total else plan.expected;
    if !(attemptResume && a.status.Part?) {
      f.data := [];
      if a.status.Part? {
        total := plan.expected;
      }
    }
    r := ReadBody(f, total, a.stream, watch.item);
    if r.Ok? && total.Some? && |f.data| != total.value {
      r := Err(ErrTransient);
    }
  }

  method SingleThread(f: PartialFile, plan: Plan, origin: Origin, watch: nat -> Watch) returns (v: Verdict)
    modifies f
    ensures (f.data, v) == Run(old(f.data), plan, 0, origin, watch)
  {
    var attempt := 0;
    while true
      invariant Run(f.data, plan, attempt, origin, watch) == Run(old(f.data), plan, 0, origin, watch)
      decreases plan.maxRetries - attempt
    {
      if watch(attempt).head {
        return WasCancelled;
      }
      var r := SingleThreadAttempt(f, plan, attempt, origin, watch(attempt));
      if r.Ok? {
        return Finished;
      }
      if r.error == ErrCancelled {
        return WasCancelled;
      }
      attempt := attempt + 1;
      if attempt >= plan.maxRetries {
        return Exhausted(attempt);
      }
      if watch(attempt - 1).backoff {
        return WasCancelled;
      }
    }
  }
}
