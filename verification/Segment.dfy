/** One range request of a worker: the streamed writer, and the retry loop around it. */
module Segment {
  import opened Wrappers
  import opened Http

  // What the response stream yields next.
  datatype Item = Data(bytes: seq<Byte>) | Broken

  // The response to a range request.
  datatype Reply =
    | SendFailed
    | PartialContent(stream: seq<Item>)
    | WholeEntity
    | RangeNotSatisfiable
    | OtherStatus

  datatype SegmentError = ErrCancelled | ErrNoRangeSupport | ErrResourceChanged | ErrTransient

  type Outcome = Result<(), SegmentError>

  // The atomics a worker shares with the progress and checkpoint tasks.
  class Counters {
    var current: nat
    var downloaded: nat

    constructor (current: nat, downloaded: nat)
      ensures this.current == current && this.downloaded == downloaded
    {
      this.current := current;
      this.downloaded := downloaded;
    }
  }

  // ----- what a stream delivers -----

  /** The bytes that arrive, from item i on, before the stream breaks or the cancellation
      is seen. The token is polled once per item, and is set from poll cancelAt on. */
  function Arriving(stream: seq<Item>, i: nat, cancelAt: nat): seq<Byte>
    decreases |stream| - i
  {
    if i >= |stream| || i >= cancelAt || stream[i].Broken? then []
    else stream[i].bytes + Arriving(stream, i + 1, cancelAt)
  }

  /** How the stream ends, if nobody stops reading it. */
  function EndingFrom(stream: seq<Item>, i: nat, cancelAt: nat): (r: Outcome)
    ensures r.Err? ==> r.error == ErrCancelled || r.error == ErrTransient
    decreases |stream| - i
  {
    if i >= |stream| then Ok(())
    else if i >= cancelAt then Err(ErrCancelled)
    else if stream[i].Broken? then Err(ErrTransient)
    else EndingFrom(stream, i + 1, cancelAt)
  }

  function Delivered(stream: seq<Item>, cancelAt: nat): seq<Byte> {
    Arriving(stream, 0, cancelAt)
  }

  function Ending(stream: seq<Item>, cancelAt: nat): Outcome {
    EndingFrom(stream, 0, cancelAt)
  }

  function Flatten(chunks: seq<seq<Byte>>): seq<Byte> {
    if chunks == [] then [] else chunks[0] + Flatten(chunks[1..])
  }

  function Chunks(chunks: seq<seq<Byte>>): seq<Item> {
    seq(|chunks|, i requires 0 <= i < |chunks| => Data(chunks[i]))
  }

  /** The first room bytes of a body. */
  function Fitting(body: seq<Byte>, room: nat): (r: seq<Byte>)
    ensures |r| == Min(|body|, room)
  {
    body[..Min(|body|, room)]
  }

  // The file with b written at offset at.
  function Patch(f: seq<Byte>, at: nat, b: seq<Byte>): (r: seq<Byte>)
    requires at + |b| <= |f|
    ensures |r| == |f|
  {
    seq(|f|, k requires 0 <= k < |f| => if at <= k < at + |b| then b[k - at] else f[k])
  }

  lemma PatchExtends(f: seq<Byte>, at: nat, b: seq<Byte>, more: seq<Byte>)
    requires at + |b| + |more| <= |f|
    ensures Patch(Patch(f, at, b), at + |b|, more) == Patch(f, at, b + more)
  {
  }

  lemma {:induction false} CutFrom(chunks: seq<seq<Byte>>, i: nat, cancelAt: nat)
    requires i <= |chunks| <= cancelAt
    ensures Arriving(Chunks(chunks), i, cancelAt) == Flatten(chunks[i..])
    ensures EndingFrom(Chunks(chunks), i, cancelAt) == Ok(())
    decreases |chunks| - i
  {
    if i < |chunks| {
      assert chunks[i..][1..] == chunks[i + 1..];
      CutFrom(chunks, i + 1, cancelAt);
    }
  }

  /** However a body is cut into chunks, the whole of it arrives and the stream ends well. */
  lemma CuttingDoesNotMatter(chunks: seq<seq<Byte>>, cancelAt: nat)
    requires |chunks| <= cancelAt
    ensures Delivered(Chunks(chunks), cancelAt) == Flatten(chunks)
    ensures Ending(Chunks(chunks), cancelAt) == Ok(())
  {
    CutFrom(chunks, 0, cancelAt);
    assert chunks[0..] == chunks;
  }

  // Reading stops before item k: everything up to there are bytes, and there the stream ends,
  // the cancellation is seen, or it breaks.
  ghost predicate StopsAt(stream: seq<Item>, cancelAt: nat, k: nat) {
    && k <= |stream| && k <= cancelAt
    && (forall j :: 0 <= j < k ==> stream[j].Data?)
    && (k == |stream| || k == cancelAt || stream[k].Broken?)
  }

  function BytesBefore(stream: seq<Item>, i: nat, k: nat): seq<Byte>
    requires i <= k <= |stream| && forall j :: i <= j < k ==> stream[j].Data?
  {
    Flatten(seq(k - i, j requires 0 <= j < k - i => stream[i + j].bytes))
  }

  lemma {:induction false} StopsFrom(stream: seq<Item>, cancelAt: nat, i: nat, k: nat)
    requires StopsAt(stream, cancelAt, k) && i <= k
    ensures Arriving(stream, i, cancelAt) == BytesBefore(stream, i, k)
    ensures EndingFrom(stream, i, cancelAt)
            == if k == |stream| then Ok(()) else if k == cancelAt then Err(ErrCancelled) else Err(ErrTransient)
    decreases k - i
  {
    if i < k {
      StopsFrom(stream, cancelAt, i + 1, k);
      var chunks := seq(k - i, j requires 0 <= j < k - i => stream[i + j].bytes);
      assert chunks[1..] == seq(k - (i + 1), j requires 0 <= j < k - (i + 1) => stream[i + 1 + j].bytes);
    }
  }

  /** What arrives is everything before the stop, and how the stream ends is decided there;
      the cancellation is polled first, so it wins over a broken item. */
  lemma StreamStops(stream: seq<Item>, cancelAt: nat, k: nat)
    requires StopsAt(stream, cancelAt, k)
    ensures Delivered(stream, cancelAt) == BytesBefore(stream, 0, k)
    ensures Ending(stream, cancelAt)
            == if k == |stream| then Ok(()) else if k == cancelAt then Err(ErrCancelled) else Err(ErrTransient)
  {
    StopsFrom(stream, cancelAt, 0, k);
  }

  lemma {:induction false} StopExists(stream: seq<Item>, cancelAt: nat, i: nat) returns (k: nat)
    requires i <= |stream| && i <= cancelAt && forall j :: 0 <= j < i ==> stream[j].Data?
    ensures StopsAt(stream, cancelAt, k)
    decreases |stream| - i
  {
    if i == |stream| || i == cancelAt || stream[i].Broken? {
      k := i;
    } else {
      k := StopExists(stream, cancelAt, i + 1);
    }
  }

  // ----- the writer -----

  // Where the reader of a stream is: what arrived before item i, and what is to come.
  ghost predicate Reached(stream: seq<Item>, i: nat, cancelAt: nat, arrived: seq<Byte>) {
    && i <= |stream| && i <= cancelAt
    && Delivered(stream, cancelAt) == arrived + Arriving(stream, i, cancelAt)
    && EndingFrom(stream, i, cancelAt) == Ending(stream, cancelAt)
  }

  // Nothing more comes.
  lemma StreamOver(stream: seq<Item>, i: nat, cancelAt: nat, arrived: seq<Byte>, room: nat)
    requires Reached(stream, i, cancelAt, arrived) && |arrived| < room
    requires i == |stream| || i == cancelAt || stream[i].Broken?
    ensures Fitting(Delivered(stream, cancelAt), room) == arrived && |Delivered(stream, cancelAt)| < room
    ensures Ending(stream, cancelAt)
            == if i == |stream| then Ok(()) else if i == cancelAt then Err(ErrCancelled) else Err(ErrTransient)
  {
  }

  lemma NextItem(stream: seq<Item>, i: nat, cancelAt: nat, arrived: seq<Byte>, room: nat)
    requires Reached(stream, i, cancelAt, arrived) && |arrived| < room
    requires i < |stream| && i < cancelAt && stream[i].Data?
    ensures var body, chunk := Delivered(stream, cancelAt), stream[i].bytes;
            && Reached(stream, i + 1, cancelAt, arrived + chunk)
            && (|arrived| + |chunk| < room ==> Fitting(chunk, room - |arrived|) == chunk)
            && (|arrived| + |chunk| >= room ==>
                  |body| >= room && Fitting(body, room) == arrived + Fitting(chunk, room - |arrived|))
  {
    ChunkArrived(Delivered(stream, cancelAt), arrived, stream[i].bytes, Arriving(stream, i + 1, cancelAt), room);
  }

  // The bulk write a streamed segment amounts to.
  twostate predicate WroteOnce(file: array<Byte>, start: nat, piece: seq<Byte>, c: Counters)
    requires start + |piece| <= file.Length
    reads file, c
  {
    && file[..] == Patch(old(file[..]), start, piece)
    && c.current == start + |piece|
    && c.downloaded == old(c.downloaded) + |piece|
  }

  // What still counts once a chunk has arrived with room to spare, or without.
  lemma ChunkArrived(body: seq<Byte>, arrived: seq<Byte>, chunk: seq<Byte>, rest: seq<Byte>, room: nat)
    requires body == arrived + (chunk + rest) && |arrived| < room
    ensures |arrived| + |chunk| < room ==> body == arrived + chunk + rest && Fitting(chunk, room - |arrived|) == chunk
    ensures |arrived| + |chunk| >= room ==>
              |body| >= room && Fitting(body, room) == arrived + Fitting(chunk, room - |arrived|)
  {
  }

  /** A streamed segment is one bulk write: of the body that arrives, the part that fits
      before `end` is in the file at `start`, both counters moved by exactly its length,
      and nothing else changed. An error is reported only if it came before `end`. */
  method WriteStream(file: array<Byte>, start: nat, end: nat, stream: seq<Item>, cancelAt: nat, c: Counters)
      returns (r: Outcome)
    requires start < end <= file.Length && c.current == start
    modifies file, c
    ensures WroteOnce(file, start, Fitting(Delivered(stream, cancelAt), end - start), c)
    ensures r == if |Delivered(stream, cancelAt)| >= end - start then Ok(()) else Ending(stream, cancelAt)
  {
    var pos := start;
    var i := 0;
    ghost var arrived: seq<Byte> := [];
    assert Patch(file[..], start, []) == file[..];
    while i < |stream|
      invariant 0 <= i && Reached(stream, i, cancelAt, arrived)
      invariant pos == start + |arrived| < end
      invariant WroteOnce(file, start, arrived, c)
    {
      if i >= cancelAt {
        StreamOver(stream, i, cancelAt, arrived, end - start);
        return Err(ErrCancelled);
      }
      if stream[i].Broken? {
        StreamOver(stream, i, cancelAt, arrived, end - start);
        return Err(ErrTransient);
      }
      NextItem(stream, i, cancelAt, arrived, end - start);
      var chunk := stream[i].bytes;
      i := i + 1;
      if |chunk| == 0 {
        assert arrived + chunk == arrived;
        continue;
      }
      ghost var piece := Fitting(chunk, end - pos);
      PatchExtends(old(file[..]), start, arrived, piece);
      pos := WriteChunk(file, pos, end, chunk, c);
      arrived := arrived + piece;
      if pos >= end {
        return Ok(());
      }
    }
    StreamOver(stream, i, cancelAt, arrived, end - start);
    return Ok(());
  }

  // Writes a chunk, capped at the worker's end, and publishes the new position.
  method WriteChunk(file: array<Byte>, at: nat, end: nat, chunk: seq<Byte>, c: Counters) returns (pos: nat)
    requires at < end <= file.Length && chunk != []
    modifies file, c
    ensures var piece := Fitting(chunk, end - at);
            && file[..] == Patch(old(file[..]), at, piece)
            && pos == c.current == at + |piece|
            && c.downloaded == old(c.downloaded) + |piece|
  {
    var writeLen := if at + |chunk| > end then end - at else |chunk|;
    WriteAll(file, at, chunk[..writeLen]);
    pos := at + writeLen;
    c.current := pos;
    c.downloaded := c.downloaded + writeLen;
  }

  // write_all at the handle's position.
  method WriteAll(file: array<Byte>, at: nat, b: seq<Byte>)
    requires at + |b| <= file.Length
    modifies file
    ensures file[..] == Patch(old(file[..]), at, b)
  {
    forall k | 0 <= k < |b| {
      file[at + k] := b[k];
    }
  }

  // ----- one request -----

  // The bytes a reply puts into a range with that much room.
  function Received(reply: Reply, cancelAt: nat, room: nat): (r: seq<Byte>)
    ensures |r| <= room
  {
    if reply.PartialContent? then Fitting(Delivered(reply.stream, cancelAt), room) else []
  }

  function SegmentOutcome(reply: Reply, ifRange: bool, cancelAt: nat, room: nat): Outcome {
    match reply
    case SendFailed => Err(ErrTransient)
    case OtherStatus => Err(ErrTransient)
    case WholeEntity => Err(if ifRange then ErrResourceChanged else ErrNoRangeSupport)
    case RangeNotSatisfiable => Ok(())
    case PartialContent(stream) =>
      if |Delivered(stream, cancelAt)| >= room then Ok(()) else Ending(stream, cancelAt)
  }

  method DownloadSegment(file: array<Byte>, start: nat, end: nat, reply: Reply, ifRange: bool, cancelAt: nat, c: Counters)
      returns (r: Outcome)
    requires start < end <= file.Length && c.current == start
    modifies file, c
    ensures r == SegmentOutcome(reply, ifRange, cancelAt, end - start)
    ensures !reply.RangeNotSatisfiable? ==> WroteOnce(file, start, Received(reply, cancelAt, end - start), c)
    ensures reply.RangeNotSatisfiable? ==>
              file[..] == old(file[..]) && c.current == end && c.downloaded == old(c.downloaded)
  {
    match reply {
      case SendFailed => r := Err(ErrTransient);
      case OtherStatus => r := Err(ErrTransient);
      case WholeEntity => r := if ifRange then Err(ErrResourceChanged) else Err(ErrNoRangeSupport);
      case RangeNotSatisfiable =>
        c.current := end;
        r := Ok(());
      case PartialContent(stream) =>
        r := WriteStream(file, start, end, stream, cancelAt, c);
    }
    assert Patch(old(file[..]), start, []) == old(file[..]);
  }
}
