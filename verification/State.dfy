/** The resume state of a multi-thread download: the ranges its workers own,
    how those ranges are cut, and when a saved state may be used again. */
module State {
  import opened Wrappers

  const STATE_FILE_VERSION: nat := 2

  // A worker owns [start, end) and has fetched [start, current).
  datatype WorkerRange = WorkerRange(start: nat, current: nat, end: nat)

  datatype DownloadState = DownloadState(
    version: nat,
    url: string,
    fileSize: nat,
    etag: Option<string>,
    lastModified: Option<string>,
    workers: seq<WorkerRange>)

  // ----- which resource a state belongs to -----

  predicate IsWeak(etag: string) {
    "W/" <= etag
  }

  predicate MatchesResource(s: DownloadState, etag: Option<string>, lastModified: Option<string>) {
    if s.etag.Some? && etag.Some? && s.etag.value != etag.value then false
    else if s.etag.Some? && etag.Some? && !IsWeak(s.etag.value) then true
    else if s.lastModified.Some? && lastModified.Some? then s.lastModified.value == lastModified.value
    else true
  }

  // A tag that begins with W/.
  predicate WeakTag(tag: string) {
    |tag| >= 2 && tag[0] == 'W' && tag[1] == '/'
  }

  // Both are there, and they are not the same.
  predicate Differ(saved: Option<string>, current: Option<string>) {
    saved.Some? && current.Some? && saved != current
  }

  /** A state is refused only on evidence that the resource changed: its tags differ, or its
      dates differ and no equal strong tag says otherwise. Everything else is resumed. */
  lemma ResumeDecision(s: DownloadState, etag: Option<string>, lastModified: Option<string>)
    ensures var sameStrongTag := s.etag.Some? && s.etag == etag && !WeakTag(s.etag.value);
            MatchesResource(s, etag, lastModified)
            <==> !Differ(s.etag, etag) && (sameStrongTag || !Differ(s.lastModified, lastModified))
  {
    if s.etag.Some? {
      WeakIsPrefixed(s.etag.value);
    }
  }

  lemma WeakIsPrefixed(tag: string)
    ensures IsWeak(tag) <==> WeakTag(tag)
  {
    if |tag| >= 2 {
      assert tag[..2] == [tag[0], tag[1]];
    }
  }

  // ----- validation -----

  /** The ranges are ordered, gap-free, cover [0, size), and every position is inside its range. */
  ghost predicate Tiles(ws: seq<WorkerRange>, size: nat) {
    && |ws| > 0
    && ws[0].start == 0
    && ws[|ws| - 1].end == size
    && (forall i :: 0 <= i < |ws| ==> ws[i].start <= ws[i].current <= ws[i].end)
    && (forall i, j :: 0 <= i && j == i + 1 && j < |ws| ==> ws[i].end == ws[j].start)
  }

  ghost predicate Usable(s: DownloadState) {
    s.version == STATE_FILE_VERSION && Tiles(s.workers, s.fileSize)
  }

  datatype StateError =
    | VersionMismatch
    | NoWorkers
    | BadStart(worker: nat, expected: nat)
    | EndBeforeStart(worker: nat)
    | CurrentOutside(worker: nat)
    | WrongCover(covered: nat)

  // The first i workers tile the file up to expected.
  ghost predicate TilesTo(ws: seq<WorkerRange>, i: nat, expected: nat) {
    && i <= |ws|
    && (i == 0 ==> expected == 0)
    && (i > 0 ==> Tiles(ws[..i], expected))
  }

  // Worker i is the first at fault: those before it tile the file up to where it should begin.
  ghost predicate FirstFault(s: DownloadState, i: nat, expected: nat) {
    s.version == STATE_FILE_VERSION && i < |s.workers| && TilesTo(s.workers, i, expected)
  }

  /** What an error says about the state. */
  ghost predicate Cause(s: DownloadState, e: StateError) {
    match e
    case VersionMismatch => s.version != STATE_FILE_VERSION
    case NoWorkers => s.version == STATE_FILE_VERSION && s.workers == []
    case BadStart(i, expected) => FirstFault(s, i, expected) && s.workers[i].start != expected
    case EndBeforeStart(i) =>
      i < |s.workers| && FirstFault(s, i, s.workers[i].start) && s.workers[i].end < s.workers[i].start
    case CurrentOutside(i) =>
      && i < |s.workers| && FirstFault(s, i, s.workers[i].start) && s.workers[i].start <= s.workers[i].end
      && !(s.workers[i].start <= s.workers[i].current <= s.workers[i].end)
    case WrongCover(covered) =>
      s.version == STATE_FILE_VERSION && covered != s.fileSize && Tiles(s.workers, covered)
  }

  lemma TilesOneMore(ws: seq<WorkerRange>, i: nat, expected: nat)
    requires i < |ws| && TilesTo(ws, i, expected) && ws[i].start == expected
    requires ws[i].start <= ws[i].current <= ws[i].end
    ensures TilesTo(ws, i + 1, ws[i].end)
  {
    var before, after := ws[..i], ws[..i + 1];
    assert after == before + [ws[i]];
    assert forall j :: 0 <= j < i ==> after[j] == before[j];
  }

  lemma FaultIsUnusable(ws: seq<WorkerRange>, i: nat, expected: nat, size: nat)
    requires i < |ws| && TilesTo(ws, i, expected) && ws[i].start != expected
    ensures !Tiles(ws, size)
  {
    assert i > 0 ==> ws[i - 1] == ws[..i][i - 1];
  }

  /** Accepts exactly the usable states; an error tells its cause and, where it names a
      worker, the first one at fault. */
  method Validate(s: DownloadState) returns (r: Result<(), StateError>)
    ensures r.Ok? <==> Usable(s)
    ensures r.Err? ==> Cause(s, r.error)
  {
    if s.version != STATE_FILE_VERSION {
      return Err(VersionMismatch);
    }
    if |s.workers| == 0 {
      return Err(NoWorkers);
    }
    var expectedStart := 0;
    for i := 0 to |s.workers|
      invariant TilesTo(s.workers, i, expectedStart)
    {
      var w := s.workers[i];
      if w.start != expectedStart {
        FaultIsUnusable(s.workers, i, expectedStart, s.fileSize);
        return Err(BadStart(i, expectedStart));
      }
      if w.end < w.start {
        return Err(EndBeforeStart(i));
      }
      if w.current < w.start || w.current > w.end {
        return Err(CurrentOutside(i));
      }
      TilesOneMore(s.workers, i, expectedStart);
      expectedStart := w.end;
    }
    assert s.workers[..|s.workers|] == s.workers;
    if expectedStart != s.fileSize {
      return Err(WrongCover(expectedStart));
    }
    return Ok(());
  }

  lemma {:induction false} RangesInOrder(ws: seq<WorkerRange>, size: nat, i: nat, j: nat)
    requires Tiles(ws, size) && i < j < |ws|
    ensures ws[i].end <= ws[j].start
    decreases j
  {
    if i + 1 < j {
      RangesInOrder(ws, size, i, j - 1);
    }
  }

  lemma {:induction false} EndsBounded(ws: seq<WorkerRange>, size: nat, i: nat)
    requires Tiles(ws, size) && i < |ws|
    ensures ws[i].start <= ws[i].current <= ws[i].end <= size
  {
    if i + 1 < |ws| {
      RangesInOrder(ws, size, i, |ws| - 1);
    }
  }

  lemma {:induction false} Covering(ws: seq<WorkerRange>, size: nat, k: nat, n: nat) returns (i: nat)
    requires Tiles(ws, size) && n < |ws| && k < ws[n].end
    ensures i <= n && ws[i].start <= k < ws[i].end
  {
    if ws[n].start <= k {
      i := n;
    } else {
      assert ws[n - 1].end == ws[n].start;
      i := Covering(ws, size, k, n - 1);
    }
  }

  /** Every offset of the file belongs to exactly one worker. */
  lemma EveryOffsetHasOneWorker(ws: seq<WorkerRange>, size: nat, k: nat)
    requires Tiles(ws, size) && k < size
    ensures exists i :: 0 <= i < |ws| && ws[i].start <= k < ws[i].end
    ensures forall i, j | 0 <= i < |ws| && 0 <= j < |ws| ::
              (ws[i].start <= k < ws[i].end && ws[j].start <= k < ws[j].end ==> i == j)
  {
    var w := Covering(ws, size, k, |ws| - 1);
    forall i, j | 0 <= i < |ws| && 0 <= j < |ws|
      && ws[i].start <= k < ws[i].end && ws[j].start <= k < ws[j].end
      ensures i == j
    {
      if i < j { RangesInOrder(ws, size, i, j); }
      if j < i { RangesInOrder(ws, size, j, i); }
    }
  }

  // ----- bytes fetched -----

  function TotalDownloaded(ws: seq<WorkerRange>): int {
    if ws == [] then 0 else ws[0].current - ws[0].start + TotalDownloaded(ws[1..])
  }

  // Every worker is at its end.
  ghost predicate NothingLeft(ws: seq<WorkerRange>) {
    forall m :: 0 <= m < |ws| ==> ws[m].current == ws[m].end
  }

  lemma {:induction false} TotalAfterMove(ws: seq<WorkerRange>, i: nat, w: WorkerRange)
    requires i < |ws|
    ensures TotalDownloaded(ws[i := w])
            == TotalDownloaded(ws) - (ws[i].current - ws[i].start) + (w.current - w.start)
  {
    if i == 0 {
      assert ws[i := w][1..] == ws[1..];
    } else {
      assert ws[i := w][1..] == ws[1..][i - 1 := w];
      TotalAfterMove(ws[1..], i - 1, w);
    }
  }

  lemma {:induction false} TotalOfTail(ws: seq<WorkerRange>, size: nat, n: nat)
    requires Tiles(ws, size) && n < |ws|
    ensures 0 <= TotalDownloaded(ws[n..]) <= size - ws[n].start
    ensures TotalDownloaded(ws[n..]) == size - ws[n].start
            <==> forall i :: n <= i < |ws| ==> ws[i].current == ws[i].end
    decreases |ws| - n
  {
    assert ws[n..][1..] == ws[n + 1..];
    EndsBounded(ws, size, n);
    if n + 1 == |ws| {
      assert TotalDownloaded(ws[n..]) == ws[n].current - ws[n].start + TotalDownloaded(ws[n + 1..]);
    } else {
      TotalOfTail(ws, size, n + 1);
      EndsBounded(ws, size, n + 1);
      assert ws[n].end == ws[n + 1].start;
    }
  }

  /** The byte total neither underflows nor exceeds the file, and is the whole file
      exactly when every worker is at its end. */
  lemma TotalWithinFile(ws: seq<WorkerRange>, size: nat)
    requires Tiles(ws, size)
    ensures 0 <= TotalDownloaded(ws) <= size
    ensures TotalDownloaded(ws) == size <==> NothingLeft(ws)
  {
    TotalOfTail(ws, size, 0);
    assert ws[0..] == ws;
  }

  // ----- cutting a file into ranges -----

  function CeilDiv(a: nat, b: nat): nat
    requires b > 0
  {
    (a + b - 1) / b
  }

  /** How many workers the splitter uses. */
  function Effective(fileSize: nat, threads: nat, minChunk: nat): (n: nat)
    requires fileSize > 0
    ensures 1 <= n <= Max(1, threads)
  {
    if minChunk > 0
    then Max(1, Min(Max(1, threads), CeilDiv(fileSize, minChunk)))
    else Max(1, threads)
  }

  /** As many workers as there are threads, unless the file has no minimum piece for one of
      them: then the most that leave every worker but the last a minimum piece, and some
      bytes for the last. */
  lemma EffectiveIsMost(fileSize: nat, threads: nat, minChunk: nat, n: nat)
    requires fileSize > 0 && minChunk > 0
    ensures n == |Split(fileSize, threads, minChunk)|
            <==> 1 <= n <= Max(1, threads) && (n - 1) * minChunk < fileSize
                 && (n == Max(1, threads) || n * minChunk >= fileSize)
  {
    var e := Effective(fileSize, threads, minChunk);
    EffectiveBelowFile(fileSize, threads, minChunk);
    PiecesBound(fileSize, minChunk);
    if e < Max(1, threads) {
      assert e == CeilDiv(fileSize, minChunk);
      assert e * minChunk == minChunk * e;
    }
    if n >= 1 {
      if n < e { MulGrows(n, e - 1, minChunk); }
      if e < n { MulGrows(e, n - 1, minChunk); }
    }
  }

  /** With no minimum there is a worker for every thread. */
  lemma NoMinimumUsesAllThreads(fileSize: nat, threads: nat)
    requires fileSize > 0
    ensures |Split(fileSize, threads, 0)| == if threads > 1 then threads else 1
  {
  }

  /** Where range i begins when every range has length chunk. */
  function Cut(chunk: nat, i: nat): nat {
    if i == 0 then 0 else Cut(chunk, i - 1) + chunk
  }

  lemma {:induction false} CutIsProduct(chunk: nat, i: nat)
    ensures Cut(chunk, i) == i * chunk
  {
    if i > 0 {
      CutIsProduct(chunk, i - 1);
    }
  }

  function Ranges(fileSize: nat, n: nat, chunk: nat): seq<WorkerRange> {
    seq(n, i requires 0 <= i < n =>
      WorkerRange(Cut(chunk, i), Cut(chunk, i), if i == n - 1 then fileSize else Cut(chunk, i + 1)))
  }

  function Split(fileSize: nat, threads: nat, minChunk: nat): (ws: seq<WorkerRange>)
    requires fileSize > 0
    ensures |ws| == Effective(fileSize, threads, minChunk)
  {
    var n := Effective(fileSize, threads, minChunk);
    Ranges(fileSize, n, fileSize / n)
  }

  method SplitWorkers(fileSize: nat, threads: nat, minChunk: nat) returns (workers: seq<WorkerRange>)
    requires fileSize > 0
    ensures workers == Split(fileSize, threads, minChunk)
  {
    var effective := Effective(fileSize, threads, minChunk);
    var chunk := fileSize / effective;
    workers := [];
    var pos := 0;
    for i := 0 to effective
      invariant |workers| == i
      invariant i < effective ==> pos == Cut(chunk, i)
      invariant forall j :: 0 <= j < i ==> workers[j] == Ranges(fileSize, effective, chunk)[j]
    {
      var start := pos;
      var end := if i == effective - 1 then fileSize else start + chunk;
      workers := workers + [WorkerRange(start, start, end)];
      pos := end;
    }
    assert workers == Ranges(fileSize, effective, chunk);
  }

  lemma DivBounds(a: nat, b: nat)
    requires b > 0
    ensures b * (a / b) <= a < b * (a / b) + b
  {
  }

  lemma MulGrows(a: nat, b: nat, m: nat)
    requires a <= b
    ensures a * m <= b * m
  {
  }

  lemma DivUnique(a: nat, b: nat, q: nat)
    requires b > 0 && b * q <= a < b * q + b
    ensures a / b == q
  {
    DivBounds(a, b);
    if a / b < q { MulGrows(a / b + 1, q, b); }
    if a / b > q { MulGrows(q + 1, a / b, b); }
  }

  // Length of the ranges, as inequalities that involve no division.
  lemma ChunkBounds(fileSize: nat, n: nat) returns (chunk: nat)
    requires n > 0
    ensures chunk == fileSize / n
    ensures Cut(chunk, n) <= fileSize < Cut(chunk, n) + n
    ensures Cut(chunk, n) == Cut(chunk, n - 1) + chunk
    ensures Cut(chunk, n) == n * chunk
  {
    chunk := fileSize / n;
    DivBounds(fileSize, n);
    CutIsProduct(chunk, n);
  }

  /** The split is a partition of the file with nothing fetched yet. */
  lemma SplitTiles(fileSize: nat, threads: nat, minChunk: nat)
    requires fileSize > 0
    ensures var ws := Split(fileSize, threads, minChunk);
            Tiles(ws, fileSize) && forall i :: 0 <= i < |ws| ==> ws[i].current == ws[i].start
  {
    var chunk := ChunkBounds(fileSize, Effective(fileSize, threads, minChunk));
  }

  /** All ranges but the last have the same length, and the last is longer by less
      than the number of workers. */
  lemma SplitIsEven(fileSize: nat, threads: nat, minChunk: nat, i: nat)
    requires fileSize > 0
    requires i < Effective(fileSize, threads, minChunk)
    ensures var ws := Split(fileSize, threads, minChunk);
            var last := ws[|ws| - 1];
            0 <= (last.end - last.start) - (ws[i].end - ws[i].start) < |ws|
  {
    var chunk := ChunkBounds(fileSize, Effective(fileSize, threads, minChunk));
  }

  lemma ShortestRange(fileSize: nat, threads: nat, minChunk: nat, i: nat)
    requires fileSize > 0
    requires i < Effective(fileSize, threads, minChunk)
    ensures var ws := Split(fileSize, threads, minChunk);
            && ws[i].end - ws[i].start >= fileSize / |ws|
            && (i < |ws| - 1 || |ws| == 1 ==> ws[i].end - ws[i].start == fileSize / |ws|)
  {
    var n := Effective(fileSize, threads, minChunk);
    var chunk := ChunkBounds(fileSize, n);
    if n == 1 {
      assert fileSize / 1 == fileSize;
    }
  }

  // More than one worker means the file is longer than all minimum pieces but the last.
  lemma EffectiveBelowFile(fileSize: nat, threads: nat, minChunk: nat)
    requires fileSize > 0 && minChunk > 0
    ensures var n := Effective(fileSize, threads, minChunk); (n - 1) * minChunk < fileSize
  {
    var n, pieces := Effective(fileSize, threads, minChunk), CeilDiv(fileSize, minChunk);
    DivBounds(fileSize + minChunk - 1, minChunk);
    if n > 1 {
      MulGrows(n, pieces, minChunk);
      assert (n - 1) * minChunk == n * minChunk - minChunk;
    }
  }

  lemma HalfMinimum(size: nat, n: nat, chunk: nat, m: nat)
    requires n > 1 && m > 0 && (n - 1) * m < size < n * chunk + n
    ensures 2 * chunk >= m && chunk >= 1
  {
    if 2 * chunk < m {
      MulGrows(2 * chunk + 1, m, n - 1);
      assert m * (n - 1) == (n - 1) * m;
      assert (2 * chunk + 1) * (n - 1) == 2 * (n * chunk) - 2 * chunk + n - 1;
      MulGrows(2, n, chunk);
      assert false;
    }
  }

  lemma EnoughForEach(fileSize: nat, threads: nat, minChunk: nat)
    requires fileSize > 0 && minChunk > 0
    ensures var n := Effective(fileSize, threads, minChunk);
            fileSize / n >= 1 && (n > 1 ==> 2 * (fileSize / n) >= minChunk)
  {
    var n := Effective(fileSize, threads, minChunk);
    if n > 1 {
      EffectiveBelowFile(fileSize, threads, minChunk);
      DivBounds(fileSize, n);
      HalfMinimum(fileSize, n, fileSize / n, minChunk);
    } else {
      assert fileSize / 1 == fileSize;
    }
  }

  /** With a positive minimum no range is empty, and two or more workers each get at
      least half of the minimum. */
  lemma SplitAtLeastHalfMinimum(fileSize: nat, threads: nat, minChunk: nat, i: nat)
    requires fileSize > 0 && minChunk > 0
    requires i < Effective(fileSize, threads, minChunk)
    ensures var ws := Split(fileSize, threads, minChunk);
            && ws[i].start < ws[i].end
            && (|ws| > 1 ==> 2 * (ws[i].end - ws[i].start) >= minChunk)
  {
    ShortestRange(fileSize, threads, minChunk, i);
    EnoughForEach(fileSize, threads, minChunk);
  }

  lemma QuotientAtLeast(size: nat, n: nat, m: nat)
    requires n > 0
    ensures size / n >= m <==> n * m <= size
  {
    DivBounds(size, n);
    if size / n >= m { MulGrows(m, size / n, n); }
    if size / n < m { MulGrows(size / n + 1, m, n); }
  }

  lemma RoundUp(q: nat, r: nat, m: nat)
    requires r < m
    ensures (m * q + r + m - 1) / m == if r == 0 then q else q + 1
  {
    assert m * (q + 1) == m * q + m;
    DivUnique(m * q + r + m - 1, m, if r == 0 then q else q + 1);
  }

  lemma PiecesBound(size: nat, m: nat)
    requires size > 0 && m > 0
    ensures var p := CeilDiv(size, m);
            p >= 1 && m * p >= size && (m * p == size <==> size % m == 0)
  {
    var q, r := size / m, size % m;
    assert size == m * q + r;
    RoundUp(q, r, m);
  }

  /** The splitter's comment promises at least the minimum for every range. That holds
      exactly when the file is big enough for all threads or a multiple of the minimum. */
  lemma SplitKeepsMinimumIff(fileSize: nat, threads: nat, minChunk: nat)
    requires fileSize > 0 && minChunk > 0
    ensures var ws := Split(fileSize, threads, minChunk);
            (forall i :: 0 <= i < |ws| ==> ws[i].end - ws[i].start >= minChunk)
            <==> (Max(1, threads) * minChunk <= fileSize || fileSize % minChunk == 0)
  {
    var ws := Split(fileSize, threads, minChunk);
    forall i | 0 <= i < |ws| ensures ws[i].end - ws[i].start >= fileSize / |ws| {
      ShortestRange(fileSize, threads, minChunk, i);
    }
    ShortestRange(fileSize, threads, minChunk, 0);
    QuotientAtLeast(fileSize, |ws|, minChunk);
    EffectiveKeepsMinimumIff(fileSize, threads, minChunk);
  }

  lemma EffectiveKeepsMinimumIff(fileSize: nat, threads: nat, minChunk: nat)
    requires fileSize > 0 && minChunk > 0
    ensures Effective(fileSize, threads, minChunk) * minChunk <= fileSize
            <==> (Max(1, threads) * minChunk <= fileSize || fileSize % minChunk == 0)
  {
    var t, pieces := Max(1, threads), CeilDiv(fileSize, minChunk);
    PiecesBound(fileSize, minChunk);
    if t <= pieces {
      MulGrows(t, pieces, minChunk);
    } else {
      MulGrows(pieces, t, minChunk);
    }
  }

  /** The promise fails for a file of 1001 bytes, 16 threads and a minimum of 500:
      the three ranges are shorter than 500 bytes. */
  lemma SplitBelowMinimumExample()
    ensures var ws := Split(1001, 16, 500); |ws| == 3 && ws[0].end - ws[0].start == 333
  {
    assert CeilDiv(1001, 500) == 3;
    assert 1001 / 3 == 333;
    assert Cut(333, 1) == 333;
  }
}
