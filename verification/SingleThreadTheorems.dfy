/** What a single-thread run leaves behind, over every number of attempts, truncation
    and change of the resource. */
module SingleThreadTheorems {
  import opened Wrappers
  import opened Http
  import opened Segment
  import opened SingleThread

  // The resource over time, the version the probe saw, and the version at each attempt.
  datatype World = World(versions: seq<Resource>, probed: nat, at: nat -> nat)

  ghost predicate Forward(w: World) {
    && w.probed < |w.versions|
    && (forall t: nat :: w.probed <= w.at(t) < |w.versions|)
    && (forall t: nat, u: nat :: t <= u ==> w.at(t) <= w.at(u))
  }

  ghost predicate Carries(stream: seq<Item>, b: seq<Byte>, from: nat) {
    forall k: nat :: from + |Delivered(stream, k)| <= |b|
                     && Delivered(stream, k) == b[from..from + |Delivered(stream, k)|]
  }

  /** The origin honours If-Range: a requested range comes from the version the validator
      names, and any other body is the beginning of the version it has. */
  ghost predicate HonestOrigin(origin: Origin, w: World)
    requires Forward(w)
  {
    forall t: nat, ranged: bool, n: nat ::
      var a, r := origin(t, ranged, n), w.versions[w.at(t)];
      a.Answer? && !a.status.NotSuccess? ==>
        && (ranged && a.status.Part? ==>
              Honours(IfRangeValidator(w.versions[w.probed]), r) && Carries(a.stream, r.bytes, n))
        && (!(ranged && a.status.Part?) ==> Carries(a.stream, r.bytes, 0))
  }

  // Headers that announce a length announce the right one.
  ghost predicate TrueTotals(origin: Origin, w: World)
    requires Forward(w)
  {
    forall t: nat, ranged: bool, n: nat ::
      var a := origin(t, ranged, n);
      a.Answer? && a.total.Some? ==> a.total.value == |w.versions[w.at(t)].bytes|
  }

  ghost predicate PrefixOf(data: seq<Byte>, w: World, v: nat) {
    w.probed <= v < |w.versions| && data <= w.versions[v].bytes
  }

  lemma TakePrefix(b: seq<Byte>, from: nat, stream: seq<Item>, k: nat, room: Option<nat>)
    requires Carries(stream, b, from)
    ensures from <= |b| && b[..from] + Take(Delivered(stream, k), room) <= b
  {
    var d := Delivered(stream, k);
    assert from + |d| <= |b| && d == b[from..from + |d|];
    var n := |Take(d, room)|;
    assert b[..from] + d[..n] == b[..from + n];
  }

  /** One attempt keeps the file a prefix of one version: the same one, or the one the
      server has. */
  lemma AttemptKeepsOneVersion(data: seq<Byte>, v: nat, plan: Plan, t: nat, origin: Origin, watch: Watch, w: World)
      returns (v': nat)
    requires Identifies(w.versions) && Forward(w) && HonestOrigin(origin, w)
    requires PrefixOf(data, w, v) && v <= w.at(t)
    ensures v <= v' <= w.at(t) && PrefixOf(Attempt(data, plan, t, origin, watch).0, w, v')
    ensures v' != v ==> v' == w.at(t)
    ensures Attempt(data, plan, t, origin, watch).1.Ok? && !LooksComplete(data, plan) ==> v' == w.at(t)
  {
    v' := v;
    var ranged := Resumes(data, plan);
    var a := origin(t, ranged, |data|);
    if !LooksComplete(data, plan) && !watch.send && a.Answer? && !a.status.NotSuccess? {
      var r := w.versions[w.at(t)];
      var base := Base(data, plan, a.status);
      var room := Room(AnnouncedTotal(data, plan, a), |base|);
      if ranged && a.status.Part? {
        assert w.at(t) == w.probed == v;
        TakePrefix(r.bytes, |data|, a.stream, watch.item, room);
        assert data == r.bytes[..|data|];
      } else {
        TakePrefix(r.bytes, 0, a.stream, watch.item, room);
        assert r.bytes[..0] == [];
        v' := w.at(t);
      }
    }
  }

  /** Across all attempts the file is a prefix of exactly one version, never a mix. */
  lemma {:induction false} RunKeepsOneVersion(data: seq<Byte>, v: nat, plan: Plan, t: nat, origin: Origin,
                                              watch: nat -> Watch, w: World) returns (v': nat)
    requires Identifies(w.versions) && Forward(w) && HonestOrigin(origin, w)
    requires PrefixOf(data, w, v) && v <= w.at(t)
    ensures v <= v' && PrefixOf(Run(data, plan, t, origin, watch).0, w, v')
    decreases plan.maxRetries - t
  {
    v' := v;
    if !watch(t).head {
      v' := AttemptKeepsOneVersion(data, v, plan, t, origin, watch(t), w);
      var (data', r) := Attempt(data, plan, t, origin, watch(t));
      if r.Err? && r.error != ErrCancelled && t + 1 < plan.maxRetries && !watch(t).backoff {
        v' := RunKeepsOneVersion(data', v', plan, t + 1, origin, watch, w);
      }
    }
  }

  // ----- completeness -----

  ghost predicate KnowsSize(plan: Plan, w: World) {
    w.probed < |w.versions| && plan.expected == Some(|w.versions[w.probed].bytes|)
  }

  /** An attempt that ends well has a whole version, unless it trusted the length of what
      was already there. */
  lemma AttemptOkIsWhole(data: seq<Byte>, v: nat, plan: Plan, t: nat, origin: Origin, watch: Watch, w: World)
      returns (v': nat)
    requires Identifies(w.versions) && Forward(w) && HonestOrigin(origin, w) && TrueTotals(origin, w)
    requires KnowsSize(plan, w) && PrefixOf(data, w, v) && v <= w.at(t)
    requires Attempt(data, plan, t, origin, watch).1.Ok?
    ensures var end := Attempt(data, plan, t, origin, watch).0;
            && v <= v' && PrefixOf(end, w, v') && (v' != v ==> v' == w.at(t))
            && (end == w.versions[v'].bytes || |end| >= plan.expected.value)
  {
    v' := AttemptKeepsOneVersion(data, v, plan, t, origin, watch, w);
  }

  /** A finished run has a whole version, or at least as many bytes as the probe announced
      of one version: the one it began with, or the one the server had at some attempt. */
  lemma {:induction false} FinishedRun(data: seq<Byte>, v: nat, plan: Plan, t: nat, origin: Origin,
                                       watch: nat -> Watch, w: World) returns (v': nat, u: nat)
    requires Identifies(w.versions) && Forward(w) && HonestOrigin(origin, w) && TrueTotals(origin, w)
    requires KnowsSize(plan, w) && PrefixOf(data, w, v) && v <= w.at(t)
    requires Run(data, plan, t, origin, watch).1 == Finished
    ensures var end := Run(data, plan, t, origin, watch).0;
            && PrefixOf(end, w, v')
            && (end == w.versions[v'].bytes || |end| >= plan.expected.value)
    ensures v <= v' && t <= u && (v' == v || v' == w.at(u))
    decreases plan.maxRetries - t
  {
    u := t;
    if Attempt(data, plan, t, origin, watch(t)).1.Ok? {
      v' := AttemptOkIsWhole(data, v, plan, t, origin, watch(t), w);
    } else {
      v' := AttemptKeepsOneVersion(data, v, plan, t, origin, watch(t), w);
      var v1 := v';
      v', u := FinishedRun(Attempt(data, plan, t, origin, watch(t)).0, v1, plan, t + 1, origin, watch, w);
      if v' == v1 && v1 != v {
        u := t;
      }
    }
  }

  /** While the resource does not change, a finished run has exactly its bytes. */
  lemma UnchangedFinishedRunIsExact(data: seq<Byte>, plan: Plan, t: nat, origin: Origin, watch: nat -> Watch, w: World)
    requires Identifies(w.versions) && Forward(w) && HonestOrigin(origin, w) && TrueTotals(origin, w)
    requires KnowsSize(plan, w) && data <= w.versions[w.probed].bytes
    requires forall u: nat :: w.at(u) == w.probed
    requires Run(data, plan, t, origin, watch).1 == Finished
    ensures Run(data, plan, t, origin, watch).0 == w.versions[w.probed].bytes
  {
    var v, u := FinishedRun(data, w.probed, plan, t, origin, watch, w);
  }

  // ----- a version that grows during the run -----

  /** The server announces every length, and sends 206 only when a range was asked for. */
  ghost predicate Announces(origin: Origin) {
    forall t: nat, ranged: bool, n: nat ::
      var a := origin(t, ranged, n);
      a.Answer? && !a.status.NotSuccess? ==> a.total.Some? && (a.status.Part? ==> ranged)
  }

  ghost predicate HonestServer(origin: Origin, w: World, strict: bool) {
    Forward(w) && HonestOrigin(origin, w) && TrueTotals(origin, w) && (strict ==> Announces(origin))
  }

  function Changing(before: Resource, after: Resource, at: nat -> nat): World {
    World([before, after], 0, at)
  }

  // If the run finishes and passes the final size check, it has a whole version.
  ghost predicate EndsWhole(before: Resource, after: Resource, plan: Plan, strict: bool, at: nat -> nat,
                            origin: Origin, watch: nat -> Watch) {
    var (end, verdict) := Run([], plan, 0, origin, watch);
    HonestServer(origin, Changing(before, after, at), strict) && verdict == Finished && |end| == |before.bytes|
    ==> end == before.bytes || end == after.bytes
  }

  /** Every finished run from an empty file, of a resource that may change from `before` to
      `after` meanwhile, has one whole version exactly when the new version is not longer, or
      continues the old one; or when a strict server leaves no room for a second attempt. */
  lemma FinishedRunIsExactIff(before: Resource, after: Resource, plan: Plan, strict: bool)
    requires Identifies([before, after]) && plan.expected == Some(|before.bytes|)
    ensures (forall at, origin, watch :: EndsWhole(before, after, plan, strict, at, origin, watch))
            <==> (|after.bytes| <= |before.bytes| || before.bytes <= after.bytes || (strict && plan.maxRetries < 2))
  {
    if |after.bytes| <= |before.bytes| || before.bytes <= after.bytes || (strict && plan.maxRetries < 2) {
      forall at, origin, watch ensures EndsWhole(before, after, plan, strict, at, origin, watch) {
        WholeWhen(before, after, plan, strict, at, origin, watch);
      }
    } else if strict {
      var origin, watch := TruncatedVersionMayPass(before, after, plan);
      assert !EndsWhole(before, after, plan, strict, AlwaysLater(), origin, watch);
    } else {
      var origin, watch := UnannouncedVersionMayPass(before, after, plan);
      assert !EndsWhole(before, after, plan, strict, AlwaysLater(), origin, watch);
    }
  }

  lemma WholeWhen(before: Resource, after: Resource, plan: Plan, strict: bool, at: nat -> nat,
                  origin: Origin, watch: nat -> Watch)
    requires Identifies([before, after]) && plan.expected == Some(|before.bytes|)
    requires |after.bytes| <= |before.bytes| || before.bytes <= after.bytes || (strict && plan.maxRetries < 2)
    ensures EndsWhole(before, after, plan, strict, at, origin, watch)
  {
    var w := Changing(before, after, at);
    var (end, verdict) := Run([], plan, 0, origin, watch);
    if HonestServer(origin, w, strict) && verdict == Finished && |end| == |before.bytes| {
      if |after.bytes| <= |before.bytes| || before.bytes <= after.bytes {
        var v, u := FinishedRun([], 0, plan, 0, origin, watch, w);
      } else {
        OnlyAttemptIsWhole(plan, origin, watch(0), w);
      }
    }
  }

  // One attempt at a strict server, on an empty file, ends well only with a whole version.
  lemma OnlyAttemptIsWhole(plan: Plan, origin: Origin, watch: Watch, w: World)
    requires Identifies(w.versions) && HonestServer(origin, w, true) && KnowsSize(plan, w)
    requires Attempt([], plan, 0, origin, watch).1.Ok?
    ensures Attempt([], plan, 0, origin, watch).0 == w.versions[w.at(0)].bytes
  {
    var v := AttemptKeepsOneVersion([], w.probed, plan, 0, origin, watch, w);
  }

  // The server has the later version all the time.
  function AlwaysLater(): nat -> nat {
    (t: nat) => 1
  }

  function Uninterrupted(): nat -> Watch {
    (t: nat) => Watch(false, false, 2, false)
  }

  function BreaksAfter(b: seq<Byte>, n: nat): Origin
    requires n <= |b|
  {
    (t, ranged, k) => Answer(Whole, Some(|b|), [Data(b[..n]), Broken])
  }

  lemma BrokenDelivers(b: seq<Byte>, k: nat)
    ensures Delivered([Data(b), Broken], k) == if k == 0 then [] else b
  {
    assert Arriving([Data(b), Broken], 1, k) == [];
  }

  lemma BreaksHonestly(before: Resource, after: Resource, n: nat)
    requires n <= |after.bytes|
    ensures HonestServer(BreaksAfter(after.bytes, n), Changing(before, after, AlwaysLater()), true)
  {
    var piece := after.bytes[..n];
    forall k: nat
      ensures |Delivered([Data(piece), Broken], k)| <= |after.bytes|
              && Delivered([Data(piece), Broken], k) == after.bytes[0..|Delivered([Data(piece), Broken], k)|]
    {
      BrokenDelivers(piece, k);
    }
    assert Carries([Data(piece), Broken], after.bytes, 0);
  }

  lemma FirstAttemptBreaks(b: seq<Byte>, n: nat, plan: Plan, watch: Watch)
    requires 0 < n < |b| && !watch.send && watch.item == 2
    ensures Attempt([], plan, 0, BreaksAfter(b, n), watch) == (b[..n], Err(ErrTransient))
  {
    var stream, room := [Data(b[..n]), Broken], Room(Some(|b|), 0);
    BrokenDelivers(b[..n], 2);
    assert ReadingEnds(stream, 1, 2, Used(room, n)) == Err(ErrTransient);
    assert ReadingEnds(stream, 0, 2, room) == ReadingEnds(stream, 1, 2, Used(room, n));
    assert [] + b[..n] == b[..n] && Take(b[..n], room) == b[..n];
  }

  /** The stream of a longer version breaks exactly at the length the probe announced: the
      next attempt takes the file for complete, the size check passes, and what is left is
      a truncated version. */
  lemma TruncatedVersionMayPass(before: Resource, after: Resource, plan: Plan) returns (origin: Origin, watch: nat -> Watch)
    requires plan.expected == Some(|before.bytes|) && plan.maxRetries >= 2
    requires 0 < |before.bytes| < |after.bytes|
    ensures HonestServer(origin, Changing(before, after, AlwaysLater()), true)
    ensures Run([], plan, 0, origin, watch) == (after.bytes[..|before.bytes|], Finished)
  {
    var n := |before.bytes|;
    origin, watch := BreaksAfter(after.bytes, n), Uninterrupted();
    BreaksHonestly(before, after, n);
    FirstAttemptBreaks(after.bytes, n, plan, watch(0));
    assert Run(after.bytes[..n], plan, 1, origin, watch) == (after.bytes[..n], Finished);
  }

  function Unannounced(b: seq<Byte>): Origin {
    (t, ranged, k) => Answer(Whole, None, [Data(b)])
  }

  lemma OneChunkDelivers(b: seq<Byte>, k: nat)
    ensures Delivered([Data(b)], k) == if k == 0 then [] else b
  {
    assert Arriving([Data(b)], 1, k) == [];
  }

  lemma UnannouncedIsHonest(before: Resource, after: Resource)
    ensures HonestServer(Unannounced(after.bytes), Changing(before, after, AlwaysLater()), false)
  {
    forall k: nat
      ensures |Delivered([Data(after.bytes)], k)| <= |after.bytes|
              && Delivered([Data(after.bytes)], k) == after.bytes[0..|Delivered([Data(after.bytes)], k)|]
    {
      OneChunkDelivers(after.bytes, k);
    }
    assert Carries([Data(after.bytes)], after.bytes, 0);
  }

  // With no length announced, the body of a longer version is cut to the probed length.
  lemma UnannouncedVersionMayPass(before: Resource, after: Resource, plan: Plan)
      returns (origin: Origin, watch: nat -> Watch)
    requires plan.expected == Some(|before.bytes|) && 0 < |before.bytes| < |after.bytes|
    ensures HonestServer(origin, Changing(before, after, AlwaysLater()), false)
    ensures Run([], plan, 0, origin, watch) == (after.bytes[..|before.bytes|], Finished)
  {
    origin, watch := Unannounced(after.bytes), Uninterrupted();
    UnannouncedIsHonest(before, after);
    var stream, room := [Data(after.bytes)], Room(plan.expected, 0);
    OneChunkDelivers(after.bytes, 2);
    assert ReadingEnds(stream, 1, 2, Used(room, |after.bytes|)) == Ok(());
    assert ReadingEnds(stream, 0, 2, room) == Ok(());
    assert [] + after.bytes[..|before.bytes|] == after.bytes[..|before.bytes|];
  }

  // ----- a second run on what a first one left -----

  // A resource that does not change.
  function Constant(r: Resource): World {
    World([r], 0, (t: nat) => 0)
  }

  function Probing(plan: Plan, r: Resource): Plan {
    plan.(expected := Some(|r.bytes|))
  }

  // If a run over this file finishes and passes the size check, it has the resource.
  ghost predicate EndsExact(r: Resource, data: seq<Byte>, plan: Plan, origin: Origin, watch: nat -> Watch) {
    var (end, verdict) := Run(data, Probing(plan, r), 0, origin, watch);
    HonestServer(origin, Constant(r), false) && verdict == Finished && |end| == |r.bytes| ==> end == r.bytes
  }

  // The run would build on the file instead of replacing it.
  predicate Trusted(r: Resource, data: seq<Byte>, plan: Plan) {
    0 < |data| <= |r.bytes| && (|data| == |r.bytes| || (plan.ranges && Honours(IfRangeValidator(r), r)))
  }

  /** All runs over a leftover file, of a resource that does not change, are exact if and only
      if the leftover is not built upon or is a prefix of the resource. Validators play no
      part: the one sent is that of this run's probe, whoever wrote the leftover. */
  lemma RerunIsExactIff(r: Resource, data: seq<Byte>, plan: Plan)
    ensures (forall origin, watch :: EndsExact(r, data, plan, origin, watch))
            <==> !Trusted(r, data, plan) || data <= r.bytes
  {
    if data <= r.bytes {
      forall origin, watch ensures EndsExact(r, data, plan, origin, watch) {
        PrefixEndsExact(r, data, plan, origin, watch);
      }
    } else if Trusted(r, data, plan) {
      ForeignPrefixIsKept(r, data, plan);
      assert !EndsExact(r, data, plan, RestOf(r), Uninterrupted());
    } else {
      forall origin, watch ensures EndsExact(r, data, plan, origin, watch) {
        if HonestServer(origin, Constant(r), false) && Run(data, Probing(plan, r), 0, origin, watch).1 == Finished {
          ReplacedEndsExact(r, data, plan, 0, origin, watch);
        }
      }
    }
  }

  lemma OneVersionIdentifies(r: Resource)
    ensures Identifies(Constant(r).versions) && Forward(Constant(r))
  {
  }

  lemma PrefixEndsExact(r: Resource, data: seq<Byte>, plan: Plan, origin: Origin, watch: nat -> Watch)
    requires data <= r.bytes
    ensures EndsExact(r, data, plan, origin, watch)
  {
    OneVersionIdentifies(r);
    if HonestServer(origin, Constant(r), false) && Run(data, Probing(plan, r), 0, origin, watch).1 == Finished {
      UnchangedFinishedRunIsExact(data, Probing(plan, r), 0, origin, watch, Constant(r));
    }
  }

  // A file that is not built upon is replaced, or kept at its wrong length.
  lemma {:induction false} ReplacedEndsExact(r: Resource, data: seq<Byte>, plan: Plan, t: nat, origin: Origin,
                                             watch: nat -> Watch)
    requires HonestServer(origin, Constant(r), false) && (!Trusted(r, data, plan) || data <= r.bytes)
    requires Run(data, Probing(plan, r), t, origin, watch).1 == Finished
    ensures var end := Run(data, Probing(plan, r), t, origin, watch).0; |end| == |r.bytes| ==> end == r.bytes
    decreases plan.maxRetries - t
  {
    if data <= r.bytes {
      OneVersionIdentifies(r);
      UnchangedFinishedRunIsExact(data, Probing(plan, r), t, origin, watch, Constant(r));
    } else if !LooksComplete(data, Probing(plan, r)) {
      ReplacedAttempt(r, data, plan, t, origin, watch(t));
      var (data', ended) := Attempt(data, Probing(plan, r), t, origin, watch(t));
      if ended.Err? {
        ReplacedEndsExact(r, data', plan, t + 1, origin, watch);
      }
    }
  }

  lemma ReplacedAttempt(r: Resource, data: seq<Byte>, plan: Plan, t: nat, origin: Origin, watch: Watch)
    requires HonestServer(origin, Constant(r), false) && !Trusted(r, data, plan)
    requires !LooksComplete(data, Probing(plan, r))
    ensures var (data', ended) := Attempt(data, Probing(plan, r), t, origin, watch);
            (data' == data || data' <= r.bytes) && (ended.Ok? ==> data' == r.bytes)
  {
    var a := origin(t, Resumes(data, plan), |data|);
    if !watch.send && a.Answer? && !a.status.NotSuccess? {
      assert !(Resumes(data, plan) && a.status.Part?);
      TakePrefix(r.bytes, 0, a.stream, watch.item, Room(AnnouncedTotal(data, Probing(plan, r), a), 0));
      assert r.bytes[..0] == [];
    }
  }

  // Answers every range request it may answer with the rest of r.
  function RestOf(r: Resource): Origin {
    (t: nat, ranged: bool, n: nat) =>
      if ranged && n <= |r.bytes| && Honours(IfRangeValidator(r), r)
      then Answer(Part, Some(|r.bytes|), [Data(r.bytes[n..])]) else NoAnswer
  }

  lemma RestIsHonest(r: Resource)
    ensures HonestServer(RestOf(r), Constant(r), true)
  {
    forall n: nat | n <= |r.bytes| ensures Carries([Data(r.bytes[n..])], r.bytes, n) {
      forall k: nat
        ensures var d := Delivered([Data(r.bytes[n..])], k); n + |d| <= |r.bytes| && d == r.bytes[n..n + |d|]
      {
        OneChunkDelivers(r.bytes[n..], k);
      }
    }
  }

  lemma RestIsAppended(r: Resource, data: seq<Byte>, plan: Plan, watch: Watch)
    requires 0 < |data| < |r.bytes| && plan.ranges && Honours(IfRangeValidator(r), r)
    requires !watch.send && watch.item == 2
    ensures Attempt(data, Probing(plan, r), 0, RestOf(r), watch) == (data + r.bytes[|data|..], Ok(()))
  {
    var rest := r.bytes[|data|..];
    var stream, room := [Data(rest)], Room(Some(|r.bytes|), |data|);
    OneChunkDelivers(rest, 2);
    assert ReadingEnds(stream, 1, 2, Used(room, |rest|)) == Ok(());
    assert ReadingEnds(stream, 0, 2, room) == Ok(());
    assert Take(rest, room) == rest;
  }

  // The rest of r is appended to whatever is there.
  lemma ForeignPrefixIsKept(r: Resource, data: seq<Byte>, plan: Plan)
    requires Trusted(r, data, plan)
    ensures Run(data, Probing(plan, r), 0, RestOf(r), Uninterrupted()) == (data + r.bytes[|data|..], Finished)
    ensures !(data <= r.bytes) ==> !EndsExact(r, data, plan, RestOf(r), Uninterrupted())
  {
    RestIsHonest(r);
    if |data| < |r.bytes| {
      RestIsAppended(r, data, plan, Uninterrupted()(0));
    } else {
      assert data + r.bytes[|data|..] == data;
    }
  }

  // What an interrupted first run of a constant resource can leave, from an empty file.
  ghost predicate LeavesBehind(r: Resource, plan: Plan, data: seq<Byte>) {
    exists origin, watch :: HonestServer(origin, Constant(r), false) && Run([], Probing(plan, r), 0, origin, watch).0 == data
  }

  lemma LeftoversArePrefixes(r: Resource, plan: Plan, data: seq<Byte>)
    ensures LeavesBehind(r, plan, data) <==> data <= r.bytes
  {
    if LeavesBehind(r, plan, data) {
      var origin, watch :| HonestServer(origin, Constant(r), false) && Run([], Probing(plan, r), 0, origin, watch).0 == data;
      OneVersionIdentifies(r);
      var v := RunKeepsOneVersion([], 0, Probing(plan, r), 0, origin, watch, Constant(r));
    }
    if data <= r.bytes {
      CancelledRunLeaves(r, plan, |data|);
    }
  }

  lemma CancelledRunLeaves(r: Resource, plan: Plan, n: nat)
    requires n <= |r.bytes|
    ensures LeavesBehind(r, plan, r.bytes[..n])
  {
    var piece, origin := r.bytes[..n], BreaksAfter(r.bytes, n);
    var watch := (t: nat) => Watch(false, false, 1, false);
    forall k: nat
      ensures |Delivered([Data(piece), Broken], k)| <= |r.bytes|
              && Delivered([Data(piece), Broken], k) == r.bytes[0..|Delivered([Data(piece), Broken], k)|]
    {
      BrokenDelivers(piece, k);
    }
    assert Carries([Data(piece), Broken], r.bytes, 0);
    assert HonestServer(origin, Constant(r), false);
    CancelledAttemptLeaves(r, plan, n);
    assert Run([], Probing(plan, r), 0, origin, watch).0 == piece;
  }

  lemma CancelledAttemptLeaves(r: Resource, plan: Plan, n: nat)
    requires n <= |r.bytes|
    ensures Attempt([], Probing(plan, r), 0, BreaksAfter(r.bytes, n), Watch(false, false, 1, false))
            == (r.bytes[..n], Err(ErrCancelled))
  {
    var piece := r.bytes[..n];
    var stream, room := [Data(piece), Broken], Room(Some(|r.bytes|), 0);
    BrokenDelivers(piece, 1);
    assert Take(piece, room) == piece && [] + piece == piece;
    assert ReadingEnds(stream, 1, 1, Used(room, n)) == Err(ErrCancelled);
    assert ReadingEnds(stream, 0, 1, room) == ReadingEnds(stream, 1, 1, Used(room, n));
  }

  /** Two runs with a change of the resource between them, strong validators or not: every
      second run is exact, whatever the first one left, if and only if one version is a
      prefix of the other. */
  lemma TwoRunsAreSafeIff(before: Resource, after: Resource, plan: Plan)
    requires plan.ranges && Honours(IfRangeValidator(after), after)
    ensures (forall data, origin, watch | LeavesBehind(before, plan, data) :: EndsExact(after, data, plan, origin, watch))
            <==> (before.bytes <= after.bytes || after.bytes <= before.bytes)
  {
    var n := Min(|before.bytes|, |after.bytes|);
    if before.bytes <= after.bytes || after.bytes <= before.bytes {
      forall data, origin, watch | LeavesBehind(before, plan, data)
        ensures EndsExact(after, data, plan, origin, watch)
      {
        LeftoversArePrefixes(before, plan, data);
        RerunIsExactIff(after, data, plan);
      }
    } else {
      LeftoversArePrefixes(before, plan, before.bytes[..n]);
      ForeignPrefixIsKept(after, before.bytes[..n], plan);
      assert !EndsExact(after, before.bytes[..n], plan, RestOf(after), Uninterrupted());
    }
  }
}
