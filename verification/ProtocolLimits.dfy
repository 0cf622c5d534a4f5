/** Where the guarantees end: for every configuration that downloads with several threads,
    executions that return Ok over wrong bytes once an assumption is dropped, and the
    exact conditions. */
module ProtocolLimits {
  import opened Wrappers
  import opened State
  import opened Http
  import opened Protocol
  import opened ProtocolContent
  import opened ProtocolTheorems
  import opened ProtocolRuns

  // The multi-thread path is taken for more than one thread and a non-empty resource.
  ghost predicate MultiThread(c: Config) {
    c.threads > 1 && |c.versions| > 0 && |c.versions[0].bytes| > 0
  }

  // A run of the first version has begun over a leftover file, with no saved state.
  lemma FirstRun(c: Config, leftover: seq<Byte>) returns (s: Sys, t: Sys)
    requires MultiThread(c)
    ensures s == Init(leftover) && Reachable(c, s) && Reaches(c, s, t) && Steady(c, t)
    ensures t.probed == t.now == 0 && t.holes == t.diskHoles == {} && t.run.job.skipped == 0
    ensures t.cache == t.disk == Resize(leftover, |c.versions[0].bytes|)
    ensures t.run.job.ranges == Split(|c.versions[0].bytes|, c.threads, c.minChunk)
    ensures forall m :: 0 <= m < |t.run.job.ranges| ==> t.run.job.ranges[m].current == t.run.job.ranges[m].start
  {
    s := Init(leftover);
    assert Exec(c, s, []) == Some(s);
    ReachesSelf(c, s);
    t := OpenRun(c, s, s);
    SplitTiles(|c.versions[0].bytes|, c.threads, c.minChunk);
  }

  // What a state says that claims the whole file is believed without a request.
  lemma BelieveState(c: Config, s: Sys, t: Sys, r: Resource, ranges: seq<WorkerRange>) returns (t': Sys)
    requires Reachable(c, s) && Reaches(c, s, t) && Resting(t) && t.probed < |c.versions| && t.now < |c.versions|
    requires t.live == Some(StateFor(c, r, ranges)) && Tiles(ranges, |r.bytes|) && NothingLeft(ranges)
    requires Resumable(Identity(r), c.versions[t.now]) && |c.versions[t.now].bytes| == |t.cache| > 0
    ensures Reaches(c, s, t') && t'.run == Returned(Complete) && t'.cache == t.cache && t'.probed == t.now
    ensures t'.holes == if t.probed == t.now then t.holes else {}
  {
    assert Resumable(StateFor(c, r, ranges), c.versions[t.now]);
    t' := OpenRun(c, s, t);
    assert t'.cache == t.cache;
    assert t'.run.job.ranges == ranges;
    t' := WorkAll(c, s, t', false);
    t' := CompleteRun(c, s, t');
  }

  lemma OwnStateIsResumable(r: Resource)
    ensures Resumable(Identity(r), r)
  {
  }

  // A file of the same length that agrees with b nowhere.
  function Unlike(b: seq<Byte>): (r: seq<Byte>)
    ensures |r| == |b| && forall k :: 0 <= k < |b| ==> r[k] != b[k]
  {
    seq(|b|, k requires 0 <= k < |b| => if b[k] == 0 then 1 else 0)
  }

  // Every run that returns Ok without a 416 has the bytes of the version it probed.
  ghost predicate AlwaysExact(c: Config) {
    forall t: Sys :: Reachable(c, t) && t.run == Returned(Complete) && t.holes == {} && t.probed < |c.versions|
      ==> t.cache == Current(c, t).bytes
  }

  lemma SettingIsExact(c: Config)
    requires Setting(c)
    ensures AlwaysExact(c)
  {
    forall t: Sys | Reachable(c, t) && t.run == Returned(Complete) && t.holes == {} && t.probed < |c.versions|
      ensures t.cache == Current(c, t).bytes
    {
      CompletedRunIsOneVersion(c, t);
    }
  }

  // ----- a 416 -----

  /** For every resource and configuration: after 416s the first run fails its byte check,
      but its last checkpoint says the ranges are fetched, and the next run returns Ok over
      a file of which nobody fetched a byte. */
  lemma SkippedRangeFoolsTheNextRun(c: Config) returns (steps: seq<Step>, t: Sys)
    requires MultiThread(c)
    ensures Exec(c, Init(Unlike(c.versions[0].bytes)), steps) == Some(t)
    ensures t.run == Returned(Complete) && t.probed == 0 && t.cache == Unlike(c.versions[0].bytes)
  {
    var r := c.versions[0];
    var s;
    s, t := FirstRun(c, Unlike(r.bytes));
    assert t.cache == Unlike(r.bytes);
    SomethingLeft(t.run.job.ranges, |r.bytes|);
    t := WorkAll(c, s, t, false);
    var ranges := t.run.job.ranges;
    t := ConcludeRun(c, s, t);
    OwnStateIsResumable(r);
    t := BelieveState(c, s, t, r, ranges);
    steps :| Exec(c, s, steps) == Some(t);
  }

  lemma SomethingLeft(ws: seq<WorkerRange>, size: nat)
    requires Tiles(ws, size) && size > 0 && forall m :: 0 <= m < |ws| ==> ws[m].current == ws[m].start
    ensures !NothingLeft(ws)
  {
    EveryOffsetHasOneWorker(ws, size, 0);
  }

  // If these steps end with Ok, the file is the probed version.
  ghost predicate ExactAfter(c: Config, leftover: seq<Byte>, steps: seq<Step>) {
    var end := Exec(c, Init(leftover), steps);
    end.Some? && end.value.run == Returned(Complete) && end.value.probed < |c.versions|
    ==> end.value.cache == Current(c, end.value).bytes
  }

  /** All executions that complete are exact if and only if no 416 is ever answered. */
  lemma ExactIffNever416(c: Config, may416: bool)
    requires Setting(c) && MultiThread(c)
    ensures (forall leftover, steps | may416 || Never416(steps) :: ExactAfter(c, leftover, steps)) <==> !may416
  {
    if may416 {
      var steps, t := SkippedRangeFoolsTheNextRun(c);
      assert t.cache[0] != Current(c, t).bytes[0];
      assert !ExactAfter(c, Unlike(c.versions[0].bytes), steps);
    } else {
      forall leftover, steps | Never416(steps) ensures ExactAfter(c, leftover, steps) {
        var end := Exec(c, Init(leftover), steps);
        if end.Some? && end.value.run == Returned(Complete) {
          CompletedRunIsExact(c, leftover, steps, end.value);
        }
      }
    }
  }

  // ----- power loss -----

  // Power fails when the state file is on the medium and the data file is not.
  lemma LoseBytes(c: Config, s: Sys, t: Sys) returns (t': Sys)
    requires Reaches(c, s, t) && c.powerLoss
    ensures Reaches(c, s, t') && t' == AfterPowerLoss(t.(dur := t.live))
  {
    t' := ThenWorld(c, s, t, WritebackEntry);
    t' := ThenWorld(c, s, t', PowerLoss);
  }

  // The state file reached the medium and the bytes it names did not.
  lemma LostBytesAreBelieved(c: Config) returns (t: Sys)
    requires MultiThread(c) && c.powerLoss && !c.durable
    requires Honours(IfRangeValidator(c.versions[0]), c.versions[0])
    ensures Reachable(c, t) && t.run == Returned(Complete) && t.holes == {}
    ensures t.probed == 0 && t.cache == Unlike(c.versions[0].bytes)
  {
    var r := c.versions[0];
    var s;
    s, t := FirstRun(c, Unlike(r.bytes));
    assert t.disk == Unlike(r.bytes);
    OwnVersionCanFetch(c, t);
    t := WorkAll(c, s, t, true);
    var ranges := t.run.job.ranges;
    t := LastCheckpoint(c, s, t);
    t := LoseBytes(c, s, t);
    OwnStateIsResumable(r);
    t := BelieveState(c, s, t, r, ranges);
    ReachableThrough(c, s, t);
  }

  /** Where power may fail, runs are always exact if and only if durable_resume is on. */
  lemma PowerLossIsSafeIffDurable(c: Config)
    requires MultiThread(c) && c.powerLoss && |c.versions| == 1
    requires Honours(IfRangeValidator(c.versions[0]), c.versions[0])
    ensures AlwaysExact(c) <==> c.durable
  {
    if c.durable {
      SettingIsExact(c);
    } else {
      var t := LostBytesAreBelieved(c);
      assert t.cache[0] != c.versions[0].bytes[0];
    }
  }

  // ----- validators -----

  // What the first version's requests bring from the second one.
  lemma NewVersionArrives(c: Config, s: Sys, t: Sys) returns (t': Sys)
    requires |c.versions| == 2 && |c.versions[0].bytes| <= |c.versions[1].bytes|
    requires Honours(IfRangeValidator(c.versions[0]), c.versions[1])
    requires Reachable(c, s) && Reaches(c, s, t) && Steady(c, t) && t.probed == t.now == 0
    requires t.run.job.skipped == 0 && t.holes == {}
    ensures Reaches(c, s, t') && t'.run == Returned(Complete) && t'.probed == 0 && t'.holes == {}
    ensures |t'.cache| == |t.cache|
    ensures forall m :: 0 <= m < |t.run.job.ranges| ==>
              Right(t'.cache, c.versions[1].bytes, {}, t.run.job.ranges[m].current, t.run.job.ranges[m].end)
    ensures forall m :: 0 <= m < |t.run.job.ranges| ==>
              Right(t'.cache, t.cache, {}, t.run.job.ranges[m].start, t.run.job.ranges[m].current)
  {
    var t1 := ThenWorld(c, s, t, Advance);
    forall m | 0 <= m < |t1.run.job.ranges| ensures t1.run.job.ranges[m].end <= |c.versions[1].bytes| {
      EndsBounded(t1.run.job.ranges, |c.versions[0].bytes|, m);
    }
    t' := WorkAll(c, s, t1, true);
    t' := CompleteRun(c, s, t');
  }

  lemma AllRight(ws: seq<WorkerRange>, f: seq<Byte>, b: seq<Byte>, size: nat)
    requires Tiles(ws, size) && |f| == size <= |b|
    requires forall m :: 0 <= m < |ws| ==> Right(f, b, {}, ws[m].start, ws[m].end)
    ensures f == b[..size]
  {
    forall k | 0 <= k < size ensures f[k] == b[k] {
      EveryOffsetHasOneWorker(ws, size, k);
      var m :| 0 <= m < |ws| && ws[m].start <= k < ws[m].end;
      assert Right(f, b, {}, ws[m].start, ws[m].end);
    }
  }

  // The newer version honours the older one's validator: all that was asked for of it
  // arrives in a run that probed the older one.
  lemma HonouredChangeIsWrong(c: Config) returns (t: Sys)
    requires MultiThread(c) && |c.versions| == 2 && |c.versions[0].bytes| <= |c.versions[1].bytes|
    requires Honours(IfRangeValidator(c.versions[0]), c.versions[1])
    ensures Reachable(c, t) && t.run == Returned(Complete) && t.holes == {}
    ensures t.probed == 0 && t.cache == c.versions[1].bytes[..|c.versions[0].bytes|]
  {
    var s, t0 := FirstRun(c, []);
    t := NewVersionArrives(c, s, t0);
    AllRight(t0.run.job.ranges, t.cache, c.versions[1].bytes, |c.versions[0].bytes|);
    ReachableThrough(c, s, t);
  }

  // A state of the older version passes for the newer one: the next run believes it.
  lemma BelievedStateIsWrong(c: Config) returns (t: Sys)
    requires MultiThread(c) && |c.versions| == 2
    requires Honours(IfRangeValidator(c.versions[0]), c.versions[0])
    requires Resumable(Identity(c.versions[0]), c.versions[1])
    ensures Reachable(c, t) && t.run == Returned(Complete) && t.holes == {}
    ensures t.probed == 1 && t.cache == c.versions[0].bytes
  {
    var r := c.versions[0];
    var s, t0 := FirstRun(c, []);
    OwnVersionCanFetch(c, t0);
    t := WorkAll(c, s, t0, true);
    AllRight(t0.run.job.ranges, t.cache, r.bytes, |r.bytes|);
    var ranges := t.run.job.ranges;
    t := LastCheckpoint(c, s, t);
    t := ThenWorld(c, s, t, Kill);
    t := ThenWorld(c, s, t, Advance);
    t := BelieveState(c, s, t, r, ranges);
    ReachableThrough(c, s, t);
  }

  /** A change of the resource that does not shorten it is safe, for every number of
      threads, exactly when the old validators neither pass for the new ones on resume nor
      are honoured by the new version. */
  lemma ChangeIsSafeIff(c: Config, before: Resource, after: Resource)
    requires c.versions == [before, after] && MultiThread(c) && (c.powerLoss ==> c.durable)
    requires |before.bytes| <= |after.bytes| && before.bytes != after.bytes[..|before.bytes|]
    requires Honours(IfRangeValidator(before), before)
    ensures AlwaysExact(c) <==> Identifies(c.versions)
  {
    if Identifies(c.versions) {
      SettingIsExact(c);
    } else if Honours(IfRangeValidator(before), after) {
      var t := HonouredChangeIsWrong(c);
    } else {
      var t := BelievedStateIsWrong(c);
    }
  }

  // The first worker fetches its whole range.
  lemma FirstFetches(c: Config, s: Sys, t: Sys) returns (t': Sys)
    requires Reaches(c, s, t) && Steady(c, t) && AllCanFetch(c, t) && t.probed == t.now && t.holes == {}
    requires t.run.job.skipped == 0 && |t.run.job.ranges| > 0 && t.run.job.ranges[0].current == 0
    ensures Reaches(c, s, t') && Steady(c, t') && t'.probed == t'.now == t.now && t'.holes == {}
    ensures t'.run.job.skipped == 0 && |t'.cache| == |t.cache|
    ensures var w := t.run.job.ranges[0];
            && t'.run.job.ranges == t.run.job.ranges[0 := w.(current := w.end)]
            && Right(t'.cache, c.versions[t.now].bytes, {}, 0, w.end)
  {
    t' := ServeWorker(c, s, t, 0, true);
    ServedSteady(c, t, 0, true, t');
  }

  /** Where no validators are served, a change of the resource between two requests leaves
      the first worker's part of one version and the rest of the other, and the run
      returns Ok. */
  lemma NoValidatorsMaySplice(c: Config, before: Resource, after: Resource) returns (t: Sys)
    requires c.versions == [before, after] && MultiThread(c) && |before.bytes| == |after.bytes|
    requires before.etag.None? && before.lastModified.None?
    ensures Reachable(c, t) && t.run == Returned(Complete) && t.probed == 0 && t.holes == {}
    ensures var cut := Split(|before.bytes|, c.threads, c.minChunk)[0].end;
            0 <= cut <= |before.bytes| && t.cache == before.bytes[..cut] + after.bytes[cut..]
  {
    var s, t0 := FirstRun(c, []);
    var ranges, size := t0.run.job.ranges, |before.bytes|;
    EndsBounded(ranges, size, 0);
    OwnVersionCanFetch(c, t0);
    var t1 := FirstFetches(c, s, t0);
    t := NewVersionArrives(c, s, t1);
    SplicedAt(ranges, t1.run.job.ranges, size, t1.cache, t.cache, before.bytes, after.bytes);
    ReachableThrough(c, s, t);
  }

  lemma SplicedAt(cuts: seq<WorkerRange>, ws: seq<WorkerRange>, size: nat, f: seq<Byte>, f': seq<Byte>,
                  before: seq<Byte>, after: seq<Byte>)
    requires Tiles(cuts, size) && |f'| == size == |before| == |after|
    requires forall m :: 0 <= m < |cuts| ==> cuts[m].current == cuts[m].start
    requires ws == cuts[0 := cuts[0].(current := cuts[0].end)]
    requires Right(f, before, {}, 0, cuts[0].end)
    requires forall m :: 0 <= m < |ws| ==> Right(f', after, {}, ws[m].current, ws[m].end)
    requires forall m :: 0 <= m < |ws| ==> Right(f', f, {}, ws[m].start, ws[m].current)
    ensures cuts[0].end <= size && f' == before[..cuts[0].end] + after[cuts[0].end..]
  {
    var cut := cuts[0].end;
    EndsBounded(cuts, size, 0);
    forall k | 0 <= k < size ensures f'[k] == if k < cut then before[k] else after[k] {
      if k < cut {
        assert Right(f', f, {}, ws[0].start, ws[0].current);
      } else {
        EveryOffsetHasOneWorker(cuts, size, k);
        var m :| 0 <= m < |cuts| && cuts[m].start <= k < cuts[m].end;
        assert Right(f', after, {}, ws[m].current, ws[m].end);
      }
    }
  }
}
