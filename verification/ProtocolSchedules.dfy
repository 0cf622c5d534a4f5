/** Schedule independence: workers keep to their own ranges, so the order in which
    they take their steps does not matter. */
module ProtocolSchedules {
  import opened Wrappers
  import opened State
  import opened Http
  import opened Protocol
  import opened ProtocolContent
  import opened ProtocolTheorems

  /** A worker's step changes no byte and no position outside its own range. */
  lemma WorkerStaysInRange(c: Config, s: Sys, s': Sys, i: nat, act: WorkerAct)
    requires Setting(c) && Reachable(c, s) && WorkerStep(c, s, i, act) == Some(s')
    ensures s'.run.Active? && |s'.run.job.ranges| == |s.run.job.ranges| == |s'.run.job.pcs| == |s.run.job.pcs|
    ensures forall m :: 0 <= m < |s.run.job.pcs| && m != i ==>
              s'.run.job.pcs[m] == s.run.job.pcs[m] && s'.run.job.ranges[m] == s.run.job.ranges[m]
    ensures |s'.cache| == |s.cache|
    ensures forall k :: 0 <= k < |s.cache| && !(s.run.job.ranges[i].start <= k < s.run.job.ranges[i].end)
              ==> s'.cache[k] == s.cache[k]
  {
    ReachableInv(c, s);
    if act.Chunk? {
      var len := ChunkWrites(c, s, s', i, act.n);
    }
  }

  // Everything one worker step does, read off its two states.
  datatype Effect = Effect(
    w: WorkerRange, pc: Pc, counted: int, skipped: int, passed: set<nat>, fetched: set<nat>,
    at: nat, write: seq<Byte>)

  ghost predicate Ready(s: Sys, i: nat) {
    s.run.Active? && i < |s.run.job.pcs| && i < |s.run.job.ranges|
  }

  ghost function Observed(s: Sys, s': Sys, i: nat, act: WorkerAct): Effect
    requires Ready(s, i) && Ready(s', i)
    requires act.Chunk? ==> s'.run.job.pcs[i].Written?
                            && s.run.job.ranges[i].current + s'.run.job.pcs[i].n <= |s'.cache|
  {
    var j, j', w := s.run.job, s'.run.job, s.run.job.ranges[i];
    Effect(j'.ranges[i], j'.pcs[i], j'.downloaded - j.downloaded, j'.skipped - j.skipped,
           if act == Unsatisfiable then Span(w.current, w.end) else {},
           if act.Chunk? then Span(w.current, w.current + j'.pcs[i].n) else {},
           w.current, if act.Chunk? then s'.cache[w.current..w.current + j'.pcs[i].n] else [])
  }

  function WriteInto(f: seq<Byte>, at: nat, write: seq<Byte>): seq<Byte> {
    if write == [] then f else Overwrite(f, at, write)
  }

  ghost function Apply(s: Sys, i: nat, e: Effect): Sys
    requires Ready(s, i) && s.run.job.skipped + e.skipped >= 0
  {
    var j := s.run.job;
    s.(cache := WriteInto(s.cache, e.at, e.write),
       holes := s.holes + e.passed - e.fetched,
       diskHoles := s.diskHoles + e.passed,
       run := Active(j.(ranges := j.ranges[i := e.w], pcs := j.pcs[i := e.pc],
                        downloaded := j.downloaded + e.counted, skipped := j.skipped + e.skipped)))
  }

  lemma QuietStepIsItsEffect(c: Config, s: Sys, s': Sys, i: nat, act: WorkerAct)
    requires WorkerStep(c, s, i, act) == Some(s') && !act.Chunk?
    ensures Ready(s, i) && Ready(s', i) && s'.run.job.skipped >= s.run.job.skipped
    ensures s' == Apply(s, i, Observed(s, s', i, act))
  {
    var e := Observed(s, s', i, act);
    var j, j' := s.run.job, s'.run.job;
    assert j'.ranges == j.ranges[i := e.w];
    assert j'.pcs == j.pcs[i := e.pc];
    assert s'.holes == s.holes + e.passed - e.fetched && s'.diskHoles == s.diskHoles + e.passed;
  }

  // The state after a chunk is the effect of writing that piece.
  lemma ApplyChunk(s: Sys, i: nat, pc: Pc, piece: seq<Byte>)
    requires Ready(s, i) && piece != []
    ensures var w := s.run.job.ranges[i];
            var e := Effect(w, pc, 0, 0, {}, Span(w.current, w.current + |piece|), w.current, piece);
            Apply(s, i, e) == SetPc(s, s.run.job, i, pc).(cache := Overwrite(s.cache, w.current, piece),
                                                          holes := s.holes - Span(w.current, w.current + |piece|))
  {
    var j := s.run.job;
    assert j.ranges == j.ranges[i := j.ranges[i]];
    assert s.holes + {} == s.holes && s.diskHoles + {} == s.diskHoles;
  }

  lemma ChunkIsItsEffect(c: Config, s: Sys, s': Sys, i: nat, n: nat)
    requires Inv(c, s) && WorkerStep(c, s, i, Chunk(n)) == Some(s')
    ensures Ready(s, i) && Ready(s', i) && s'.run.job.skipped >= s.run.job.skipped
    ensures s'.run.job.pcs[i].Written? && s.run.job.ranges[i].current + s'.run.job.pcs[i].n <= |s'.cache|
    ensures s' == Apply(s, i, Observed(s, s', i, Chunk(n)))
  {
    ChunkObserved(c, s, s', i, n);
    var len := ChunkWrites(c, s, s', i, n);
    var at := s.run.job.ranges[i].current;
    ApplyChunk(s, i, Written(s.probed, len), Current(c, s).bytes[at..at + len]);
  }

  lemma StepIsItsEffect(c: Config, s: Sys, s': Sys, i: nat, act: WorkerAct)
    requires Inv(c, s) && WorkerStep(c, s, i, act) == Some(s')
    ensures Ready(s, i) && Ready(s', i) && s'.run.job.skipped >= s.run.job.skipped
    ensures act.Chunk? ==> s'.run.job.pcs[i].Written?
                           && s.run.job.ranges[i].current + s'.run.job.pcs[i].n <= |s'.cache|
    ensures s' == Apply(s, i, Observed(s, s', i, act))
  {
    if act.Chunk? {
      ChunkIsItsEffect(c, s, s', i, act.n);
    } else {
      QuietStepIsItsEffect(c, s, s', i, act);
    }
  }

  // Two states a worker cannot tell apart.
  ghost predicate SameView(s: Sys, t: Sys, i: nat) {
    && Ready(s, i) && Ready(t, i)
    && s.probed == t.probed && s.now == t.now && s.cancelled == t.cancelled
    && s.run.job.stage == t.run.job.stage
    && s.run.job.ranges[i] == t.run.job.ranges[i] && s.run.job.pcs[i] == t.run.job.pcs[i]
  }

  lemma QuietEffectIsLocal(c: Config, s: Sys, s': Sys, t: Sys, i: nat, act: WorkerAct) returns (t': Sys)
    requires SameView(s, t, i) && WorkerStep(c, s, i, act) == Some(s') && !act.Chunk?
    ensures WorkerStep(c, t, i, act) == Some(t')
    ensures Ready(s', i) && Ready(t', i) && Observed(s, s', i, act) == Observed(t, t', i, act)
  {
    t' := WorkerStep(c, t, i, act).value;
  }

  // What a chunk does depends on the worker's own range and the probed version only.
  lemma ChunkObserved(c: Config, s: Sys, s': Sys, i: nat, n: nat)
    requires Inv(c, s) && WorkerStep(c, s, i, Chunk(n)) == Some(s')
    ensures Ready(s, i) && Ready(s', i) && s'.run.job.pcs[i].Written?
    ensures s.run.job.ranges[i].current + s'.run.job.pcs[i].n <= |s'.cache|
    ensures var w, b := s.run.job.ranges[i], Current(c, s).bytes;
            var len := Min(n, w.end - w.current);
            && w.current + len <= |b|
            && Observed(s, s', i, Chunk(n)) == Effect(w, Written(s.probed, len), 0, 0, {},
                                                      Span(w.current, w.current + len), w.current,
                                                      b[w.current..w.current + len])
  {
    var len := ChunkWrites(c, s, s', i, n);
    var at, b := s.run.job.ranges[i].current, Current(c, s).bytes;
    assert s'.cache[at..at + len] == b[at..at + len];
  }

  lemma ChunkIsPossible(c: Config, s: Sys, s': Sys, t: Sys, i: nat, n: nat) returns (t': Sys)
    requires SameView(s, t, i) && WorkerStep(c, s, i, Chunk(n)) == Some(s')
    ensures WorkerStep(c, t, i, Chunk(n)) == Some(t')
  {
    t' := WorkerStep(c, t, i, Chunk(n)).value;
  }

  lemma ChunkEffectIsLocal(c: Config, s: Sys, s': Sys, t: Sys, i: nat, n: nat) returns (t': Sys)
    requires Inv(c, s) && Inv(c, t) && SameView(s, t, i) && WorkerStep(c, s, i, Chunk(n)) == Some(s')
    ensures WorkerStep(c, t, i, Chunk(n)) == Some(t')
    ensures Ready(s', i) && Ready(t', i) && s'.run.job.pcs[i].Written? && t'.run.job.pcs[i].Written?
    ensures var at, len := s.run.job.ranges[i].current, s'.run.job.pcs[i].n;
            at + len <= |s'.cache| && at + t'.run.job.pcs[i].n <= |t'.cache|
    ensures Observed(s, s', i, Chunk(n)) == Observed(t, t', i, Chunk(n))
  {
    t' := ChunkIsPossible(c, s, s', t, i, n);
    ChunkObserved(c, s, s', i, n);
    ChunkObserved(c, t, t', i, n);
  }

  lemma EffectIsLocal(c: Config, s: Sys, s': Sys, t: Sys, i: nat, act: WorkerAct) returns (t': Sys)
    requires Inv(c, s) && Inv(c, t) && SameView(s, t, i) && WorkerStep(c, s, i, act) == Some(s')
    ensures WorkerStep(c, t, i, act) == Some(t')
    ensures Ready(s', i) && Ready(t', i)
    ensures act.Chunk? ==> s'.run.job.pcs[i].Written? && t'.run.job.pcs[i].Written?
                           && s.run.job.ranges[i].current + s'.run.job.pcs[i].n <= |s'.cache|
                           && t.run.job.ranges[i].current + t'.run.job.pcs[i].n <= |t'.cache|
    ensures Observed(s, s', i, act) == Observed(t, t', i, act)
  {
    if act.Chunk? {
      t' := ChunkEffectIsLocal(c, s, s', t, i, act.n);
    } else {
      t' := QuietEffectIsLocal(c, s, s', t, i, act);
    }
  }

  lemma WritesCommute(f: seq<Byte>, a: nat, x: seq<Byte>, b: nat, y: seq<Byte>)
    requires a + |x| <= b || b + |y| <= a || x == [] || y == []
    requires a + |x| <= |f| && b + |y| <= |f|
    ensures WriteInto(WriteInto(f, a, x), b, y) == WriteInto(WriteInto(f, b, y), a, x)
  {
  }

  lemma EffectsCommute(s: Sys, i: nat, e: Effect, k: nat, g: Effect)
    requires Ready(s, i) && Ready(s, k) && i != k && e.skipped >= 0 && g.skipped >= 0
    requires e.at + |e.write| <= g.at || g.at + |g.write| <= e.at || e.write == [] || g.write == []
    requires e.at + |e.write| <= |s.cache| && g.at + |g.write| <= |s.cache|
    requires e.passed !! g.fetched && e.fetched !! g.passed
    ensures Apply(Apply(s, i, e), k, g) == Apply(Apply(s, k, g), i, e)
  {
    var j := s.run.job;
    WritesCommute(s.cache, e.at, e.write, g.at, g.write);
    assert j.ranges[i := e.w][k := g.w] == j.ranges[k := g.w][i := e.w];
    assert j.pcs[i := e.pc][k := g.pc] == j.pcs[k := g.pc][i := e.pc];
    assert s.holes + e.passed - e.fetched + g.passed - g.fetched == s.holes + g.passed - g.fetched + e.passed - e.fetched;
    assert s.diskHoles + e.passed + g.passed == s.diskHoles + g.passed + e.passed;
  }

  // Where a step writes: inside the worker's range, which is inside the file.
  lemma EffectInRange(c: Config, s: Sys, s': Sys, i: nat, act: WorkerAct)
    requires Inv(c, s) && WorkerStep(c, s, i, act) == Some(s')
    ensures Ready(s, i) && Ready(s', i)
    ensures act.Chunk? ==> s'.run.job.pcs[i].Written?
                           && s.run.job.ranges[i].current + s'.run.job.pcs[i].n <= |s'.cache|
    ensures var e, w := Observed(s, s', i, act), s.run.job.ranges[i];
            && w.start <= e.at && e.at + |e.write| <= w.end <= |s.cache| && e.skipped >= 0
            && forall k :: k in e.passed + e.fetched ==> w.start <= k < w.end
  {
    EndsBounded(s.run.job.ranges, |Current(c, s).bytes|, i);
    StepIsItsEffect(c, s, s', i, act);
    if act.Chunk? {
      var len := ChunkWrites(c, s, s', i, act.n);
    }
  }

  // Two workers' effects are on different ranges.
  lemma EffectsApart(c: Config, s: Sys, si: Sys, sk: Sys, i: nat, a: WorkerAct, k: nat, b: WorkerAct)
    requires Inv(c, s) && i != k && WorkerStep(c, s, i, a) == Some(si) && WorkerStep(c, s, k, b) == Some(sk)
    ensures Ready(s, i) && Ready(si, i) && Ready(s, k) && Ready(sk, k)
    ensures a.Chunk? ==> si.run.job.pcs[i].Written?
                         && s.run.job.ranges[i].current + si.run.job.pcs[i].n <= |si.cache|
    ensures b.Chunk? ==> sk.run.job.pcs[k].Written?
                         && s.run.job.ranges[k].current + sk.run.job.pcs[k].n <= |sk.cache|
    ensures var e, g := Observed(s, si, i, a), Observed(s, sk, k, b);
            && e.skipped >= 0 && g.skipped >= 0
            && Apply(Apply(s, i, e), k, g) == Apply(Apply(s, k, g), i, e)
  {
    EffectInRange(c, s, si, i, a);
    EffectInRange(c, s, sk, k, b);
    var ranges, size := s.run.job.ranges, |Current(c, s).bytes|;
    if i < k { RangesInOrder(ranges, size, i, k); } else { RangesInOrder(ranges, size, k, i); }
    EffectsCommute(s, i, Observed(s, si, i, a), k, Observed(s, sk, k, b));
  }

  /** Steps of two workers commute: both orders are possible and end in the same state. */
  lemma WorkersCommute(c: Config, s: Sys, i: nat, a: WorkerAct, k: nat, b: WorkerAct)
    requires Setting(c) && Inv(c, s) && i != k
    requires WorkerStep(c, s, i, a).Some? && WorkerStep(c, s, k, b).Some?
    ensures WorkerStep(c, WorkerStep(c, s, i, a).value, k, b).Some?
    ensures WorkerStep(c, WorkerStep(c, s, i, a).value, k, b) == WorkerStep(c, WorkerStep(c, s, k, b).value, i, a)
  {
    var si, sk := WorkerStep(c, s, i, a).value, WorkerStep(c, s, k, b).value;
    WorkerKeeps(c, s, si, i, a);
    WorkerKeeps(c, s, sk, k, b);
    StepIsItsEffect(c, s, si, i, a);
    StepIsItsEffect(c, s, sk, k, b);
    var sik := EffectIsLocal(c, s, sk, si, k, b);
    var ski := EffectIsLocal(c, s, si, sk, i, a);
    StepIsItsEffect(c, si, sik, k, b);
    StepIsItsEffect(c, sk, ski, i, a);
    EffectsApart(c, s, si, sk, i, a, k, b);
  }

  // ----- whole schedules -----

  ghost predicate OnlyWorkers(steps: seq<Step>) {
    forall k :: 0 <= k < |steps| ==> steps[k].Worker?
  }

  // The acts of one worker, in order.
  ghost function ActsOf(steps: seq<Step>, i: nat): seq<WorkerAct> {
    if steps == [] then []
    else (if steps[0].Worker? && steps[0].i == i then [steps[0].act] else []) + ActsOf(steps[1..], i)
  }

  lemma {:induction false} ActsOfConcat(a: seq<Step>, b: seq<Step>, i: nat)
    ensures ActsOf(a + b, i) == ActsOf(a, i) + ActsOf(b, i)
  {
    if a == [] {
      assert a + b == b;
    } else {
      assert (a + b)[1..] == a[1..] + b;
      ActsOfConcat(a[1..], b, i);
    }
  }

  lemma ActsOfOne(step: Step, rest: seq<Step>, i: nat)
    ensures ActsOf([step] + rest, i)
            == (if step.Worker? && step.i == i then [step.act] else []) + ActsOf(rest, i)
  {
    assert ([step] + rest)[1..] == rest;
  }

  lemma ExecOne(c: Config, s: Sys, step: Step, rest: seq<Step>)
    ensures Exec(c, s, [step] + rest)
            == match Fire(c, s, step) case None => None case Some(s') => Exec(c, s', rest)
  {
    assert ([step] + rest)[1..] == rest;
  }

  lemma SwapNeighbours(c: Config, s: Sys, x: Step, y: Step, rest: seq<Step>)
    requires Setting(c) && Inv(c, s) && x.Worker? && y.Worker? && x.i != y.i
    requires Exec(c, s, [x] + ([y] + rest)).Some?
    ensures Exec(c, s, [y] + ([x] + rest)) == Exec(c, s, [x] + ([y] + rest))
  {
    ExecOne(c, s, x, [y] + rest);
    var si := WorkerStep(c, s, x.i, x.act).value;
    ExecOne(c, si, y, rest);
    var sik := WorkerStep(c, si, y.i, y.act).value;
    WorkerKeeps(c, s, si, x.i, x.act);
    var sk := StepBack(c, s, si, sik, x.i, x.act, y.i, y.act);
    WorkersCommute(c, s, x.i, x.act, y.i, y.act);
    ExecOne(c, s, y, [x] + rest);
    ExecOne(c, sk, x, rest);
  }

  // A step that is possible after another worker's step was possible before it.
  lemma StepBack(c: Config, s: Sys, si: Sys, sik: Sys, i: nat, a: WorkerAct, k: nat, b: WorkerAct) returns (sk: Sys)
    requires Inv(c, s) && Inv(c, si) && i != k
    requires WorkerStep(c, s, i, a) == Some(si) && WorkerStep(c, si, k, b) == Some(sik)
    ensures WorkerStep(c, s, k, b) == Some(sk)
  {
    StepIsItsEffect(c, s, si, i, a);
    StepIsItsEffect(c, si, sik, k, b);
    sk := EffectIsLocal(c, si, sik, s, k, b);
  }

  lemma Regroup(first: Step, others: seq<Step>, step: Step, rest: seq<Step>)
    ensures [first] + others + [step] + rest == [first] + (others + [step] + rest)
    ensures [first] + (others + rest) == [first] + others + rest
  {
  }

  // A step may be moved in front of the steps of other workers.
  lemma {:induction false} BringForward(c: Config, s: Sys, front: seq<Step>, step: Step, rest: seq<Step>)
    requires Setting(c) && Inv(c, s) && OnlyWorkers(front) && step.Worker?
    requires forall k :: 0 <= k < |front| ==> front[k].i != step.i
    requires Exec(c, s, front + [step] + rest).Some?
    ensures Exec(c, s, [step] + (front + rest)) == Exec(c, s, front + [step] + rest)
    decreases |front|, 0
  {
    if front == [] {
      assert front + [step] + rest == [step] + (front + rest);
    } else {
      var first, others := front[0], front[1..];
      assert front == [first] + others;
      Regroup(first, others, step, rest);
      ExecOne(c, s, first, others + [step] + rest);
      BringForwardTail(c, s, first, others, step, rest);
      ExecOne(c, s, first, [step] + (others + rest));
      SwapNeighbours(c, s, first, step, others + rest);
    }
  }

  lemma {:induction false} BringForwardTail(c: Config, s: Sys, first: Step, others: seq<Step>, step: Step, rest: seq<Step>)
    requires Setting(c) && Inv(c, s) && first.Worker? && OnlyWorkers(others) && step.Worker?
    requires forall k :: 0 <= k < |others| ==> others[k].i != step.i
    requires Fire(c, s, first).Some? && Exec(c, Fire(c, s, first).value, others + [step] + rest).Some?
    ensures var s' := Fire(c, s, first).value;
            Exec(c, s', [step] + (others + rest)) == Exec(c, s', others + [step] + rest)
    decreases |others|, 1
  {
    var s' := Fire(c, s, first).value;
    WorkerKeeps(c, s, s', first.i, first.act);
    BringForward(c, s', others, step, rest);
  }

  // The place of a worker's first step.
  lemma {:induction false} FirstStepOf(steps: seq<Step>, i: nat) returns (p: nat)
    requires OnlyWorkers(steps) && ActsOf(steps, i) != []
    ensures p < |steps| && steps[p].i == i && steps[p].act == ActsOf(steps, i)[0]
    ensures forall k :: 0 <= k < p ==> steps[k].i != i
  {
    if steps[0].i == i {
      p := 0;
    } else {
      var q := FirstStepOf(steps[1..], i);
      p := q + 1;
    }
  }

  lemma {:induction false} NoActs(steps: seq<Step>)
    requires OnlyWorkers(steps) && forall i :: ActsOf(steps, i) == []
    ensures steps == []
  {
    if steps != [] {
      assert ActsOf(steps, steps[0].i) != [];
    }
  }

  // A worker's first step can be taken first of all.
  lemma PullToFront(c: Config, s: Sys, one: seq<Step>, step: Step) returns (rest: seq<Step>)
    requires Setting(c) && Inv(c, s) && OnlyWorkers(one) && Exec(c, s, one).Some?
    requires step.Worker? && ActsOf(one, step.i) != [] && ActsOf(one, step.i)[0] == step.act
    ensures OnlyWorkers(rest) && Exec(c, s, [step] + rest) == Exec(c, s, one)
    ensures forall i :: ActsOf([step] + rest, i) == ActsOf(one, i)
  {
    var p := FirstStepOf(one, step.i);
    var front, back := one[..p], one[p + 1..];
    assert one[p] == step;
    assert one == front + [step] + back;
    rest := front + back;
    BringForward(c, s, front, step, back);
    forall i ensures ActsOf([step] + rest, i) == ActsOf(one, i) {
      SameActs(front, step, back, i);
    }
  }

  lemma SameActs(front: seq<Step>, step: Step, back: seq<Step>, i: nat)
    requires step.Worker? && OnlyWorkers(front) && forall k :: 0 <= k < |front| ==> front[k].i != step.i
    ensures ActsOf([step] + (front + back), i) == ActsOf(front + [step] + back, i)
  {
    assert front + [step] + back == front + ([step] + back);
    ActsOfConcat(front, [step] + back, i);
    ActsOfConcat(front, back, i);
    ActsOfOne(step, back, i);
    ActsOfOne(step, front + back, i);
    if i == step.i {
      NoActsOf(front, i);
    }
  }

  lemma SameTail(step: Step, a: seq<Step>, b: seq<Step>, i: nat)
    requires ActsOf([step] + a, i) == ActsOf([step] + b, i)
    ensures ActsOf(a, i) == ActsOf(b, i)
  {
    ActsOfOne(step, a, i);
    ActsOfOne(step, b, i);
    if step.Worker? && step.i == i {
      assert ActsOf(a, i) == ([step.act] + ActsOf(a, i))[1..];
      assert ActsOf(b, i) == ([step.act] + ActsOf(b, i))[1..];
    } else {
      assert [] + ActsOf(a, i) == ActsOf(a, i) && [] + ActsOf(b, i) == ActsOf(b, i);
    }
  }

  /** Two schedules in which every worker takes the same steps in the same order lead to
      the same state; if one is possible, so is the other. */
  lemma {:induction false} ScheduleDoesNotMatter(c: Config, s: Sys, one: seq<Step>, two: seq<Step>)
    requires Setting(c) && Inv(c, s) && OnlyWorkers(one) && OnlyWorkers(two)
    requires forall i :: ActsOf(one, i) == ActsOf(two, i)
    requires Exec(c, s, one).Some?
    ensures Exec(c, s, two) == Exec(c, s, one)
    decreases |two|
  {
    if two == [] {
      NoActs(one);
    } else {
      var step, rest2 := two[0], two[1..];
      assert two == [step] + rest2;
      assert ActsOf(two, step.i)[0] == step.act;
      var rest := PullToFront(c, s, one, step);
      ExecOne(c, s, step, rest);
      ExecOne(c, s, step, rest2);
      WorkerStepKeeps(c, s, Fire(c, s, step).value, step);
      forall i ensures ActsOf(rest, i) == ActsOf(rest2, i) {
        SameTail(step, rest, rest2, i);
      }
      ScheduleDoesNotMatter(c, Fire(c, s, step).value, rest, rest2);
    }
  }

  lemma {:induction false} NoActsOf(steps: seq<Step>, i: nat)
    requires OnlyWorkers(steps) && forall k :: 0 <= k < |steps| ==> steps[k].i != i
    ensures ActsOf(steps, i) == []
  {
    if steps != [] {
      NoActsOf(steps[1..], i);
    }
  }

  /** Two complete executions, whatever their interleavings, crashes and resumes, that
      downloaded the same version without a 416 end with the same file. */
  lemma CompleteExecutionsAgree(c: Config, f1: seq<Byte>, f2: seq<Byte>, one: seq<Step>, two: seq<Step>, s1: Sys, s2: Sys)
    requires Setting(c) && Never416(one) && Never416(two)
    requires Exec(c, Init(f1), one) == Some(s1) && Exec(c, Init(f2), two) == Some(s2)
    requires s1.run == s2.run == Returned(Complete) && s1.probed == s2.probed
    ensures s1.cache == s2.cache && s1.disk == s2.disk
  {
    CompletedRunIsExact(c, f1, one, s1);
    CompletedRunIsExact(c, f2, two, s2);
  }
}
