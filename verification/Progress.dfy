/** The sliding-window speed meter: the deque it keeps, against its full history. */
module Progress {
  import opened Wrappers

  datatype Sample = Sample(time: nat, bytes: nat)

  ghost predicate InOrder(h: seq<Sample>) {
    forall i, j :: 0 <= i <= j < |h| ==> h[i].time <= h[j].time
  }

  predicate IsFresh(s: Sample, window: nat, now: nat) {
    now <= s.time + window
  }

  /** The samples that are no older than the window. */
  function Fresh(h: seq<Sample>, window: nat, now: nat): seq<Sample> {
    if h == [] then []
    else (if IsFresh(h[0], window, now) then [h[0]] else []) + Fresh(h[1..], window, now)
  }

  function LastOf(h: seq<Sample>, n: nat): seq<Sample> {
    if |h| <= n then h else h[|h| - n..]
  }

  // Position of the first fresh sample at or after i.
  function FirstFresh(h: seq<Sample>, i: nat, window: nat, now: nat): (k: nat)
    requires i <= |h|
    ensures i <= k <= |h|
    ensures forall j :: i <= j < k ==> !IsFresh(h[j], window, now)
    ensures k < |h| ==> IsFresh(h[k], window, now)
    decreases |h| - i
  {
    if i == |h| || IsFresh(h[i], window, now) then i else FirstFresh(h, i + 1, window, now)
  }

  lemma {:induction false} AllFresh(h: seq<Sample>, window: nat, now: nat)
    requires forall j :: 0 <= j < |h| ==> IsFresh(h[j], window, now)
    ensures Fresh(h, window, now) == h
  {
    if h != [] {
      AllFresh(h[1..], window, now);
    }
  }

  // In time order the fresh samples are a suffix.
  lemma {:induction false} FreshIsSuffix(h: seq<Sample>, i: nat, window: nat, now: nat)
    requires InOrder(h) && i <= |h|
    ensures Fresh(h[i..], window, now) == h[FirstFresh(h, i, window, now)..]
    decreases |h| - i
  {
    if i < |h| {
      if IsFresh(h[i], window, now) {
        AllFresh(h[i..], window, now);
      } else {
        assert h[i..][1..] == h[i + 1..];
        FreshIsSuffix(h, i + 1, window, now);
      }
    }
  }

  // Where the kept part of a history begins.
  function KeptFrom(h: seq<Sample>, window: nat, capacity: nat, now: nat): (k: nat)
    ensures k <= |h|
  {
    Max(FirstFresh(h, 0, window, now), if |h| <= capacity then 0 else |h| - capacity)
  }

  lemma KeptIsLastFresh(h: seq<Sample>, window: nat, capacity: nat, now: nat)
    requires InOrder(h)
    ensures h[KeptFrom(h, window, capacity, now)..] == LastOf(Fresh(h, window, now), capacity)
  {
    FreshIsSuffix(h, 0, window, now);
    assert h[0..] == h;
  }

  // Where the samples of a meter with this history begin.
  function Start(h: seq<Sample>, window: nat, capacity: nat): (k: nat)
    ensures k <= |h|
  {
    if h == [] then 0 else KeptFrom(h, window, capacity, h[|h| - 1].time)
  }

  /** The samples are the newest of those of the history inside the window. */
  ghost predicate Keeps(samples: seq<Sample>, h: seq<Sample>, window: nat, capacity: nat) {
    && InOrder(h)
    && samples == if h == [] then [] else LastOf(Fresh(h, window, h[|h| - 1].time), capacity)
  }

  lemma StartIsLastFresh(h: seq<Sample>, window: nat, capacity: nat)
    requires InOrder(h)
    ensures Keeps(h[Start(h, window, capacity)..], h, window, capacity)
  {
    if h != [] {
      KeptIsLastFresh(h, window, capacity, h[|h| - 1].time);
    }
  }

  /** A sample is kept exactly if it is among the newest `capacity` and no older than the window
      when the last one was recorded. */
  lemma KeptExactly(samples: seq<Sample>, h: seq<Sample>, window: nat, capacity: nat) returns (k: nat)
    requires Keeps(samples, h, window, capacity) && h != []
    ensures k <= |h| && samples == h[k..]
    ensures forall j :: 0 <= j < |h| ==>
              (k <= j <==> |h| - j <= capacity && h[|h| - 1].time - h[j].time <= window)
  {
    var now := h[|h| - 1].time;
    k := KeptFrom(h, window, capacity, now);
    KeptIsLastFresh(h, window, capacity, now);
    var first := FirstFresh(h, 0, window, now);
    forall j | 0 <= j < |h| ensures first <= j <==> now - h[j].time <= window {
      assert j < first ==> !IsFresh(h[j], window, now);
      assert first <= j ==> h[first].time <= h[j].time;
    }
  }

  class SpeedMeter {
    const window: nat
    const capacity: nat
    var samples: seq<Sample>
    ghost var history: seq<Sample>  // every sample ever recorded

    ghost predicate Valid()
      reads this
    {
      Keeps(samples, history, window, capacity)
    }

    constructor (window: nat)
      ensures Valid() && history == [] && this.window == window && capacity == 1024
    {
      this.window := window;
      this.capacity := 1024;
      this.samples := [];
      this.history := [];
    }

    // Drops the front samples that are out of the window.
    method DropOld(now: nat, ghost h: seq<Sample>) returns (ghost k: nat)
      requires samples == h[Start(h, window, capacity)..]
      modifies `samples
      ensures Start(h, window, capacity) <= k <= |h| && samples == h[k..]
      ensures forall j :: Start(h, window, capacity) <= j < k ==> !IsFresh(h[j], window, now)
      ensures k < |h| ==> IsFresh(h[k], window, now)
    {
      ghost var from := Start(h, window, capacity);
      k := from;
      while |samples| > 0 && now - samples[0].time > window
        invariant from <= k <= |h| && samples == h[k..]
        invariant forall j :: from <= j < k ==> !IsFresh(h[j], window, now)
        decreases |samples|
      {
        samples := samples[1..];
        k := k + 1;
      }
    }

    // Drops front samples until the capacity is kept.
    method DropOver()
      modifies `samples
      ensures samples == LastOf(old(samples), capacity)
    {
      ghost var n := 0;
      while |samples| > capacity
        invariant n <= |old(samples)| && samples == old(samples)[n..]
        invariant n > 0 ==> |samples| >= capacity
        decreases |samples|
      {
        samples := samples[1..];
        n := n + 1;
      }
    }

    /** Dropping by age and dropping by capacity together keep exactly the newest samples
        of the whole history that are inside the window, at most capacity of them. */
    method Record(now: nat, bytes: nat)
      requires Valid()
      requires history != [] ==> history[|history| - 1].time <= now
      modifies this
      ensures Valid()
      ensures history == old(history) + [Sample(now, bytes)]
    {
      StartIsLastFresh(history, window, capacity);
      ghost var k := DropOld(now, history);
      samples := samples + [Sample(now, bytes)];
      DroppedByAge(history, Sample(now, bytes), k, window, capacity);
      DropOver();
      history := history + [Sample(now, bytes)];
    }
  }

  // Once the samples out of the window are dropped and the new one is in, the newest
  // `capacity` of what is left are the newest of all that are fresh.
  lemma DroppedByAge(h: seq<Sample>, s: Sample, k: nat, window: nat, capacity: nat)
    requires InOrder(h) && (h != [] ==> h[|h| - 1].time <= s.time)
    requires k <= |h| && (k < |h| ==> IsFresh(h[k], window, s.time))
    requires Start(h, window, capacity) <= k
    requires forall j :: Start(h, window, capacity) <= j < k ==> !IsFresh(h[j], window, s.time)
    ensures Keeps(LastOf(h[k..] + [s], capacity), h + [s], window, capacity)
  {
    var next := h + [s];
    assert next[k..] == h[k..] + [s];
    StartAfterDrop(h, s, k, window, capacity);
    KeptIsLastFresh(next, window, capacity, s.time);
  }

  lemma StartAfterDrop(h: seq<Sample>, s: Sample, k: nat, window: nat, capacity: nat)
    requires InOrder(h) && (h != [] ==> h[|h| - 1].time <= s.time)
    requires k <= |h| && (k < |h| ==> IsFresh(h[k], window, s.time))
    requires Start(h, window, capacity) <= k
    requires forall j :: Start(h, window, capacity) <= j < k ==> !IsFresh(h[j], window, s.time)
    ensures var next := h + [s];
            InOrder(next)
            && KeptFrom(next, window, capacity, s.time)
               == Max(k, if |next| <= capacity then 0 else |next| - capacity)
  {
    var next := h + [s];
    var first := FirstFresh(next, 0, window, s.time);
    assert IsFresh(next[|h|], window, s.time);
    assert forall j :: first <= j < |next| ==> next[first].time <= next[j].time;
    assert forall j :: first <= j < |next| ==> IsFresh(next[j], window, s.time);
    assert forall j :: 0 <= j < |h| ==> next[j] == h[j];
    var from := Start(h, window, capacity);
    assert first <= k by { assert k < |h| ==> IsFresh(next[k], window, s.time); }
    assert k <= first || k == from by { assert k > from ==> !IsFresh(next[k - 1], window, s.time); }
    if h != [] {
      var before := FirstFresh(h, 0, window, h[|h| - 1].time);
      assert forall j :: 0 <= j < before ==> !IsFresh(next[j], window, s.time);
      assert before <= first;
    }
  }
}
