/** `MetricsHistoryService` of src/monitoring/metrics-history.service.ts: a buffer that is pruned
    by age and by count on every capture, against the log of everything ever captured.

    `prune` looks only at the first point and discards step by step; over captures at
    non-decreasing times the buffer is nevertheless always the last `maxPoints` of the points
    inside the retention window. */
module MetricsHistory {
  import opened Numbers
  import opened Wrappers

  datatype Snapshot = Snapshot(
    cpuUsagePercent: real, processCpuUsagePercent: real, memoryUsagePercent: real,
    diskUsagePercent: Option<real>, processHeapUsedBytes: int, processRssBytes: int)

  datatype Point = Point(timestamp: int, values: Snapshot)

  /** `points.filter((p) => p.timestamp >= since)` */
  function From(ps: seq<Point>, since: int): (r: seq<Point>)
    ensures |r| <= |ps|
  {
    if ps == [] then [] else (if ps[0].timestamp >= since then [ps[0]] else []) + From(ps[1..], since)
  }

  /** `points.filter((p) => p.timestamp <= until)` */
  function Until(ps: seq<Point>, until: int): (r: seq<Point>)
    ensures |r| <= |ps|
  {
    if ps == [] then [] else (if ps[0].timestamp <= until then [ps[0]] else []) + Until(ps[1..], until)
  }

  /** `if (points.length > n) points = points.slice(points.length - n)`, also for `n` below zero. */
  function Last(ps: seq<Point>, n: int): (r: seq<Point>)
    ensures |r| <= |ps|
  {
    if |ps| <= n then ps else if n <= 0 then [] else ps[|ps| - n..]
  }

  /** `prune(now)` */
  function Pruned(ps: seq<Point>, now: int, retentionMs: int, maxPoints: int): seq<Point> {
    var cutoff := now - retentionMs;
    var kept := if ps != [] && ps[0].timestamp < cutoff then From(ps, cutoff) else ps;
    Last(kept, maxPoints)
  }

  /** The buffer after capturing all points of `log`, one after the other. */
  function Buffer(log: seq<Point>, retentionMs: int, maxPoints: int): seq<Point> {
    if log == [] then []
    else
      var p := log[|log| - 1];
      Pruned(Buffer(log[..|log| - 1], retentionMs, maxPoints) + [p], p.timestamp, retentionMs, maxPoints)
  }

  /** What the buffer is meant to be: computed from the whole log at once. */
  function Retained(log: seq<Point>, retentionMs: int, maxPoints: int): seq<Point> {
    if log == [] then [] else Last(From(log, log[|log| - 1].timestamp - retentionMs), maxPoints)
  }

  predicate NonDecreasing(ps: seq<Point>) {
    forall i, j :: 0 <= i < j < |ps| ==> ps[i].timestamp <= ps[j].timestamp
  }

  // ---------------------------------------------------------------- suffixes

  /** How many points of a log in time order are too old. */
  function TooOld(ps: seq<Point>, since: int): (k: nat)
    ensures k <= |ps|
  {
    if ps == [] || ps[0].timestamp >= since then 0 else 1 + TooOld(ps[1..], since)
  }

  /** In time order, filtering by age cuts off a front part. */
  lemma {:induction false} FromIsSuffix(ps: seq<Point>, since: int)
    requires NonDecreasing(ps)
    ensures From(ps, since) == ps[TooOld(ps, since)..]
  {
    if ps == [] {
    } else if ps[0].timestamp >= since {
      AllKept(ps, since);
    } else {
      FromIsSuffix(ps[1..], since);
    }
  }

  lemma {:induction false} AllKept(ps: seq<Point>, since: int)
    requires forall i :: 0 <= i < |ps| ==> ps[i].timestamp >= since
    ensures From(ps, since) == ps
  {
    if ps != [] {
      AllKept(ps[1..], since);
    }
  }

  lemma {:induction false} TooOldExact(ps: seq<Point>, since: int, k: nat)
    requires NonDecreasing(ps) && k < |ps|
    ensures k < TooOld(ps, since) <==> ps[k].timestamp < since
  {
    if ps[0].timestamp < since && k > 0 {
      TooOldExact(ps[1..], since, k - 1);
    }
  }

  /** Where the retained part of a log begins. */
  function Start(log: seq<Point>, retentionMs: int, maxPoints: int): (k: nat)
    requires log != []
    ensures k <= |log|
  {
    Max(TooOld(log, log[|log| - 1].timestamp - retentionMs), |log| - Max(0, maxPoints))
  }

  lemma RetainedIsSuffix(log: seq<Point>, retentionMs: int, maxPoints: int)
    requires log != [] && NonDecreasing(log)
    ensures Retained(log, retentionMs, maxPoints) == log[Start(log, retentionMs, maxPoints)..]
  {
    hide From, TooOld, NonDecreasing;
    FromIsSuffix(log, log[|log| - 1].timestamp - retentionMs);
  }

  /** One capture on a buffer that is a suffix of the log. */
  lemma CaptureOnSuffix(log: seq<Point>, k: nat, retentionMs: int, maxPoints: int)
    requires log != [] && NonDecreasing(log) && k < |log|
    requires k <= Start(log, retentionMs, maxPoints)
    ensures Pruned(log[k..], log[|log| - 1].timestamp, retentionMs, maxPoints)
         == log[Start(log, retentionMs, maxPoints)..]
  {
    hide From, TooOld, NonDecreasing, Last;
    var cutoff := log[|log| - 1].timestamp - retentionMs;
    DropAged(log, k, cutoff);
    LastOfSuffix(log, Max(TooOld(log, cutoff), k), maxPoints);
  }

  /** Looking at the first point only tells whether anything has to go. */
  lemma DropAged(log: seq<Point>, k: nat, cutoff: int)
    requires NonDecreasing(log) && k < |log|
    ensures (if log[k].timestamp < cutoff then From(log[k..], cutoff) else log[k..])
         == log[Max(TooOld(log, cutoff), k)..]
  {
    hide From, TooOld, NonDecreasing;
    SuffixOrdered(log, k);
    TooOldExact(log, cutoff, k);
    FromIsSuffix(log[k..], cutoff);
    TooOldOfSuffix(log, k, cutoff);
  }

  lemma SuffixOrdered(log: seq<Point>, k: nat)
    requires NonDecreasing(log) && k <= |log|
    ensures NonDecreasing(log[k..])
  {
  }

  lemma LastOfSuffix(log: seq<Point>, k: nat, n: int)
    requires k <= |log|
    ensures Last(log[k..], n) == log[Max(k, |log| - Max(0, n))..]
  {
  }

  lemma {:induction false} TooOldOfSuffix(ps: seq<Point>, k: nat, since: int)
    requires NonDecreasing(ps) && k <= |ps|
    ensures TooOld(ps[k..], since) == Max(TooOld(ps, since) - k, 0)
  {
    if k == 0 {
      assert ps[0..] == ps;
    } else {
      var rest := ps[1..];
      assert rest[k - 1..] == ps[k..];
      TooOldOfSuffix(rest, k - 1, since);
      if ps[0].timestamp >= since && k < |ps| {
        TooOldExact(ps, since, k);
        assert ps[k..][0] == ps[k];
      }
    }
  }

  /** A later point only moves the retained part on. */
  lemma StartAdvances(log: seq<Point>, p: Point, retentionMs: int, maxPoints: int)
    requires log != [] && NonDecreasing(log + [p])
    ensures Start(log, retentionMs, maxPoints) <= Start(log + [p], retentionMs, maxPoints)
    ensures Start(log, retentionMs, maxPoints) < |log + [p]|
  {
    var all := log + [p];
    var a, b := log[|log| - 1].timestamp - retentionMs, p.timestamp - retentionMs;
    assert all[|log| - 1] == log[|log| - 1] && all[|log|] == p;
    var k := TooOld(log, a);
    if k > 0 {
      assert NonDecreasing(log) by {
        assert forall i :: 0 <= i < |log| ==> log[i] == all[i];
      }
      TooOldExact(log, a, k - 1);
      assert all[k - 1] == log[k - 1];
      TooOldExact(all, b, k - 1);
    }
  }

  /** For every sequence of captures at non-decreasing times the buffer is exactly the last
      `maxPoints` of all points ever captured that fall inside the retention window. */
  lemma {:induction false} BufferExact(log: seq<Point>, retentionMs: int, maxPoints: int)
    requires NonDecreasing(log)
    ensures Buffer(log, retentionMs, maxPoints) == Retained(log, retentionMs, maxPoints)
  {
    hide Retained, Start, Pruned, TooOld, From, Last;
    if log == [] {
      RetainedEmpty(retentionMs, maxPoints);
    } else {
      var front, p := log[..|log| - 1], log[|log| - 1];
      assert log == front + [p];
      BufferExact(front, retentionMs, maxPoints);
      CaptureOnRetained(front, p, retentionMs, maxPoints);
    }
  }

  /** Capturing one more point turns what should be retained into what should be retained next. */
  lemma CaptureOnRetained(front: seq<Point>, p: Point, retentionMs: int, maxPoints: int)
    requires NonDecreasing(front) && NonDecreasing(front + [p])
    ensures Pruned(Retained(front, retentionMs, maxPoints) + [p], p.timestamp, retentionMs, maxPoints)
         == Retained(front + [p], retentionMs, maxPoints)
  {
    hide *;
    var log := front + [p];
    RetainedIsSuffix(log, retentionMs, maxPoints);
    if front == [] {
      RetainedEmpty(retentionMs, maxPoints);
      assert [] + [p] == log == log[0..];
      CaptureOnSuffix(log, 0, retentionMs, maxPoints);
    } else {
      RetainedIsSuffix(front, retentionMs, maxPoints);
      var k := Start(front, retentionMs, maxPoints);
      StartAdvances(front, p, retentionMs, maxPoints);
      SuffixAppend(front, p, k);
      CaptureOnSuffix(log, k, retentionMs, maxPoints);
    }
  }

  lemma SuffixAppend<T>(front: seq<T>, p: T, k: nat)
    requires k <= |front|
    ensures front[k..] + [p] == (front + [p])[k..]
  {
  }

  lemma RetainedEmpty(retentionMs: int, maxPoints: int)
    ensures Retained([], retentionMs, maxPoints) == []
  {
  }

  // ---------------------------------------------------------------- any clock

  predicate NoneAged(ps: seq<Point>, cutoff: int) {
    forall i :: 0 <= i < |ps| ==> ps[i].timestamp >= cutoff
  }

  /** The first point is aged, so that `prune` filters; or there is nothing to filter. */
  predicate PrunesAll(ps: seq<Point>, cutoff: int, maxPoints: int) {
    (ps != [] && ps[0].timestamp < cutoff) || NoneAged(Last(ps, maxPoints), cutoff)
  }

  lemma {:induction false} FilteredIsFresh(ps: seq<Point>, cutoff: int)
    ensures NoneAged(From(ps, cutoff), cutoff)
  {
    if ps != [] {
      FilteredIsFresh(ps[1..], cutoff);
    }
  }

  lemma FreshPart(ps: seq<Point>, cutoff: int, n: int)
    requires NoneAged(ps, cutoff)
    ensures NoneAged(Last(ps, n), cutoff)
  {
  }

  /** Points that are fresh among the last `n` are also the last `n` of the fresh ones. */
  lemma LastOfFresh(ps: seq<Point>, cutoff: int, n: int)
    requires NoneAged(Last(ps, n), cutoff)
    ensures Last(From(ps, cutoff), n) == Last(ps, n)
  {
    hide From;
    if |ps| <= n {
      AllKept(ps, cutoff);
    } else if n > 0 {
      var k := |ps| - n;
      assert ps == ps[..k] + ps[k..];
      FromAppend(ps[..k], ps[k..], cutoff);
      AllKept(ps[k..], cutoff);
    }
  }

  /** Whatever the clock does: no aged point survives `prune`, and the result is the last
      `maxPoints` of the fresh ones, exactly when the first point is aged or none of the last
      `maxPoints` is. */
  lemma PruneExact(ps: seq<Point>, now: int, retentionMs: int, maxPoints: int)
    ensures var cutoff, kept := now - retentionMs, Pruned(ps, now, retentionMs, maxPoints);
      && (NoneAged(kept, cutoff) <==> PrunesAll(ps, cutoff, maxPoints))
      && (kept == Last(From(ps, cutoff), maxPoints) <==> PrunesAll(ps, cutoff, maxPoints))
  {
    hide From, Last, NoneAged;
    var cutoff := now - retentionMs;
    FilteredIsFresh(ps, cutoff);
    FreshPart(From(ps, cutoff), cutoff, maxPoints);
    if NoneAged(Last(ps, maxPoints), cutoff) {
      LastOfFresh(ps, cutoff, maxPoints);
    }
  }

  /** If the clock steps back, a point that is long expired can stay. */
  lemma ClockStepBackKeepsOldPoint(v: Snapshot)
    ensures var log := [Point(100, v), Point(0, v), Point(104, v)];
      Buffer(log, 5, 10) == log && Retained(log, 5, 10) == [Point(100, v), Point(104, v)]
  {
    hide Buffer, From;
    var a, b, c := Point(100, v), Point(0, v), Point(104, v);
    CaptureStep([], a, 5, 10);
    CaptureStep([a], b, 5, 10);
    CaptureStep([a, b], c, 5, 10);
    assert [] + [a] == [a] && [a] + [b] == [a, b] && [a, b] + [c] == [a, b, c];
    FromAppend([a], [b], 99);
    FromAppend([a, b], [c], 99);
    FromOne(a, 99);
    FromOne(b, 99);
    FromOne(c, 99);
    assert [a] + [] + [c] == [a, c];
  }

  /** It can also lose points: what a later clock discarded, an earlier one would keep.  Each of
      these captures prunes all that is expired in the buffer. */
  lemma ClockStepBackLosesPoint(v: Snapshot)
    ensures var log := [Point(100, v), Point(1000, v), Point(102, v)];
      && Buffer(log, 5, 10) == [Point(1000, v), Point(102, v)] && Retained(log, 5, 10) == log
      && PrunesAll([Point(100, v)], 95, 10)
      && PrunesAll([Point(100, v), Point(1000, v)], 995, 10)
      && PrunesAll([Point(1000, v), Point(102, v)], 97, 10)
  {
    var a, b, c := Point(100, v), Point(1000, v), Point(102, v);
    hide From, Buffer;
    CaptureStep([], a, 5, 10);
    CaptureStep([a], b, 5, 10);
    CaptureStep([a] + [b], c, 5, 10);
    FromOne(a, 995);
    FromOne(b, 995);
    FromAppend([a], [b], 995);
    assert [] + [a] == [a] && [a] + [b] == [a, b] && [a, b] + [c] == [a, b, c] && [b] + [c] == [b, c];
    assert Buffer([a], 5, 10) == [a];
    assert Buffer([a, b], 5, 10) == [b];
    AllKept([a, b, c], 97);
  }

  /** After the first `k` captures and one of `p`, the buffer is what should be retained. */
  ghost predicate ExactAfter(log: seq<Point>, k: nat, p: Point, retentionMs: nat, maxPoints: int)
    requires k <= |log|
  {
    Buffer(log[..k] + [p], retentionMs, maxPoints) == Retained(log[..k] + [p], retentionMs, maxPoints)
  }

  /** `p` is not captured before the last of the first `k` points. */
  predicate NoEarlier(log: seq<Point>, k: nat, p: Point)
    requires k <= |log|
  {
    k == 0 || log[k - 1].timestamp <= p.timestamp
  }

  /** The clock never stepped back exactly when, under all settings, the buffer was right after
      every capture and will be right after any next one that is not earlier. */
  lemma OrderedExactly(log: seq<Point>)
    ensures NonDecreasing(log) <==>
      forall k: nat, p, retentionMs: nat, maxPoints ::
        k <= |log| && NoEarlier(log, k, p) ==> ExactAfter(log, k, p, retentionMs, maxPoints)
  {
    hide Buffer, Retained;
    if NonDecreasing(log) {
      forall k: nat, p, retentionMs: nat, maxPoints | k <= |log| && NoEarlier(log, k, p)
        ensures ExactAfter(log, k, p, retentionMs, maxPoints)
      {
        PrefixOrdered(log, k, p);
        BufferExact(log[..k] + [p], retentionMs, maxPoints);
      }
    } else {
      var i := StepBack(log);
      var p := log[i];
      var gap: nat := log[i].timestamp - log[i + 1].timestamp - 1;
      StepBackShows(log[..i], log[i], log[i + 1]);
      assert log[..i + 2] == log[..i] + [log[i]] + [log[i + 1]];
      assert NoEarlier(log, i + 2, p) && !ExactAfter(log, i + 2, p, gap, 2);
    }
  }

  lemma PrefixOrdered(log: seq<Point>, k: nat, p: Point)
    requires NonDecreasing(log) && k <= |log| && NoEarlier(log, k, p)
    ensures NonDecreasing(log[..k] + [p])
  {
    var all := log[..k] + [p];
    forall i, j | 0 <= i < j < |all| ensures all[i].timestamp <= all[j].timestamp {
      assert i < k - 1 ==> log[i].timestamp <= log[k - 1].timestamp;
    }
  }

  /** Some capture is earlier than the one before it. */
  lemma {:induction false} StepBack(log: seq<Point>) returns (i: nat)
    requires !NonDecreasing(log)
    ensures i + 1 < |log| && log[i].timestamp > log[i + 1].timestamp
  {
    var k := |log| - 1;
    if log[k - 1].timestamp > log[k].timestamp {
      i := k - 1;
    } else {
      OrderedByLast(log);
      i := StepBack(log[..k]);
    }
  }

  lemma OrderedByLast(log: seq<Point>)
    requires |log| >= 2 && log[|log| - 2].timestamp <= log[|log| - 1].timestamp
    ensures NonDecreasing(log[..|log| - 1]) ==> NonDecreasing(log)
  {
    var k := |log| - 1;
    if NonDecreasing(log[..k]) {
      PrefixOrdered(log[..k], k, log[k]);
      assert log == log[..k][..k] + [log[k]];
    }
  }

  /** After a step back from `a` to `b`, a capture at the time of `a` with room for two keeps `b`,
      though it is older than the time to retain allows. */
  lemma StepBackShows(front: seq<Point>, a: Point, b: Point)
    requires a.timestamp > b.timestamp
    ensures var log, gap := front + [a] + [b] + [a], a.timestamp - b.timestamp - 1;
      Buffer(log, gap, 2) != Retained(log, gap, 2)
  {
    hide *;
    var gap := a.timestamp - b.timestamp - 1;
    var cutoff := a.timestamp - gap;
    CaptureStep(front, a, gap, 2);
    CaptureStep(front + [a], b, gap, 2);
    CaptureStep(front + [a] + [b], a, gap, 2);
    LastOneKept(Buffer(front, gap, 2), a, gap);
    var x := Buffer(front + [a], gap, 2);
    LastTwoKept(x[..|x| - 1], a, b, gap);
    assert x == x[..|x| - 1] + [a];
    assert x[..|x| - 1] + [a] + [b] == x + [b];
    FirstIsFresh(a, b, gap);
    RetainedIsFresh(front + [a] + [b], a, gap, 2);
  }

  lemma LastOneKept(ps: seq<Point>, a: Point, gap: nat)
    ensures var r := Pruned(ps + [a], a.timestamp, gap, 2); r != [] && r[|r| - 1] == a
  {
    hide From;
    FromAppend(ps, [a], a.timestamp - gap);
    FromOne(a, a.timestamp - gap);
  }

  lemma LastTwoKept(ps: seq<Point>, a: Point, b: Point, gap: nat)
    requires a.timestamp > b.timestamp
    ensures Pruned(ps + [a] + [b], b.timestamp, gap, 2) == [a, b]
  {
    hide From;
    var cutoff := b.timestamp - gap;
    FromAppend(ps + [a], [b], cutoff);
    FromAppend(ps, [a], cutoff);
    FromOne(a, cutoff);
    FromOne(b, cutoff);
    assert From(ps, cutoff) + [a] + [b] == From(ps + [a] + [b], cutoff);
  }

  lemma FirstIsFresh(a: Point, b: Point, gap: nat)
    requires gap == a.timestamp - b.timestamp - 1
    ensures Pruned([a, b] + [a], a.timestamp, gap, 2) == [b, a]
    ensures !NoneAged([b, a], a.timestamp - gap)
  {
    hide From;
    assert [b, a][0].timestamp < a.timestamp - gap;
  }

  lemma RetainedIsFresh(front: seq<Point>, p: Point, retentionMs: int, maxPoints: int)
    ensures NoneAged(Retained(front + [p], retentionMs, maxPoints), p.timestamp - retentionMs)
  {
    hide From, Last, NoneAged;
    var cutoff := p.timestamp - retentionMs;
    FilteredIsFresh(front + [p], cutoff);
    FreshPart(From(front + [p], cutoff), cutoff, maxPoints);
  }

  lemma CaptureStep(log: seq<Point>, p: Point, retentionMs: int, maxPoints: int)
    ensures Buffer(log + [p], retentionMs, maxPoints)
         == Pruned(Buffer(log, retentionMs, maxPoints) + [p], p.timestamp, retentionMs, maxPoints)
    ensures Buffer([], retentionMs, maxPoints) == []
  {
    assert (log + [p])[..|log|] == log;
  }

  lemma FromOne(p: Point, since: int)
    ensures From([p], since) == if p.timestamp >= since then [p] else []
  {
  }

  // ---------------------------------------------------------------- queries

  datatype Query = Query(since: Option<int>, until: Option<int>, limit: Option<int>)

  /** Points in the asked range. */
  function InRange(ps: seq<Point>, q: Query): seq<Point> {
    var a := if q.since.Some? then From(ps, q.since.value) else ps;
    if q.until.Some? then Until(a, q.until.value) else a
  }

  function Answer(ps: seq<Point>, q: Query): seq<Point> {
    if q.limit.Some? then Last(InRange(ps, q), q.limit.value) else InRange(ps, q)
  }

  lemma Assoc<T>(a: seq<T>, b: seq<T>, c: seq<T>)
    ensures a + (b + c) == (a + b) + c
  {
  }

  lemma Split<T>(a: seq<T>, b: seq<T>)
    requires a != []
    ensures (a + b)[0] == a[0] && (a + b)[1..] == a[1..] + b
  {
  }

  lemma FromStep(ps: seq<Point>, since: int)
    ensures ps == [] ==> From(ps, since) == []
    ensures ps != [] ==> From(ps, since) == (if ps[0].timestamp >= since then [ps[0]] else []) + From(ps[1..], since)
  {
  }

  lemma {:induction false} FromAppend(a: seq<Point>, b: seq<Point>, since: int)
    ensures From(a + b, since) == From(a, since) + From(b, since)
  {
    hide From;
    FromStep(a, since);
    if a == [] {
      assert a + b == b;
    } else {
      FromAppend(a[1..], b, since);
      FromStep(a + b, since);
      Split(a, b);
      Assoc(if a[0].timestamp >= since then [a[0]] else [], From(a[1..], since), From(b, since));
    }
  }

  lemma UntilStep(ps: seq<Point>, until: int)
    ensures ps == [] ==> Until(ps, until) == []
    ensures ps != [] ==> Until(ps, until) == (if ps[0].timestamp <= until then [ps[0]] else []) + Until(ps[1..], until)
  {
  }

  lemma {:induction false} UntilAppend(a: seq<Point>, b: seq<Point>, until: int)
    ensures Until(a + b, until) == Until(a, until) + Until(b, until)
  {
    hide Until;
    UntilStep(a, until);
    if a == [] {
      assert a + b == b;
    } else {
      UntilAppend(a[1..], b, until);
      UntilStep(a + b, until);
      Split(a, b);
      Assoc(if a[0].timestamp <= until then [a[0]] else [], Until(a[1..], until), Until(b, until));
    }
  }

  lemma InRangeAppend(a: seq<Point>, b: seq<Point>, q: Query)
    ensures InRange(a + b, q) == InRange(a, q) + InRange(b, q)
  {
    hide From, Until;
    if q.since.Some? {
      FromAppend(a, b, q.since.value);
    }
    if q.until.Some? {
      var x := if q.since.Some? then From(a, q.since.value) else a;
      var y := if q.since.Some? then From(b, q.since.value) else b;
      UntilAppend(x, y, q.until.value);
    }
  }

  lemma {:induction false} NoneFrom(ps: seq<Point>, since: int)
    requires forall i :: 0 <= i < |ps| ==> ps[i].timestamp < since
    ensures From(ps, since) == []
  {
    if ps != [] {
      NoneFrom(ps[1..], since);
    }
  }

  /** The retained points answer a query like the whole log exactly when no discarded point is
      in range, or the retained points hold at least as many matches as the query wants. */
  lemma AnswersExact(log: seq<Point>, retentionMs: int, maxPoints: int, q: Query)
    requires log != [] && NonDecreasing(log)
    ensures var kept := Retained(log, retentionMs, maxPoints);
      Answer(kept, q) == Answer(log, q) <==>
        || InRange(log[..Start(log, retentionMs, maxPoints)], q) == []
        || (q.limit.Some? && q.limit.value <= |InRange(kept, q)|)
  {
    hide From, Until, Retained, Start, InRange;
    var k := Start(log, retentionMs, maxPoints);
    RetainedIsSuffix(log, retentionMs, maxPoints);
    assert log == log[..k] + log[k..];
    InRangeAppend(log[..k], log[k..], q);
  }

  /** In particular when the range begins after the first retained point. */
  lemma AnswersLikeTheLog(log: seq<Point>, retentionMs: int, maxPoints: int, q: Query)
    requires log != [] && NonDecreasing(log)
    requires var kept := Retained(log, retentionMs, maxPoints);
      q.since.Some? && kept != [] && kept[0].timestamp < q.since.value
    ensures Answer(Retained(log, retentionMs, maxPoints), q) == Answer(log, q)
  {
    hide From, Until, Retained, Start, InRange;
    var k := Start(log, retentionMs, maxPoints);
    RetainedIsSuffix(log, retentionMs, maxPoints);
    NoneFrom(log[..k], q.since.value);
    NothingInRange(log[..k], q);
    AnswersExact(log, retentionMs, maxPoints, q);
  }

  lemma NothingInRange(ps: seq<Point>, q: Query)
    requires q.since.Some? && From(ps, q.since.value) == []
    ensures InRange(ps, q) == []
  {
  }

  // ---------------------------------------------------------------- which points are answered

  /** The point is not before `since` and not after `until`, where they are given. */
  predicate Wanted(p: Point, q: Query) {
    && (q.since.Some? ==> q.since.value <= p.timestamp)
    && (q.until.Some? ==> p.timestamp <= q.until.value)
  }

  /** The points in range are those wanted, each as often as it stands there and in the same order. */
  lemma RangeGrows(ps: seq<Point>, p: Point, q: Query)
    ensures InRange([], q) == []
    ensures InRange(ps + [p], q) == InRange(ps, q) + if Wanted(p, q) then [p] else []
  {
    hide InRange;
    InRangeAppend(ps, [p], q);
    RangeOfOne(p, q);
  }

  lemma RangeOfOne(p: Point, q: Query)
    ensures InRange([], q) == [] && InRange([p], q) == if Wanted(p, q) then [p] else []
  {
    assert [p][1..] == [];
  }

  lemma {:induction false} RangeMembers(ps: seq<Point>, q: Query, p: Point)
    ensures p in InRange(ps, q) <==> p in ps && Wanted(p, q)
  {
    hide InRange, Wanted;
    if ps == [] {
      RangeOfOne(p, q);
    } else {
      var front, last := ps[..|ps| - 1], ps[|ps| - 1];
      assert ps == front + [last];
      RangeGrows(front, last, q);
      RangeMembers(front, q, p);
    }
  }

  /** An answer is the end of the points in range: as many as there are, but no more than the
      limit, and none for a limit below one. */
  lemma AnswerHolds(ps: seq<Point>, q: Query)
    ensures var range, answer := InRange(ps, q), Answer(ps, q);
      && |answer| == (if q.limit.Some? && q.limit.value < |range| then Max(q.limit.value, 0) else |range|)
      && answer == range[|range| - |answer|..]
      && forall p :: p in range <==> p in ps && Wanted(p, q)
  {
    hide InRange;
    forall p ensures p in InRange(ps, q) <==> p in ps && Wanted(p, q) {
      RangeMembers(ps, q, p);
    }
  }

  // ---------------------------------------------------------------- the service

  class Service {
    const retentionMs: int
    const maxPoints: int
    var points: seq<Point>
    /** Every point captured since the last `clear`. */
    ghost var log: seq<Point>

    ghost predicate Valid()
      reads this
    {
      points == Buffer(log, retentionMs, maxPoints)
    }

    constructor (retention: int, cap: int)
      ensures Valid() && points == [] && log == [] && retentionMs == retention && maxPoints == cap
    {
      retentionMs, maxPoints, points, log := retention, cap, [], [];
    }

    /** `capture(now)`: nothing happens while there is no snapshot.  After captures at
        non-decreasing times the buffer is what the whole log says. */
    method Capture(now: int, snapshot: Option<Snapshot>) returns (r: Option<Point>)
      requires Valid()
      modifies this
      ensures Valid()
      ensures r == if snapshot.Some? then Some(Point(now, snapshot.value)) else None
      ensures log == if r.Some? then old(log) + [r.value] else old(log)
      ensures NonDecreasing(log) ==> points == Retained(log, retentionMs, maxPoints)
      ensures r.Some? ==>
        (NoneAged(points, now - retentionMs) <==> PrunesAll(old(points) + [r.value], now - retentionMs, maxPoints))
    {
      hide Pruned, Retained, NonDecreasing, NoneAged, PrunesAll;
      if snapshot.None? {
        r := None;
      } else {
        var point := Point(now, snapshot.value);
        points := points + [point];
        log := log + [point];
        Prune(now);
        assert log[..|log| - 1] == old(log);
        r := Some(point);
      }
      if NonDecreasing(log) {
        BufferExact(log, retentionMs, maxPoints);
      }
    }

    method Prune(now: int)
      modifies this`points
      ensures points == Pruned(old(points), now, retentionMs, maxPoints)
      ensures NoneAged(points, now - retentionMs) <==> PrunesAll(old(points), now - retentionMs, maxPoints)
    {
      hide From, NoneAged, PrunesAll;
      var cutoff := now - retentionMs;
      PruneExact(points, now, retentionMs, maxPoints);
      if |points| > 0 && points[0].timestamp < cutoff {
        points := From(points, cutoff);
      }
      if |points| > maxPoints {
        points := if maxPoints <= 0 then [] else points[|points| - maxPoints..];
      }
    }

    /** `query(q)` only reads.  Over a log in time order it answers like the whole log exactly
        when no discarded point is in range or the buffer holds as many matches as wanted. */
    method Ask(q: Query) returns (r: seq<Point>)
      requires Valid()
      ensures r == Answer(points, q)
      ensures log != [] && NonDecreasing(log) ==>
        (r == Answer(log, q) <==>
           || InRange(log[..Start(log, retentionMs, maxPoints)], q) == []
           || (q.limit.Some? && q.limit.value <= |InRange(points, q)|))
    {
      hide Buffer, Start, NonDecreasing, Retained, From, Until;
      if log != [] && NonDecreasing(log) {
        BufferExact(log, retentionMs, maxPoints);
        AnswersExact(log, retentionMs, maxPoints, q);
      }
      r := points;
      if q.since.Some? {
        r := From(r, q.since.value);
      }
      if q.until.Some? {
        r := Until(r, q.until.value);
      }
      if q.limit.Some? && |r| > q.limit.value {
        r := if q.limit.value <= 0 then [] else r[|r| - q.limit.value..];
      }
    }

    method Clear()
      modifies this
      ensures Valid() && points == [] && log == []
    {
      points, log := [], [];
    }
  }
}
