/**
 * Frustration scoring of `backend/src/services/UXAnalyzer.ts`: the rage-quit
 * probability computed from a list of frustration events, and the heatmap
 * points derived from the same events. Both are pure and total.
 */
module UXAnalyzer {
  import opened Js

  datatype EventType = RapidClick | MouseStill | Backtracking

  /** One observed frustration signal; `duration` is optional in the source. */
  datatype FrustrationEvent = FrustrationEvent(
    kind: EventType,
    timestamp: real,
    x: real,
    y: real,
    duration: Option<real>)

  /** A mouse-still event counts as a stall only above this many milliseconds. */
  const StallThresholdMs: real := 3000.0

  /** `e.duration || 0`: an absent duration reads as 0. */
  function DurationOrZero(e: FrustrationEvent): real {
    e.duration.GetOr(0.0)
  }

  predicate IsRapidClick(e: FrustrationEvent) {
    e.kind == RapidClick
  }

  predicate IsStall(e: FrustrationEvent) {
    e.kind == MouseStill && DurationOrZero(e) > StallThresholdMs
  }

  predicate IsBacktrack(e: FrustrationEvent) {
    e.kind == Backtracking
  }

  /** `events.filter(p).length` */
  function Count(events: seq<FrustrationEvent>, p: FrustrationEvent -> bool): (n: nat)
    ensures n <= |events|
  {
    if events == [] then 0
    else (if p(events[0]) then 1 else 0) + Count(events[1..], p)
  }

  /** A count is 0 exactly when no event matches. */
  lemma {:induction false} CountZero(events: seq<FrustrationEvent>, p: FrustrationEvent -> bool)
    ensures Count(events, p) == 0 <==> forall i :: 0 <= i < |events| ==> !p(events[i])
  {
    if events != [] {
      CountZero(events[1..], p);
      assert forall i :: 1 <= i < |events| ==> events[i] == events[1..][i - 1];
    }
  }

  /**
   * `calculateRageQuitProbability`: 0.2 per rapid click, 0.15 per stall,
   * 0.1 per backtrack, rounded to hundredths and capped at 1.0.
   */
  function RageQuitProbability(events: seq<FrustrationEvent>): (p: real)
    ensures 0.0 <= p <= 1.0
  {
    var rapidClicks := Count(events, IsRapidClick);
    var stalls := Count(events, IsStall);
    var backtracks := Count(events, IsBacktrack);
    var score := rapidClicks as real * 0.2 + stalls as real * 0.15 + backtracks as real * 0.1;
    var rounded := MathRound(score * 100.0) as real / 100.0;
    if rounded <= 1.0 then rounded else 1.0
  }

  /** The rage-quit probability in whole hundredths, from the three counts alone. */
  function Hundredths(rapidClicks: nat, stalls: nat, backtracks: nat): (h: nat)
    ensures h <= 100
    ensures h == 100 <==> 20 * rapidClicks + 15 * stalls + 10 * backtracks >= 100
  {
    var raw := 20 * rapidClicks + 15 * stalls + 10 * backtracks;
    if raw <= 100 then raw else 100
  }

  function RageQuitHundredths(events: seq<FrustrationEvent>): nat {
    Hundredths(Count(events, IsRapidClick), Count(events, IsStall), Count(events, IsBacktrack))
  }

  /** The weighted sum times 100 is a whole number, so rounding to hundredths is exact. */
  lemma ProbabilityInHundredths(events: seq<FrustrationEvent>)
    ensures RageQuitProbability(events) == RageQuitHundredths(events) as real / 100.0
  {
    var r, s, b := Count(events, IsRapidClick), Count(events, IsStall), Count(events, IsBacktrack);
    var score := r as real * 0.2 + s as real * 0.15 + b as real * 0.1;
    var raw := 20 * r + 15 * s + 10 * b;
    assert score * 100.0 == raw as real;
    MathRoundOfInteger(raw);
  }

  /** An empty event list gives probability 0. */
  lemma EmptyIsZero()
    ensures RageQuitProbability([]) == 0.0
  {
    ProbabilityInHundredths([]);
  }

  /** A single event is a stall exactly when it is a mouse-still event whose duration exceeds 3000 ms. */
  lemma StallRule(e: FrustrationEvent)
    ensures Count([e], IsStall) == 1 <==>
              e.kind == MouseStill && e.duration.Some? && e.duration.value > 3000.0
  {
    assert [e][1..] == [];
  }

  /** Counting distributes over concatenation. */
  lemma {:induction false} CountAppend(a: seq<FrustrationEvent>, b: seq<FrustrationEvent>, p: FrustrationEvent -> bool)
    ensures Count(a + b, p) == Count(a, p) + Count(b, p)
  {
    if a == [] {
      assert a + b == b;
    } else {
      assert (a + b)[1..] == a[1..] + b;
      CountAppend(a[1..], b, p);
    }
  }

  /** The count of a list with one more event in front. */
  lemma CountCons(x: FrustrationEvent, rest: seq<FrustrationEvent>, p: FrustrationEvent -> bool)
    ensures Count([x] + rest, p) == (if p(x) then 1 else 0) + Count(rest, p)
  {
    assert ([x] + rest)[1..] == rest;
  }

  /** Taking one event out of a list lowers each count by that event's own contribution. */
  lemma CountWithout(b: seq<FrustrationEvent>, i: nat, p: FrustrationEvent -> bool)
    requires i < |b|
    ensures Count(b, p) == Count(b[..i] + b[i + 1..], p) + (if p(b[i]) then 1 else 0)
  {
    var front, tail, back := b[..i], b[i..], b[i + 1..];
    assert b == front + tail;
    assert tail == [b[i]] + back;
    CountAppend(front, tail, p);
    CountCons(b[i], back, p);
    CountAppend(front, back, p);
  }

  /** Removing the same element from two permutations of each other leaves permutations. */
  lemma MultisetWithout(a: seq<FrustrationEvent>, b: seq<FrustrationEvent>, i: nat)
    requires a != [] && i < |b| && b[i] == a[0]
    requires multiset(a) == multiset(b)
    ensures multiset(a[1..]) == multiset(b[..i] + b[i + 1..])
  {
    assert a == [a[0]] + a[1..];
    assert b == b[..i] + [b[i]] + b[i + 1..];
    assert multiset(a[1..]) == multiset(a) - multiset{a[0]};
    assert multiset(b[..i] + b[i + 1..]) == multiset(b) - multiset{b[i]};
  }

  /** A count depends only on the multiset of events, not on their order. */
  lemma {:induction false} CountPermutation(a: seq<FrustrationEvent>, b: seq<FrustrationEvent>, p: FrustrationEvent -> bool)
    requires multiset(a) == multiset(b)
    ensures Count(a, p) == Count(b, p)
    decreases |a|
  {
    if a == [] {
      assert |b| == |multiset(b)| == 0;
    } else {
      assert a[0] in multiset(b);
      var i :| 0 <= i < |b| && b[i] == a[0];
      MultisetWithout(a, b, i);
      CountPermutation(a[1..], b[..i] + b[i + 1..], p);
      CountWithout(b, i, p);
    }
  }

  /** Reordering the events does not change the probability. */
  lemma ReorderingKeepsProbability(a: seq<FrustrationEvent>, b: seq<FrustrationEvent>)
    requires multiset(a) == multiset(b)
    ensures RageQuitProbability(a) == RageQuitProbability(b)
  {
    CountPermutation(a, b, IsRapidClick);
    CountPermutation(a, b, IsStall);
    CountPermutation(a, b, IsBacktrack);
  }

  /** Appending an event never lowers the probability. */
  lemma AppendingNeverLowers(events: seq<FrustrationEvent>, e: FrustrationEvent)
    ensures RageQuitProbability(events) <= RageQuitProbability(events + [e])
  {
    CountAppend(events, [e], IsRapidClick);
    CountAppend(events, [e], IsStall);
    CountAppend(events, [e], IsBacktrack);
    ProbabilityInHundredths(events);
    ProbabilityInHundredths(events + [e]);
  }

  /** Five rapid clicks already reach 1.0, whatever else happened. */
  lemma FiveRapidClicksSaturate(events: seq<FrustrationEvent>)
    requires Count(events, IsRapidClick) >= 5
    ensures RageQuitProbability(events) == 1.0
  {
    ProbabilityInHundredths(events);
  }

  /** One point of `generateHeatmapData`. */
  datatype HeatPoint = HeatPoint(x: real, y: real, intensity: real)

  /**
   * `generateHeatmapData`: one point per event, in order, at the event's position;
   * full intensity for a rapid click, half for anything else.
   */
  function GenerateHeatmapData(events: seq<FrustrationEvent>): (points: seq<HeatPoint>)
    ensures |points| == |events|
    ensures forall i :: 0 <= i < |events| ==>
              points[i].x == events[i].x && points[i].y == events[i].y
    ensures forall i :: 0 <= i < |events| ==>
              (points[i].intensity == 1.0 <==> events[i].kind == RapidClick) &&
              (points[i].intensity == 0.5 <==> events[i].kind != RapidClick)
  {
    if events == [] then []
    else
      var e := events[0];
      [HeatPoint(e.x, e.y, if e.kind == RapidClick then 1.0 else 0.5)] + GenerateHeatmapData(events[1..])
  }
}
