/**
 The simulated drive along a route
 (tools/v2i-hub-simulator/V2IHubSimulator/MainWindow.xaml.cs): when position messages are sent, and
 where on the route each of them puts the vehicle. Distances, speeds and seconds are exact reals;
 the clock counts whole milliseconds.
 */
module RouteSimulation {

  datatype Waypoint = Waypoint(speedMph: real, pauseSeconds: real)

  /** The waypoints, and the great-circle distance in metres between each and the next. */
  datatype Route = Route(points: seq<Waypoint>, lengths: seq<real>)

  /** What the code works out for one pair of neighbours. */
  datatype Leg = Leg(length: real, v1: real, v2: real, pause: real)

  // ---------- one leg ----------

  /** Two waypoints may lie in one place, but the vehicle does not stand at both. */
  predicate Passes(l: Leg) {
    l.length >= 0.0 && l.v1 >= 0.0 && l.v2 >= 0.0 && (l.v1 > 0.0 || l.v2 > 0.0)
  }

  predicate Drivable(l: Leg) {
    Passes(l) && l.length > 0.0
  }

  function Acceleration(l: Leg): real
    requires l.length > 0.0
  {
    ((l.v2 * l.v2) - (l.v1 * l.v1)) / (l.length * 2.0)
  }

  lemma SpeedsDiffer(l: Leg)
    requires Drivable(l)
    ensures Acceleration(l) == 0.0 <==> l.v1 == l.v2
    ensures Acceleration(l) * l.length * 2.0 == (l.v2 - l.v1) * (l.v2 + l.v1)
  {
    DoubledQuotient((l.v2 * l.v2) - (l.v1 * l.v1), l.length);
    Squares(l.v1, l.v2);
    if Acceleration(l) == 0.0 { NoFactor(l.v2 - l.v1, l.v2 + l.v1); }
  }

  lemma DoubledQuotient(x: real, length: real)
    requires length > 0.0
    ensures (x / (length * 2.0)) * length * 2.0 == x
  {
    var d := length * 2.0;
    assert (x / d) * d == x;
    assert (x / d) * length * 2.0 == (x / d) * d;
  }

  lemma Squares(v1: real, v2: real)
    ensures (v2 - v1) * (v2 + v1) == (v2 * v2) - (v1 * v1)
  {
  }

  lemma NoFactor(x: real, y: real)
    requires x * y == 0.0 && y > 0.0
    ensures x == 0.0
  {
  }

  function TravelSeconds(l: Leg): real
    requires Drivable(l)
  {
    if l.v1 == l.v2 then l.length / l.v1
    else
      SpeedsDiffer(l);
      (l.v2 - l.v1) / Acceleration(l)
  }

  /** The time at the mean of the two speeds; at its end the vehicle has the second one. */
  lemma TravelTime(l: Leg)
    requires Drivable(l)
    ensures TravelSeconds(l) > 0.0
    ensures TravelSeconds(l) * (l.v1 + l.v2) == 2.0 * l.length
    ensures l.v1 + TravelSeconds(l) * Acceleration(l) == l.v2
  {
    SpeedsDiffer(l);
    var a, t := Acceleration(l), TravelSeconds(l);
    if l.v1 == l.v2 {
      assert t * l.v1 == l.length;
    } else {
      var dv, sv := l.v2 - l.v1, l.v2 + l.v1;
      assert t * a == dv;
      assert a * (l.length * 2.0) == dv * sv;
      Cancel(t, a, dv, sv, l.length * 2.0);
    }
    Positive(t, l.v1 + l.v2, 2.0 * l.length);
  }

  lemma Cancel(t: real, a: real, dv: real, sv: real, d: real)
    requires a != 0.0 && t * a == dv && a * d == dv * sv
    ensures t * sv == d
  {
    assert (t * sv) * a == (t * a) * sv;
    assert (t * sv - d) * a == 0.0;
  }

  lemma Positive(t: real, s: real, d: real)
    requires t * s == d && d > 0.0 && s > 0.0
    ensures t > 0.0
  {
    if t <= 0.0 { Product(-t, s); }
  }

  /** Over no distance it is a zero over a speed, or a difference of speeds over an infinity. */
  function RideSeconds(l: Leg): real
    requires Passes(l)
  {
    if l.length == 0.0 then 0.0 else TravelSeconds(l)
  }

  function DurationMs(l: Leg): int
    requires Passes(l)
  {
    (RideSeconds(l) * 1000.0).Floor + if l.v2 == 0.0 && l.pause > 0.0 then (l.pause * 1000.0).Floor else 0
  }

  lemma DurationBounds(l: Leg)
    requires Passes(l)
    ensures 0 <= DurationMs(l)
    ensures l.v2 > 0.0 || l.pause <= 0.0 ==> Seconds(DurationMs(l)) <= RideSeconds(l)
  {
    if l.length > 0.0 { TravelTime(l); }
  }

  /** A leg takes its travel time and the pause at a stop, each cut to whole milliseconds. */
  lemma DurationIsTravelAndPause(l: Leg)
    requires Passes(l)
    ensures var pause := if l.v2 == 0.0 && l.pause > 0.0 then l.pause else 0.0;
            RideSeconds(l) + pause - 0.002 < Seconds(DurationMs(l)) <= RideSeconds(l) + pause
  {
    var t, pause := (RideSeconds(l) * 1000.0).Floor, (l.pause * 1000.0).Floor;
    assert t as real <= RideSeconds(l) * 1000.0 < t as real + 1.0;
    assert pause as real <= l.pause * 1000.0 < pause as real + 1.0;
    assert (t + pause) as real == t as real + pause as real;
  }

  function Seconds(ms: int): real {
    ms as real / 1000.0
  }

  function SpeedAt(l: Leg, ms: int): real
    requires Drivable(l)
  {
    l.v1 + Seconds(ms) * Acceleration(l)
  }

  /** Distance from the leg's start; a vehicle that would go backwards is put at the leg's end. */
  function OffsetAt(l: Leg, ms: int): real
    requires Drivable(l)
  {
    if SpeedAt(l, ms) < 0.0 then l.length else Travelled(l.v1, Acceleration(l), Seconds(ms))
  }

  function Travelled(v: real, a: real, t: real): real {
    v * t + ((a * t * t) / 2.0)
  }

  /** Between two moments the vehicle covers the time at the mean of its speeds. */
  lemma MeanSpeed(v: real, a: real, t: real, u: real)
    ensures Travelled(v, a, u) - Travelled(v, a, t) == (u - t) * (((v + t * a) + (v + u * a)) / 2.0)
  {
    var s := (v + t * a) + (v + u * a);
    assert u * s == 2.0 * v * u + a * t * u + a * u * u;
    assert t * s == 2.0 * v * t + a * t * t + a * t * u;
    assert (u - t) * s == u * s - t * s;
    assert (u - t) * (s / 2.0) == ((u - t) * s) / 2.0;
  }

  lemma Forward(v: real, a: real, t: real, u: real)
    requires t <= u && v + t * a >= 0.0 && v + u * a >= 0.0
    ensures Travelled(v, a, t) <= Travelled(v, a, u)
  {
    MeanSpeed(v, a, t, u);
    Product(u - t, ((v + t * a) + (v + u * a)) / 2.0);
  }

  lemma Product(x: real, y: real)
    requires x >= 0.0 && y >= 0.0
    ensures x * y >= 0.0
  {
  }

  /** Speed falls below zero exactly after a full stop, that is while the vehicle is pausing. */
  lemma NegativeExactlyWhilePausing(l: Leg, ms: int)
    requires Drivable(l) && 0 <= ms <= DurationMs(l)
    ensures SpeedAt(l, ms) < 0.0 <==> TravelSeconds(l) < Seconds(ms)
  {
    TravelTime(l);
    if Seconds(ms) <= TravelSeconds(l) {
      Between(l.v1, l.v2, Acceleration(l), TravelSeconds(l), Seconds(ms));
    } else {
      DurationBounds(l);
      assert Seconds(ms) <= Seconds(DurationMs(l));
      assert l.v2 == 0.0;
      Beyond(l.v1, Acceleration(l), TravelSeconds(l), Seconds(ms));
    }
  }

  lemma Beyond(v1: real, a: real, t: real, x: real)
    requires v1 > 0.0 && t > 0.0 && t < x && v1 + t * a == 0.0
    ensures v1 + x * a < 0.0
  {
    assert a < 0.0 by { if a >= 0.0 { Product(t, a); } }
    assert x * a == t * a + (x - t) * a;
    Product(x - t, -a);
    if (x - t) * a == 0.0 { NoFactor(a, x - t); }
  }

  lemma Between(v1: real, v2: real, a: real, t: real, x: real)
    requires v1 >= 0.0 && v2 >= 0.0 && t > 0.0 && 0.0 <= x <= t && v1 + t * a == v2
    ensures v1 + x * a >= 0.0
  {
    if a >= 0.0 { Product(x, a); } else { Product(t - x, -a); assert (t - x) * (-a) == x * a - t * a; }
  }

  /** At the end of the travel time the vehicle is at the end of the leg. */
  lemma ArrivesAtEnd(l: Leg)
    requires Drivable(l)
    ensures Travelled(l.v1, Acceleration(l), TravelSeconds(l)) == l.length
    ensures l.v1 + TravelSeconds(l) * Acceleration(l) >= 0.0
  {
    TravelTime(l);
    var a, t := Acceleration(l), TravelSeconds(l);
    MeanSpeed(l.v1, a, 0.0, t);
    assert Travelled(l.v1, a, 0.0) == 0.0;
    assert t * ((l.v1 + l.v2) / 2.0) == (t * (l.v1 + l.v2)) / 2.0;
  }

  /** On a leg the vehicle starts at its start, never passes its end and never moves backwards. */
  lemma NeverBackwardsOnALeg(l: Leg, t: int, u: int)
    requires Drivable(l) && 0 <= t <= u <= DurationMs(l)
    ensures OffsetAt(l, 0) == 0.0
    ensures 0.0 <= OffsetAt(l, t) <= OffsetAt(l, u) <= l.length
  {
    NegativeExactlyWhilePausing(l, t);
    NegativeExactlyWhilePausing(l, u);
    StartsAtStart(l);
    if SpeedAt(l, t) >= 0.0 {
      if SpeedAt(l, u) >= 0.0 {
        Moving(l, t, u);
        NotPastTheEnd(l, u);
      } else {
        Moving(l, t, t);
        NotPastTheEnd(l, t);
      }
    } else {
      assert Seconds(t) <= Seconds(u);
    }
  }

  lemma StartsAtStart(l: Leg)
    requires Drivable(l)
    ensures OffsetAt(l, 0) == 0.0
  {
    assert Seconds(0) == 0.0;
  }

  /** The same while the vehicle moves, on the numbers alone. */
  lemma InOrder(v: real, a: real, t: real, u: real)
    requires 0.0 <= t <= u && v >= 0.0 && v + t * a >= 0.0 && v + u * a >= 0.0
    ensures 0.0 <= Travelled(v, a, t) <= Travelled(v, a, u)
  {
    assert v + 0.0 * a == v && Travelled(v, a, 0.0) == 0.0;
    Forward(v, a, 0.0, t);
    Forward(v, a, t, u);
  }

  lemma Moving(l: Leg, t: int, u: int)
    requires Drivable(l) && 0 <= t <= u && SpeedAt(l, t) >= 0.0 && SpeedAt(l, u) >= 0.0
    ensures 0.0 <= OffsetAt(l, t) <= OffsetAt(l, u)
  {
    InOrder(l.v1, Acceleration(l), Seconds(t), Seconds(u));
  }

  lemma NotPastTheEnd(l: Leg, u: int)
    requires Drivable(l) && 0 <= u && Seconds(u) <= TravelSeconds(l) && SpeedAt(l, u) >= 0.0
    ensures OffsetAt(l, u) <= l.length
  {
    ArrivesAtEnd(l);
    Forward(l.v1, Acceleration(l), Seconds(u), TravelSeconds(l));
  }

  // ---------- the send schedule, for any durations ----------

  datatype Speed = Finite(metersPerSecond: real) | MinusInfinity

  /** Where a message puts the vehicle on its leg, and the speed it reports. */
  datatype Placed = Placed(offset: real, speed: Speed)

  datatype Bsm = Bsm(time: int, leg: nat, at: Placed)

  /**
   What the send loop goes by: the duration of each leg in milliseconds, the kinematics, the first
   message, the clock's reading after it, where the schedule is anchored, and the period.
   */
  datatype Trip = Trip(durations: seq<nat>, place: (nat, int) --> Placed, start: Placed, first: int, period: nat)

  ghost predicate Planned(t: Trip) {
    t.period > 0 && |t.durations| > 0 &&
    forall i: nat, ms: int :: 1 <= i <= |t.durations| && 0 < ms <= t.durations[i - 1] ==> t.place.requires(i, ms)
  }

  /** When leg i begins, in milliseconds after the first message. */
  ghost function StartMs(d: seq<nat>, i: nat): nat
    requires 1 <= i <= |d| + 1
  {
    if i == 1 then 0 else StartMs(d, i - 1) + d[i - 2]
  }

  ghost function TotalMs(d: seq<nat>): nat {
    StartMs(d, |d| + 1)
  }

  lemma {:induction false} StartsInOrder(d: seq<nat>, i: nat, j: nat)
    requires 1 <= i <= j <= |d| + 1
    ensures StartMs(d, i) <= StartMs(d, j)
  {
    if i < j { StartsInOrder(d, i, j - 1); }
  }

  /** Message k is due k periods after the first, on the leg whose left-open interval holds that moment. */
  ghost predicate IsDue(t: Trip, k: nat, b: Bsm) {
    b.time == t.first + k * t.period &&
    1 <= b.leg <= |t.durations| &&
    StartMs(t.durations, b.leg) < k * t.period <= StartMs(t.durations, b.leg + 1) &&
    var ms := k * t.period - StartMs(t.durations, b.leg);
    t.place.requires(b.leg, ms) && b.at == t.place(b.leg, ms)
  }

  ghost predicate IsSchedule(t: Trip, sent: seq<Bsm>) {
    |sent| >= 1 && sent[0] == Bsm(t.first, 1, t.start) && forall k :: 1 <= k < |sent| ==> IsDue(t, k, sent[k])
  }

  /** One drive: messages at the first moment and every period after it, up to the end of the last leg. */
  method Drive(t: Trip) returns (sent: seq<Bsm>)
    requires Planned(t)
    ensures IsSchedule(t, sent) && |sent| == TotalMs(t.durations) / t.period + 1
  {
    sent := [];
    var pointCount, segmentStart := 0, t.first;
    var i := 1;
    while i <= |t.durations|
      invariant 1 <= i <= |t.durations| + 1
      invariant i == 1 ==> pointCount == 0 && sent == []
      invariant i > 1 ==> Drove(t, sent, pointCount, i) && segmentStart == t.first + StartMs(t.durations, i)
    {
      sent, pointCount, segmentStart := DriveLeg(t, i, sent, pointCount, segmentStart);
      i := i + 1;
    }
    Quotient(TotalMs(t.durations), t.period, pointCount);
  }

  /** The loop over the messages due on one leg; the first leg starts with the first message. */
  method DriveLeg(t: Trip, i: nat, before: seq<Bsm>, count: nat, startTime: int)
    returns (sent: seq<Bsm>, pointCount: nat, segmentStart: int)
    requires Planned(t) && 1 <= i <= |t.durations|
    requires i == 1 ==> count == 0 && before == []
    requires i > 1 ==> Drove(t, before, count, i) && startTime == t.first + StartMs(t.durations, i)
    ensures Drove(t, sent, pointCount, i + 1) && segmentStart == t.first + StartMs(t.durations, i + 1)
  {
    sent, pointCount, segmentStart := before, count, startTime;
    var duration := t.durations[i - 1];
    ghost var start := StartMs(t.durations, i);
    var done := false;
    while !done
      invariant Started(i, pointCount, done) ==>
                  Driving(t, sent, pointCount, i) &&
                  segmentStart == t.first + if done then start + duration else start
      invariant !Started(i, pointCount, done) ==> sent == []
      invariant done ==> Drove(t, sent, pointCount, i + 1)
      decreases !done, start + duration - pointCount * t.period
    {
      if pointCount == 0 && i == 1 {
        sent := sent + [Bsm(t.first, 1, t.start)];
        segmentStart := t.first;
      }
      assert Driving(t, sent, pointCount, i);
      var next := t.first + (pointCount + 1) * t.period;
      var ms := next - segmentStart;
      assert (pointCount + 1) * t.period == pointCount * t.period + t.period;
      if ms <= duration {
        var b := Bsm(next, i, t.place(i, ms));
        SendOne(t, sent, pointCount, i, b);
        sent := sent + [b];
        pointCount := pointCount + 1;
      } else {
        segmentStart := segmentStart + duration;
        done := true;
      }
    }
  }

  ghost predicate Started(i: nat, pointCount: nat, done: bool) {
    i > 1 || pointCount > 0 || done
  }

  /** Inside leg i. */
  ghost predicate Driving(t: Trip, sent: seq<Bsm>, pointCount: nat, i: nat)
    requires 1 <= i <= |t.durations|
  {
    IsSchedule(t, sent) && |sent| == pointCount + 1 &&
    pointCount * t.period <= StartMs(t.durations, i + 1) && StartMs(t.durations, i) < (pointCount + 1) * t.period
  }

  /** Between legs: everything before leg i is sent, and nothing more. */
  ghost predicate Drove(t: Trip, sent: seq<Bsm>, pointCount: nat, i: nat)
    requires 1 <= i <= |t.durations| + 1
  {
    IsSchedule(t, sent) && |sent| == pointCount + 1 &&
    pointCount * t.period <= StartMs(t.durations, i) < (pointCount + 1) * t.period
  }

  lemma SendOne(t: Trip, sent: seq<Bsm>, pointCount: nat, i: nat, b: Bsm)
    requires Planned(t) && 1 <= i <= |t.durations|
    requires Driving(t, sent, pointCount, i) && IsDue(t, pointCount + 1, b) && b.leg == i
    ensures Driving(t, sent + [b], pointCount + 1, i)
  {
    assert (pointCount + 2) * t.period == (pointCount + 1) * t.period + t.period;
    forall k | 1 <= k < |sent + [b]| ensures IsDue(t, k, (sent + [b])[k]) {
      if k < |sent| { assert (sent + [b])[k] == sent[k]; }
    }
  }

  lemma Quotient(total: nat, period: nat, n: nat)
    requires period > 0 && n * period <= total < (n + 1) * period
    ensures total / period == n
  {
    var q := total / period;
    assert q * period <= total < q * period + period;
    if q < n { Times(q + 1, n, period); }
    if q > n { Times(n + 1, q, period); }
  }

  lemma Times(j: nat, k: nat, period: nat)
    requires j <= k
    ensures j * period <= k * period
  {
  }

  /** Each moment of the drive lies on exactly one leg, so a schedule of a given length is unique. */
  lemma ScheduleIsUnique(t: Trip, s: seq<Bsm>, s': seq<Bsm>)
    requires |s| == |s'| && IsSchedule(t, s) && IsSchedule(t, s')
    ensures s == s'
  {
    forall k | 1 <= k < |s| ensures s[k] == s'[k] {
      assert IsDue(t, k, s[k]) && IsDue(t, k, s'[k]);
      SameLeg(t.durations, k * t.period, s[k].leg, s'[k].leg);
    }
  }

  lemma SameLeg(d: seq<nat>, ms: int, i: nat, j: nat)
    requires 1 <= i <= |d| && 1 <= j <= |d|
    requires StartMs(d, i) < ms <= StartMs(d, i + 1) && StartMs(d, j) < ms <= StartMs(d, j + 1)
    ensures i == j
  {
    if i < j { StartsInOrder(d, i + 1, j); }
    if j < i { StartsInOrder(d, j + 1, i); }
  }

  // ---------- the route ----------

  function MetersPerSecond(mph: real): real {
    mph * 0.44704
  }

  function LegTo(r: Route, i: nat): Leg
    requires 1 <= i < |r.points| == |r.lengths| + 1
  {
    Leg(r.lengths[i - 1], MetersPerSecond(r.points[i - 1].speedMph), MetersPerSecond(r.points[i].speedMph),
        r.points[i].pauseSeconds)
  }

  ghost predicate Passable(r: Route) {
    |r.points| >= 2 && |r.points| == |r.lengths| + 1 && forall i :: 1 <= i < |r.points| ==> Passes(LegTo(r, i))
  }

  /** A message that is due on a leg without length falls into a pause after a stop from some speed. */
  lemma NoLengthMeansPausing(l: Leg, ms: int)
    requires Passes(l) && l.length == 0.0 && 0 < ms <= DurationMs(l)
    ensures l.v2 == 0.0 && l.v1 > 0.0 && l.pause > 0.0
  {
  }

  /**
   The kinematics of one message. Without length the acceleration is minus infinity and so is the
   speed, which puts the vehicle at the leg's end.
   */
  function PlaceOn(l: Leg, ms: int): Placed
    requires Passes(l) && 0 < ms <= DurationMs(l)
  {
    if l.length == 0.0 then
      NoLengthMeansPausing(l, ms);
      Placed(l.length, MinusInfinity)
    else Placed(OffsetAt(l, ms), Finite(SpeedAt(l, ms)))
  }

  function DurationTo(r: Route, i: nat): nat
    requires Passable(r) && 1 <= i < |r.points|
  {
    DurationBounds(LegTo(r, i));
    DurationMs(LegTo(r, i))
  }

  function TripOf(r: Route, first: int, period: nat): Trip
    requires Passable(r)
  {
    Trip(seq(|r.points| - 1, i requires 0 <= i < |r.points| - 1 => DurationTo(r, i + 1)),
         (i, ms) requires 1 <= i < |r.points| && 0 < ms <= DurationTo(r, i) => PlaceOn(LegTo(r, i), ms),
         Placed(0.0, Finite(LegTo(r, 1).v1)), first, period)
  }

  /** A route of fewer than two waypoints is not driven. */
  method Run(r: Route, first: int, period: nat) returns (sent: seq<Bsm>)
    requires period > 0 && (|r.points| >= 2 ==> Passable(r))
    ensures |r.points| < 2 ==> sent == []
    ensures |r.points| >= 2 ==>
              var t := TripOf(r, first, period);
              Planned(t) && IsSchedule(t, sent) && |sent| == TotalMs(t.durations) / period + 1
  {
    sent := [];
    if |r.points| >= 2 {
      sent := Drive(TripOf(r, first, period));
    }
  }

  // ---------- what the messages say of the waypoints ----------

  lemma ByDivision(t: real, s: real, d: real)
    requires s > 0.0 && t * s == d
    ensures t == d / s
  {
    assert (d / s) * s == d;
    assert (t - d / s) * s == 0.0;
    NoFactor(t - d / s, s);
  }

  /** How long a leg is driven: its length at the mean of the two speeds. */
  lemma RideTime(l: Leg)
    requires Passes(l)
    ensures l.v1 + l.v2 > 0.0 && RideSeconds(l) == 2.0 * l.length / (l.v1 + l.v2)
  {
    if l.length > 0.0 {
      TravelTime(l);
      ByDivision(TravelSeconds(l), l.v1 + l.v2, 2.0 * l.length);
    } else {
      ByDivision(0.0, l.v1 + l.v2, 0.0);
    }
  }

  /**
   The leg to waypoint i takes twice its length over the sum of the speeds set at waypoints i - 1
   and i, and the pause set at waypoint i if the vehicle stops there, up to the milliseconds cut off.
   */
  lemma LegLasts(r: Route, first: int, period: nat, i: nat)
    requires Passable(r) && 1 <= i < |r.points|
    ensures var d := TripOf(r, first, period).durations;
            var u, w := r.points[i - 1].speedMph * 0.44704, r.points[i].speedMph * 0.44704;
            var pause := if r.points[i].speedMph == 0.0 && r.points[i].pauseSeconds > 0.0 then r.points[i].pauseSeconds else 0.0;
            |d| == |r.points| - 1 && u + w > 0.0 &&
            2.0 * r.lengths[i - 1] / (u + w) + pause - 0.002 < Seconds(d[i - 1]) <= 2.0 * r.lengths[i - 1] / (u + w) + pause
  {
    RideTime(LegTo(r, i));
    DurationIsTravelAndPause(LegTo(r, i));
  }

  lemma SpeedSquare(v: real, a: real, t: real)
    ensures (v + t * a) * (v + t * a) == v * v + 2.0 * a * Travelled(v, a, t)
  {
    assert (v + t * a) * (v + t * a) == v * v + 2.0 * v * (t * a) + (t * a) * (t * a);
    assert 2.0 * a * Travelled(v, a, t) == 2.0 * a * (v * t) + a * (a * t * t);
  }

  /** The square of the speed changes in step with the distance covered. */
  lemma SpeedByDistance(l: Leg, ms: int)
    requires Drivable(l) && SpeedAt(l, ms) >= 0.0
    ensures var v := SpeedAt(l, ms);
            v * v * l.length == l.v1 * l.v1 * l.length + OffsetAt(l, ms) * (l.v2 * l.v2 - l.v1 * l.v1)
  {
    var a, x, v := Acceleration(l), OffsetAt(l, ms), SpeedAt(l, ms);
    SpeedSquare(l.v1, a, Seconds(ms));
    SpeedsDiffer(l);
    Squares(l.v1, l.v2);
    ScaledSquare(v * v, l.v1 * l.v1, a, x, l.length, l.v2 * l.v2 - l.v1 * l.v1);
  }

  lemma ScaledSquare(vv: real, uu: real, a: real, x: real, length: real, d: real)
    requires vv == uu + 2.0 * a * x && a * length * 2.0 == d
    ensures vv * length == uu * length + x * d
  {
    assert (2.0 * a * x) * length == x * (a * length * 2.0);
  }

  lemma OffsetByTime(l: Leg, ms: int)
    requires Drivable(l) && SpeedAt(l, ms) >= 0.0
    ensures OffsetAt(l, ms) == Seconds(ms) * ((l.v1 + SpeedAt(l, ms)) / 2.0)
  {
    MeanSpeed(l.v1, Acceleration(l), 0.0, Seconds(ms));
    assert Travelled(l.v1, Acceleration(l), 0.0) == 0.0 && l.v1 + 0.0 * Acceleration(l) == l.v1;
  }

  /** What a message on the leg to waypoint i, `ms` milliseconds into it, says of the two waypoints. */
  ghost predicate Tells(r: Route, i: nat, ms: int, at: Placed)
    requires 1 <= i < |r.points| == |r.lengths| + 1
  {
    var length, u, w := r.lengths[i - 1], r.points[i - 1].speedMph * 0.44704, r.points[i].speedMph * 0.44704;
    if length == 0.0 then at == Placed(0.0, MinusInfinity) && r.points[i].speedMph == 0.0 && r.points[i].pauseSeconds > 0.0
    else
      at.speed.Finite? && u + w > 0.0 &&
      var v := at.speed.metersPerSecond;
      if Seconds(ms) <= 2.0 * length / (u + w) then
        v >= 0.0 && at.offset == Seconds(ms) * ((u + v) / 2.0) &&
        v * v * length == u * u * length + at.offset * (w * w - u * u)
      else v < 0.0 && at.offset == length && r.points[i].speedMph == 0.0 && r.points[i].pauseSeconds > 0.0
  }

  lemma PlaceTells(r: Route, i: nat, ms: int)
    requires Passable(r) && 1 <= i < |r.points| && 0 < ms <= DurationMs(LegTo(r, i))
    ensures Tells(r, i, ms, PlaceOn(LegTo(r, i), ms))
  {
    var l := LegTo(r, i);
    if l.length == 0.0 {
      NoLengthMeansPausing(l, ms);
    } else {
      RideTime(l);
      NegativeExactlyWhilePausing(l, ms);
      if SpeedAt(l, ms) >= 0.0 {
        SpeedByDistance(l, ms);
        OffsetByTime(l, ms);
      } else {
        DurationBounds(l);
        assert Seconds(ms) <= Seconds(DurationMs(l));
      }
    }
  }

  /**
   The first message reports the speed set at the first waypoint; every later one, before a stop, the
   speed whose square lies between those of its two waypoints' as its place lies between them, and a
   place that follows from that speed and the time on the leg; and in a pause it stands at the end.
   */
  lemma RouteIsTold(r: Route, first: int, period: nat, sent: seq<Bsm>, k: nat)
    requires Passable(r) && IsSchedule(TripOf(r, first, period), sent) && 1 <= k < |sent|
    ensures sent[0] == Bsm(first, 1, Placed(0.0, Finite(r.points[0].speedMph * 0.44704)))
    ensures 1 <= sent[k].leg < |r.points|
    ensures Tells(r, sent[k].leg, k * period - StartMs(TripOf(r, first, period).durations, sent[k].leg), sent[k].at)
  {
    DueOnLeg(r, first, period, k, sent[k]);
    PlaceTells(r, sent[k].leg, k * period - StartMs(TripOf(r, first, period).durations, sent[k].leg));
  }

  // ---------- where the messages put the vehicle ----------

  ghost function Before(r: Route, i: nat): real
    requires 1 <= i <= |r.points| == |r.lengths| + 1
  {
    if i == 1 then 0.0 else Before(r, i - 1) + r.lengths[i - 2]
  }

  /** Metres from the first waypoint along the route. */
  ghost function Position(r: Route, b: Bsm): real
    requires 1 <= b.leg < |r.points| == |r.lengths| + 1
  {
    Before(r, b.leg) + b.at.offset
  }

  lemma {:induction false} LegsAddUp(r: Route, i: nat, j: nat)
    requires Passable(r) && 1 <= i <= j <= |r.points|
    ensures Before(r, i) <= Before(r, j)
  {
    if i < j {
      assert Passes(LegTo(r, j - 1));
      LegsAddUp(r, i, j - 1);
    }
  }

  /** Later on a leg is not further back, and never beyond its end. */
  lemma PlacesInOrder(l: Leg, t: int, u: int)
    requires Passes(l) && 0 < t <= u <= DurationMs(l)
    ensures 0.0 <= PlaceOn(l, t).offset <= PlaceOn(l, u).offset <= l.length
  {
    if l.length > 0.0 { NeverBackwardsOnALeg(l, t, u); }
  }

  /** What a due message says in terms of the route. */
  lemma DueOnLeg(r: Route, first: int, period: nat, k: nat, b: Bsm)
    requires Passable(r) && IsDue(TripOf(r, first, period), k, b)
    ensures 1 <= b.leg < |r.points|
    ensures var ms := k * period - StartMs(TripOf(r, first, period).durations, b.leg);
            0 < ms <= DurationMs(LegTo(r, b.leg)) && b.at == PlaceOn(LegTo(r, b.leg), ms)
  {
    var d := TripOf(r, first, period).durations;
    assert StartMs(d, b.leg + 1) == StartMs(d, b.leg) + d[b.leg - 1];
  }

  lemma OnItsLeg(r: Route, first: int, period: nat, k: nat, b: Bsm)
    requires Passable(r) && IsDue(TripOf(r, first, period), k, b)
    ensures 1 <= b.leg < |r.points|
    ensures Before(r, b.leg) <= Position(r, b) <= Before(r, b.leg + 1)
  {
    DueOnLeg(r, first, period, k, b);
    var ms := k * period - StartMs(TripOf(r, first, period).durations, b.leg);
    PlacesInOrder(LegTo(r, b.leg), ms, ms);
  }

  /** Over the whole drive the reported positions stay on the route and never go back. */
  lemma NeverBackwards(r: Route, first: int, period: nat, sent: seq<Bsm>, j: nat, k: nat)
    requires Passable(r) && IsSchedule(TripOf(r, first, period), sent) && j <= k < |sent|
    ensures 1 <= sent[j].leg < |r.points| && 1 <= sent[k].leg < |r.points|
    ensures 0.0 <= Position(r, sent[j]) <= Position(r, sent[k]) <= Before(r, |r.points|)
  {
    assert Before(r, 1) == 0.0;
    if k == 0 {
      LegsAddUp(r, 1, |r.points|);
    } else {
      var c := sent[k];
      OnItsLeg(r, first, period, k, c);
      LegsAddUp(r, 1, c.leg);
      LegsAddUp(r, c.leg + 1, |r.points|);
      if j > 0 { TwoInOrder(r, first, period, sent[j], j, c, k); }
    }
  }

  lemma OneLeg(r: Route, first: int, period: nat, b: Bsm, j: nat, c: Bsm, k: nat)
    requires Passable(r) && j <= k && b.leg == c.leg
    requires IsDue(TripOf(r, first, period), j, b) && IsDue(TripOf(r, first, period), k, c)
    ensures b.at.offset <= c.at.offset
  {
    var start := StartMs(TripOf(r, first, period).durations, b.leg);
    DueOnLeg(r, first, period, j, b);
    DueOnLeg(r, first, period, k, c);
    Times(j, k, period);
    PlacesInOrder(LegTo(r, b.leg), j * period - start, k * period - start);
  }

  lemma TwoInOrder(r: Route, first: int, period: nat, b: Bsm, j: nat, c: Bsm, k: nat)
    requires Passable(r) && j <= k
    requires IsDue(TripOf(r, first, period), j, b) && IsDue(TripOf(r, first, period), k, c)
    ensures 1 <= b.leg < |r.points| && 1 <= c.leg < |r.points|
    ensures 0.0 <= Position(r, b) <= Position(r, c)
  {
    Times(j, k, period);
    OnItsLeg(r, first, period, j, b);
    OnItsLeg(r, first, period, k, c);
    LegsAddUp(r, 1, b.leg);
    if b.leg == c.leg {
      OneLeg(r, first, period, b, j, c, k);
    } else if b.leg < c.leg {
      LegsAddUp(r, b.leg + 1, c.leg);
    } else {
      StartsInOrder(TripOf(r, first, period).durations, c.leg + 1, b.leg);
    }
  }
}
