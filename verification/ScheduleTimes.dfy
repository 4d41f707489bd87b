/** Movements of a schedule record: flattening, lifting of times past midnight, and order. */
module ScheduleTimes {
  import opened Options

  /** Seconds since midnight. */
  type TimeOfDay = t: int | 0 <= t < 86400

  datatype Location =
    | Originating(tiploc: string, departure: TimeOfDay, publicDeparture: Option<TimeOfDay>, platform: Option<string>)
    | Intermediate(tiploc: string, arrival: TimeOfDay, departure: TimeOfDay, publicArrival: Option<TimeOfDay>,
                   publicDeparture: Option<TimeOfDay>, platform: Option<string>)
    | Passing(tiploc: string, pass: TimeOfDay)
    | Terminating(tiploc: string, arrival: TimeOfDay, publicArrival: Option<TimeOfDay>, platform: Option<string>)

  const ACTION_ARRIVAL := 0
  const ACTION_DEPARTURE := 1
  const ACTION_PASS := 2

  /** A movement before its day offset is known. */
  datatype Stop = Stop(tiploc: string, action: int, time: TimeOfDay, platform: Option<string>,
                       publicTime: Option<TimeOfDay>)

  datatype Mvt = Mvt(stop: Stop, dayOffset: int)

  function StopsOf(loc: Location): seq<Stop> {
    match loc
    case Originating(tiploc, departure, publicDeparture, platform) =>
      [Stop(tiploc, ACTION_DEPARTURE, departure, platform, publicDeparture)]
    case Intermediate(tiploc, arrival, departure, publicArrival, publicDeparture, platform) =>
      [Stop(tiploc, ACTION_ARRIVAL, arrival, platform, publicArrival),
       Stop(tiploc, ACTION_DEPARTURE, departure, platform, publicDeparture)]
    case Passing(tiploc, pass) => [Stop(tiploc, ACTION_PASS, pass, None, None)]
    case Terminating(tiploc, arrival, publicArrival, platform) =>
      [Stop(tiploc, ACTION_ARRIVAL, arrival, platform, publicArrival)]
  }

  function Flatten(locs: seq<Location>): seq<Stop> {
    if locs == [] then [] else Flatten(locs[..|locs| - 1]) + StopsOf(locs[|locs| - 1])
  }

  /** The stop is this action at this time, with this public time and platform. */
  predicate IsStop(s: Stop, tiploc: string, action: int, time: int, publicTime: Option<TimeOfDay>,
                   platform: Option<string>) {
    s.tiploc == tiploc && s.action == action && s.time == time && s.publicTime == publicTime && s.platform == platform
  }

  /** Which times go where: an arrival is action 0, a departure 1, a pass 2. */
  lemma StopsAre(loc: Location)
    ensures match loc
            case Originating(tiploc, dep, pubDep, pfm) =>
              |StopsOf(loc)| == 1 && IsStop(StopsOf(loc)[0], tiploc, 1, dep, pubDep, pfm)
            case Intermediate(tiploc, arr, dep, pubArr, pubDep, pfm) =>
              |StopsOf(loc)| == 2 && IsStop(StopsOf(loc)[0], tiploc, 0, arr, pubArr, pfm)
              && IsStop(StopsOf(loc)[1], tiploc, 1, dep, pubDep, pfm)
            case Passing(tiploc, pass) =>
              |StopsOf(loc)| == 1 && IsStop(StopsOf(loc)[0], tiploc, 2, pass, None, None)
            case Terminating(tiploc, arr, pubArr, pfm) =>
              |StopsOf(loc)| == 1 && IsStop(StopsOf(loc)[0], tiploc, 0, arr, pubArr, pfm)
  {
  }

  /** The stops of location k come, whole, after those of the locations before it. */
  lemma {:induction false} FlattenAt(locs: seq<Location>, k: nat)
    requires k < |locs|
    ensures var p, n := |Flatten(locs[..k])|, |StopsOf(locs[k])|;
            p + n <= |Flatten(locs)| && Flatten(locs)[p..p + n] == StopsOf(locs[k])
    decreases |locs|
  {
    var front := locs[..|locs| - 1];
    assert Flatten(locs) == Flatten(front) + StopsOf(locs[|locs| - 1]);
    if k < |front| {
      assert front[..k] == locs[..k];
      FlattenAt(front, k);
    } else {
      assert locs[..k] == front;
    }
  }

  lemma FlattenStep(locs: seq<Location>, i: nat)
    requires i < |locs|
    ensures Flatten(locs[..i + 1]) == Flatten(locs[..i]) + StopsOf(locs[i])
  {
    assert locs[..i + 1][..i] == locs[..i];
  }

  // ---- lifting ----

  /** How often the clock has gone back by stop i; the clock starts at midnight. */
  function Descents(stops: seq<Stop>, i: nat): nat
    requires i < |stops|
  {
    if i == 0 then 0
    else Descents(stops, i - 1) + if stops[i].time < stops[i - 1].time then 1 else 0
  }

  /** Day offsets are bytes and wrap around. */
  function NextDay(dayOffset: int): int {
    if dayOffset == 255 then 0 else dayOffset + 1
  }

  /** `midnight_check`: the day offset once the clock shows `time`. */
  function MidnightCheck(dayOffset: int, lastTime: TimeOfDay, time: TimeOfDay): int {
    if time < lastTime then NextDay(dayOffset) else dayOffset
  }

  function Offset(stops: seq<Stop>, i: nat): int
    requires i < |stops|
  {
    if i == 0 then 0 else MidnightCheck(Offset(stops, i - 1), stops[i - 1].time, stops[i].time)
  }

  /** The stops with their day offsets. */
  function Lift(stops: seq<Stop>): (mvts: seq<Mvt>)
    ensures |mvts| == |stops|
  {
    if stops == [] then []
    else Lift(stops[..|stops| - 1]) + [Mvt(stops[|stops| - 1], Offset(stops, |stops| - 1))]
  }

  lemma {:induction false} OffsetPrefix(stops: seq<Stop>, more: seq<Stop>, i: nat)
    requires i < |stops|
    ensures Offset(stops + more, i) == Offset(stops, i)
    decreases i
  {
    if i > 0 {
      OffsetPrefix(stops, more, i - 1);
    }
  }

  lemma {:induction false} LiftAt(stops: seq<Stop>, i: nat)
    requires i < |stops|
    ensures Lift(stops)[i] == Mvt(stops[i], Offset(stops, i))
    decreases |stops|
  {
    var front := stops[..|stops| - 1];
    if i < |front| {
      LiftAt(front, i);
      assert stops == front + [stops[|stops| - 1]];
      OffsetPrefix(front, [stops[|stops| - 1]], i);
    }
  }

  /** Until the byte overflows, the day offset counts the descents. */
  lemma {:induction false} OffsetCountsDescents(stops: seq<Stop>, i: nat)
    requires i < |stops|
    ensures Descents(stops, i) <= 255 ==> Offset(stops, i) == Descents(stops, i)
    ensures Descents(stops, i) == 256 ==> Offset(stops, i) == 0
    ensures 0 <= Offset(stops, i) <= Descents(stops, i) && Offset(stops, i) <= 255
    decreases i
  {
    if i > 0 {
      OffsetCountsDescents(stops, i - 1);
    }
  }

  lemma {:induction false} DescentsMonotone(stops: seq<Stop>, i: nat, j: nat)
    requires i <= j < |stops|
    ensures Descents(stops, i) <= Descents(stops, j)
    ensures Descents(stops, i) == Descents(stops, j) ==> stops[i].time <= stops[j].time
    decreases j
  {
    if i < j {
      DescentsMonotone(stops, i, j - 1);
    }
  }

  predicate NotAfter(d: int, t: int, d': int, t': int) {
    d < d' || (d == d' && t <= t')
  }

  predicate MvtNotAfter(a: Mvt, b: Mvt) {
    NotAfter(a.dayOffset, a.stop.time, b.dayOffset, b.stop.time)
  }

  /** (day offset, time) never goes back. */
  ghost predicate InOrder(mvts: seq<Mvt>) {
    forall i, j :: 0 <= i < j < |mvts| ==>
      MvtNotAfter(mvts[i], mvts[j])
  }

  /** Some stop sees the count of descents at any value it passes through. */
  lemma {:induction false} DescentsReach(stops: seq<Stop>, j: nat, d: nat) returns (i: nat)
    requires j < |stops| && d <= Descents(stops, j)
    ensures i <= j && Descents(stops, i) == d
    decreases j
  {
    if Descents(stops, j) == d {
      i := j;
    } else {
      i := DescentsReach(stops, j - 1, d);
    }
  }

  lemma LiftedPairInOrder(stops: seq<Stop>, i: nat, j: nat)
    requires i < j < |stops| && Descents(stops, |stops| - 1) <= 255
    ensures MvtNotAfter(Lift(stops)[i], Lift(stops)[j])
  {
    DescentsMonotone(stops, i, j);
    DescentsMonotone(stops, j, |stops| - 1);
    OffsetCountsDescents(stops, i);
    OffsetCountsDescents(stops, j);
    LiftAt(stops, i);
    LiftAt(stops, j);
  }

  /** The lifted times are in order exactly when midnight is crossed at most 255 times. */
  lemma LiftInOrderIff(stops: seq<Stop>)
    requires stops != []
    ensures InOrder(Lift(stops)) <==> Descents(stops, |stops| - 1) <= 255
  {
    var last := |stops| - 1;
    if Descents(stops, last) <= 255 {
      forall i, j | 0 <= i < j < |stops| ensures MvtNotAfter(Lift(stops)[i], Lift(stops)[j]) {
        LiftedPairInOrder(stops, i, j);
      }
    } else {
      WrapGoesBack(stops);
    }
  }

  lemma WrapGoesBack(stops: seq<Stop>)
    requires stops != [] && Descents(stops, |stops| - 1) > 255
    ensures !InOrder(Lift(stops))
  {
    var i := DescentsReach(stops, |stops| - 1, 255);
    var j := DescentsReach(stops, |stops| - 1, 256);
    OffsetCountsDescents(stops, i);
    OffsetCountsDescents(stops, j);
    if j <= i {
      DescentsMonotone(stops, j, i);
      assert false;
    }
    LiftAt(stops, i);
    LiftAt(stops, j);
    var mvts := Lift(stops);
    assert !MvtNotAfter(mvts[i], mvts[j]);
  }

  /** Any offsets that put the same times in order. */
  ghost predicate AnyLift(stops: seq<Stop>, offsets: seq<nat>) {
    && |offsets| == |stops|
    && forall i :: 0 < i < |stops| ==> NotAfter(offsets[i - 1], stops[i - 1].time, offsets[i], stops[i].time)
  }

  lemma {:induction false} DescentsAreLeast(stops: seq<Stop>, offsets: seq<nat>, i: nat)
    requires AnyLift(stops, offsets) && i < |stops|
    ensures Descents(stops, i) <= offsets[i]
    decreases i
  {
    if i > 0 {
      DescentsAreLeast(stops, offsets, i - 1);
      assert NotAfter(offsets[i - 1], stops[i - 1].time, offsets[i], stops[i].time);
    }
  }

  /** No other lift puts a movement on an earlier day. */
  lemma LiftIsLeast(stops: seq<Stop>, offsets: seq<nat>, i: nat)
    requires AnyLift(stops, offsets) && i < |stops|
    ensures Lift(stops)[i].dayOffset <= offsets[i]
  {
    LiftAt(stops, i);
    DescentsAreLeast(stops, offsets, i);
    OffsetCountsDescents(stops, i);
  }

  /** The running state after some stops. */
  ghost predicate Clock(stops: seq<Stop>, dayOffset: int, lastTime: TimeOfDay) {
    if stops == [] then dayOffset == 0 && lastTime == 0
    else dayOffset == Offset(stops, |stops| - 1) && lastTime == stops[|stops| - 1].time
  }

  lemma ClockTick(stops: seq<Stop>, dayOffset: int, lastTime: TimeOfDay, stop: Stop)
    requires Clock(stops, dayOffset, lastTime)
    ensures Clock(stops + [stop], MidnightCheck(dayOffset, lastTime, stop.time), stop.time)
    ensures Lift(stops + [stop]) == Lift(stops) + [Mvt(stop, MidnightCheck(dayOffset, lastTime, stop.time))]
  {
    var more, day := stops + [stop], MidnightCheck(dayOffset, lastTime, stop.time);
    assert more[|stops|] == stop;
    if stops != [] {
      OffsetPrefix(stops, [stop], |stops| - 1);
    }
    assert Offset(more, |stops|) == day;
    assert more[..|stops|] == stops;
  }

  /** `midnight_check`, then the push of one movement. */
  method AddStop(mvts: seq<Mvt>, dayOffset: int, lastTime: TimeOfDay, stop: Stop, ghost before: seq<Stop>)
    returns (mvts': seq<Mvt>, dayOffset': int, lastTime': TimeOfDay)
    requires mvts == Lift(before) && Clock(before, dayOffset, lastTime)
    ensures mvts' == Lift(before + [stop]) && Clock(before + [stop], dayOffset', lastTime')
  {
    ClockTick(before, dayOffset, lastTime, stop);
    dayOffset' := dayOffset;
    if stop.time < lastTime {
      dayOffset' := NextDay(dayOffset');
    }
    lastTime' := stop.time;
    mvts' := mvts + [Mvt(stop, dayOffset')];
  }

  /** One location record: one movement, or an arrival and a departure. */
  method AddLocation(mvts: seq<Mvt>, dayOffset: int, lastTime: TimeOfDay, loc: Location, ghost before: seq<Stop>)
    returns (mvts': seq<Mvt>, dayOffset': int, lastTime': TimeOfDay)
    requires mvts == Lift(before) && Clock(before, dayOffset, lastTime)
    ensures mvts' == Lift(before + StopsOf(loc)) && Clock(before + StopsOf(loc), dayOffset', lastTime')
  {
    match loc
    case Originating(tiploc, departure, publicDeparture, platform) =>
      mvts', dayOffset', lastTime' := AddStop(mvts, dayOffset, lastTime,
        Stop(tiploc, ACTION_DEPARTURE, departure, platform, publicDeparture), before);
    case Intermediate(tiploc, arrival, departure, publicArrival, publicDeparture, platform) =>
      var arrives := Stop(tiploc, ACTION_ARRIVAL, arrival, platform, publicArrival);
      var departs := Stop(tiploc, ACTION_DEPARTURE, departure, platform, publicDeparture);
      mvts', dayOffset', lastTime' := AddStop(mvts, dayOffset, lastTime, arrives, before);
      mvts', dayOffset', lastTime' := AddStop(mvts', dayOffset', lastTime', departs, before + [arrives]);
      assert (before + [arrives]) + [departs] == before + StopsOf(loc);
    case Passing(tiploc, pass) =>
      mvts', dayOffset', lastTime' := AddStop(mvts, dayOffset, lastTime,
        Stop(tiploc, ACTION_PASS, pass, None, None), before);
    case Terminating(tiploc, arrival, publicArrival, platform) =>
      mvts', dayOffset', lastTime' := AddStop(mvts, dayOffset, lastTime,
        Stop(tiploc, ACTION_ARRIVAL, arrival, platform, publicArrival), before);
  }

  /** The conversion loop of `apply_schedule_record`. */
  method ConvertLocations(locs: seq<Location>) returns (mvts: seq<Mvt>)
    ensures mvts == Lift(Flatten(locs))
  {
    mvts := [];
    var dayOffset := 0;
    var lastTime: TimeOfDay := 0;
    for i := 0 to |locs|
      invariant mvts == Lift(Flatten(locs[..i])) && Clock(Flatten(locs[..i]), dayOffset, lastTime)
    {
      FlattenStep(locs, i);
      mvts, dayOffset, lastTime := AddLocation(mvts, dayOffset, lastTime, locs[i], Flatten(locs[..i]));
    }
    assert locs[..|locs|] == locs;
  }

  // ---- order ----

  /** The `Ord` instance: day offset, then time, then action. */
  predicate LessEq(a: Mvt, b: Mvt) {
    || a.dayOffset < b.dayOffset
    || (a.dayOffset == b.dayOffset && a.stop.time < b.stop.time)
    || (a.dayOffset == b.dayOffset && a.stop.time == b.stop.time && a.stop.action <= b.stop.action)
  }

  predicate Sorted(mvts: seq<Mvt>) {
    forall i, j :: 0 <= i < j < |mvts| ==> LessEq(mvts[i], mvts[j])
  }

  function Insert(mvts: seq<Mvt>, m: Mvt): (r: seq<Mvt>)
    requires Sorted(mvts)
    ensures multiset(r) == multiset(mvts) + multiset{m} && |r| == |mvts| + 1
    ensures Sorted(r)
  {
    if mvts == [] || LessEq(mvts[|mvts| - 1], m) then mvts + [m]
    else
      var front, last := mvts[..|mvts| - 1], mvts[|mvts| - 1];
      var inner := Insert(front, m);
      assert mvts == front + [last];
      assert AllBelow(inner, last) by { BelowByMembers(front, m, inner, last); }
      inner + [last]
  }

  predicate AllBelow(mvts: seq<Mvt>, m: Mvt) {
    forall i :: 0 <= i < |mvts| ==> LessEq(mvts[i], m)
  }

  lemma BelowByMembers(front: seq<Mvt>, m: Mvt, inner: seq<Mvt>, last: Mvt)
    requires multiset(inner) == multiset(front) + multiset{m}
    requires AllBelow(front, last) && LessEq(m, last)
    ensures AllBelow(inner, last)
  {
    forall i | 0 <= i < |inner| ensures LessEq(inner[i], last) {
      assert inner[i] in multiset(inner);
      assert inner[i] == m || inner[i] in front;
    }
  }

  /** Ties keep their order. */
  function Sort(mvts: seq<Mvt>): (r: seq<Mvt>)
    ensures Sorted(r) && multiset(r) == multiset(mvts) && |r| == |mvts|
    ensures Sorted(mvts) ==> r == mvts
  {
    if mvts == [] then []
    else
      assert mvts == mvts[..|mvts| - 1] + [mvts[|mvts| - 1]];
      var r := Insert(Sort(mvts[..|mvts| - 1]), mvts[|mvts| - 1]);
      assert |multiset(r)| == |multiset(mvts)|;
      r
  }

  /** The order is by day, then time, then action. */
  lemma SortOrders(mvts: seq<Mvt>, i: nat, j: nat)
    requires i < j < |mvts|
    ensures var a, b := Sort(mvts)[i], Sort(mvts)[j];
            && a.dayOffset <= b.dayOffset
            && (a.dayOffset == b.dayOffset ==> a.stop.time <= b.stop.time)
            && (a.dayOffset == b.dayOffset && a.stop.time == b.stop.time ==> a.stop.action <= b.stop.action)
  {
    assert LessEq(Sort(mvts)[i], Sort(mvts)[j]);
  }

  datatype Moment = Moment(dayOffset: int, time: int)

  function MomentOf(m: Mvt): Moment { Moment(m.dayOffset, m.stop.time) }

  function Moments(mvts: seq<Mvt>): (r: seq<Moment>)
    ensures |r| == |mvts| && forall i :: 0 <= i < |mvts| ==> r[i] == MomentOf(mvts[i])
  {
    seq(|mvts|, i requires 0 <= i < |mvts| => MomentOf(mvts[i]))
  }

  ghost predicate Ascending(a: seq<Moment>) {
    forall i, j :: 0 <= i < j < |a| ==> NotAfter(a[i].dayOffset, a[i].time, a[j].dayOffset, a[j].time)
  }

  function Without<T>(a: seq<T>, k: nat): seq<T>
    requires k < |a|
  {
    a[..k] + a[k + 1..]
  }

  lemma WithoutMultiset<T>(a: seq<T>, k: nat)
    requires k < |a|
    ensures multiset(a) == multiset(Without(a, k)) + multiset{a[k]}
  {
    assert a == a[..k] + [a[k]] + a[k + 1..];
  }

  lemma WithoutMoments(a: seq<Mvt>, k: nat)
    requires k < |a|
    ensures Moments(Without(a, k)) == Without(Moments(a), k)
  {
  }

  lemma LastIsGreatest(a: seq<Moment>, b: seq<Moment>)
    requires multiset(a) == multiset(b) && Ascending(a) && Ascending(b) && a != [] && b != []
    ensures a[|a| - 1] == b[|b| - 1]
  {
    var x, y := a[|a| - 1], b[|b| - 1];
    assert x in multiset(b) && y in multiset(a);
    var i :| 0 <= i < |b| && b[i] == x;
    var j :| 0 <= j < |a| && a[j] == y;
  }

  /** There is only one way to put a multiset of moments in order. */
  lemma {:induction false} AscendingUnique(a: seq<Moment>, b: seq<Moment>)
    requires |a| == |b| && multiset(a) == multiset(b) && Ascending(a) && Ascending(b)
    ensures a == b
    decreases |a|
  {
    if a != [] {
      LastIsGreatest(a, b);
      FrontsAgree(a, b);
      AscendingUnique(a[..|a| - 1], b[..|b| - 1]);
      assert a == a[..|a| - 1] + [a[|a| - 1]] && b == b[..|b| - 1] + [b[|b| - 1]];
    }
  }

  lemma FrontsAgree<T>(a: seq<T>, b: seq<T>)
    requires a != [] && b != [] && multiset(a) == multiset(b) && a[|a| - 1] == b[|b| - 1]
    ensures multiset(a[..|a| - 1]) == multiset(b[..|b| - 1])
  {
    var last := a[|a| - 1];
    assert a == a[..|a| - 1] + [last] && b == b[..|b| - 1] + [last];
    assert multiset(a[..|a| - 1]) == multiset(a) - multiset{last};
    assert multiset(b[..|b| - 1]) == multiset(b) - multiset{last};
  }

  lemma {:induction false} MomentsOfPermutation(a: seq<Mvt>, b: seq<Mvt>)
    requires |a| == |b| && multiset(a) == multiset(b)
    ensures multiset(Moments(a)) == multiset(Moments(b))
    decreases |a|
  {
    if a != [] {
      assert a[0] in multiset(b);
      var k :| 0 <= k < |b| && b[k] == a[0];
      RemoveOne(a, 0, b, k);
      MomentsOfPermutation(Without(a, 0), Without(b, k));
      RestoreOne(a, 0, b, k);
    }
  }

  lemma RemoveOne(a: seq<Mvt>, j: nat, b: seq<Mvt>, k: nat)
    requires j < |a| && k < |b| && a[j] == b[k] && multiset(a) == multiset(b)
    ensures multiset(Without(a, j)) == multiset(Without(b, k))
  {
    WithoutMultiset(a, j);
    WithoutMultiset(b, k);
    assert multiset(Without(a, j)) == multiset(a) - multiset{a[j]};
    assert multiset(Without(b, k)) == multiset(b) - multiset{b[k]};
  }

  lemma RestoreOne(a: seq<Mvt>, j: nat, b: seq<Mvt>, k: nat)
    requires j < |a| && k < |b| && a[j] == b[k]
    requires multiset(Moments(Without(a, j))) == multiset(Moments(Without(b, k)))
    ensures multiset(Moments(a)) == multiset(Moments(b))
  {
    WithoutMoments(a, j);
    WithoutMoments(b, k);
    WithoutMultiset(Moments(a), j);
    WithoutMultiset(Moments(b), k);
  }

  /** Sorting a list whose times are in order leaves the sequence of (day offset, time)
      as it was: whatever the sort does with ties, it only exchanges movements of the same moment. */
  lemma RepairKeepsTimes(mvts: seq<Mvt>, sorted: seq<Mvt>)
    requires InOrder(mvts) && Sorted(sorted) && multiset(sorted) == multiset(mvts)
    ensures |sorted| == |mvts|
    ensures forall i :: 0 <= i < |mvts| ==>
              sorted[i].dayOffset == mvts[i].dayOffset && sorted[i].stop.time == mvts[i].stop.time
  {
    forall i, j | 0 <= i < j < |mvts|
      ensures MvtNotAfter(sorted[i], sorted[j])
    {
      assert |multiset(sorted)| == |multiset(mvts)|;
      assert LessEq(sorted[i], sorted[j]);
    }
    assert |multiset(sorted)| == |multiset(mvts)|;
    MomentsOfPermutation(mvts, sorted);
    AscendingUnique(Moments(mvts), Moments(sorted));
    forall i | 0 <= i < |mvts|
      ensures sorted[i].dayOffset == mvts[i].dayOffset && sorted[i].stop.time == mvts[i].stop.time
    {
      assert Moments(mvts)[i] == Moments(sorted)[i];
    }
  }
}
