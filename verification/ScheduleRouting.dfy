/** Two-pointer routing of a schedule (`geo_process_schedule`). */
module ScheduleRouting {
  import opened Options
  import opened Router
  import opened RouteCache

  datatype MvtId = MvtId(number: int)

  datatype Action = Arrival | Departure | Pass

  /** A movement of the schedule whose tiploc has a railway location; `station` is that
      location. Movements are taken in the order of the first query. */
  datatype GeoMvt = GeoMvt(id: MvtId, action: Action, station: StationId)

  const SCHEDULE_MAX_ARRIVAL_SKIPS: nat := 2

  type PathColumn = map<MvtId, PathId>

  predicate StartsHere(m: GeoMvt) { m.action == Departure || m.action == Pass }

  predicate EndsHere(m: GeoMvt) { m.action == Arrival || m.action == Pass }

  /** Movement j can end a route from movement i. */
  ghost predicate Candidate(t: Tables, mvts: seq<GeoMvt>, i: nat, j: nat)
    requires i < |mvts| && j < |mvts|
  {
    EndsHere(mvts[j]) && mvts[j].station != mvts[i].station && Routable(t, mvts[i].station, mvts[j].station)
  }

  /** Movement j is an arrival elsewhere that cannot be routed to. */
  ghost predicate FailedArrival(t: Tables, mvts: seq<GeoMvt>, i: nat, j: nat)
    requires i < |mvts| && j < |mvts|
  {
    mvts[j].action == Arrival && mvts[j].station != mvts[i].station && !Routable(t, mvts[i].station, mvts[j].station)
  }

  ghost function FailedArrivals(t: Tables, mvts: seq<GeoMvt>, i: nat, j: nat): nat
    requires i < |mvts| && j <= |mvts|
    decreases j
  {
    if j <= i + 1 then 0
    else FailedArrivals(t, mvts, i, j - 1) + if FailedArrival(t, mvts, i, j - 1) then 1 else 0
  }

  /** The route from start i goes to j: the first later candidate, with few enough failed
      arrivals before it. */
  ghost predicate RoutesTo(t: Tables, mvts: seq<GeoMvt>, i: nat, j: nat)
    requires i < |mvts| && j < |mvts|
  {
    && i < j && StartsHere(mvts[i]) && Candidate(t, mvts, i, j)
    && (forall k :: i < k < j ==> !Candidate(t, mvts, i, k))
    && FailedArrivals(t, mvts, i, j) <= SCHEDULE_MAX_ARRIVAL_SKIPS
  }

  /** The attempt from start i to j is reached and the search behind it panics. */
  ghost predicate CrashesAt(t: Tables, mvts: seq<GeoMvt>, i: nat, j: nat)
    requires i < |mvts| && j < |mvts|
  {
    && i < j && StartsHere(mvts[i]) && EndsHere(mvts[j]) && mvts[j].station != mvts[i].station
    && Panics(t, mvts[i].station, mvts[j].station)
    && (forall k :: i < k < j ==> !Candidate(t, mvts, i, k))
    && FailedArrivals(t, mvts, i, j) <= SCHEDULE_MAX_ARRIVAL_SKIPS
  }

  /** Some attempt from start i panics. */
  ghost predicate Crashing(t: Tables, mvts: seq<GeoMvt>, i: nat)
    requires i < |mvts|
  {
    exists j :: 0 <= j < |mvts| && CrashesAt(t, mvts, i, j)
  }

  lemma {:induction false} FailedArrivalsMonotone(t: Tables, mvts: seq<GeoMvt>, i: nat, j: nat, k: nat)
    requires i < |mvts| && j <= k <= |mvts|
    ensures FailedArrivals(t, mvts, i, j) <= FailedArrivals(t, mvts, i, k)
    decreases k - j
  {
    if j < k {
      FailedArrivalsMonotone(t, mvts, i, j, k - 1);
    }
  }

  ghost predicate Distinct(mvts: seq<GeoMvt>) {
    forall i, j :: 0 <= i < j < |mvts| ==> mvts[i].id != mvts[j].id
  }

  lemma RoutesToUnique(t: Tables, mvts: seq<GeoMvt>, i: nat, j: nat, k: nat)
    requires i < |mvts| && j < |mvts| && k < |mvts|
    requires RoutesTo(t, mvts, i, j) && RoutesTo(t, mvts, i, k)
    ensures j == k
  {
  }

  /** Where movement i leads, if it leads anywhere. */
  ghost function Target(t: Tables, mvts: seq<GeoMvt>, i: nat): (r: Option<nat>)
    requires i < |mvts|
    ensures forall j :: 0 <= j < |mvts| ==> (r == Some(j) <==> RoutesTo(t, mvts, i, j))
    ensures r.Some? ==> i < r.value < |mvts|
  {
    if exists j :: 0 <= j < |mvts| && RoutesTo(t, mvts, i, j) then
      var j :| 0 <= j < |mvts| && RoutesTo(t, mvts, i, j);
      assert forall k :: 0 <= k < |mvts| && RoutesTo(t, mvts, i, k) ==> k == j by {
        forall k | 0 <= k < |mvts| && RoutesTo(t, mvts, i, k) ensures k == j {
          RoutesToUnique(t, mvts, i, j, k);
        }
      }
      Some(j)
    else None
  }

  // ---- the target, with actions and limit spelled out ----

  /** An arrival or a pass at another station than movement i's, which can be routed to. */
  ghost predicate ReachableEnd(t: Tables, mvts: seq<GeoMvt>, i: nat, j: nat)
    requires i < |mvts| && j < |mvts|
  {
    && (mvts[j].action == Arrival || mvts[j].action == Pass) && mvts[j].station != mvts[i].station
    && Routable(t, mvts[i].station, mvts[j].station)
  }

  /** An arrival at another station which cannot be routed to. */
  ghost predicate Missed(t: Tables, mvts: seq<GeoMvt>, i: nat, j: nat)
    requires i < |mvts| && j < |mvts|
  {
    mvts[j].action == Arrival && mvts[j].station != mvts[i].station && !Routable(t, mvts[i].station, mvts[j].station)
  }

  lemma {:induction false} OneMissed(t: Tables, mvts: seq<GeoMvt>, i: nat, j: nat)
    requires i < |mvts| && j <= |mvts|
    ensures FailedArrivals(t, mvts, i, j) >= 1 <==> exists a :: i < a < j && Missed(t, mvts, i, a)
    decreases j
  {
    if j > i + 1 {
      OneMissed(t, mvts, i, j - 1);
      assert FailedArrival(t, mvts, i, j - 1) <==> Missed(t, mvts, i, j - 1);
    }
  }

  lemma {:induction false} TwoMissed(t: Tables, mvts: seq<GeoMvt>, i: nat, j: nat)
    requires i < |mvts| && j <= |mvts|
    ensures FailedArrivals(t, mvts, i, j) >= 2 <==>
            exists a, b :: i < a < b < j && Missed(t, mvts, i, a) && Missed(t, mvts, i, b)
    decreases j
  {
    if j > i + 1 {
      TwoMissed(t, mvts, i, j - 1);
      OneMissed(t, mvts, i, j - 1);
      assert FailedArrival(t, mvts, i, j - 1) <==> Missed(t, mvts, i, j - 1);
    }
  }

  lemma {:induction false} ThreeMissed(t: Tables, mvts: seq<GeoMvt>, i: nat, j: nat)
    requires i < |mvts| && j <= |mvts|
    ensures FailedArrivals(t, mvts, i, j) >= 3 <==>
            exists a, b, c ::
                i < a < b < c < j && Missed(t, mvts, i, a) && Missed(t, mvts, i, b) && Missed(t, mvts, i, c)
    decreases j
  {
    if j > i + 1 {
      ThreeMissed(t, mvts, i, j - 1);
      TwoMissed(t, mvts, i, j - 1);
      assert FailedArrival(t, mvts, i, j - 1) <==> Missed(t, mvts, i, j - 1);
    }
  }

  /** A departure or pass leads to the first later arrival or pass at another station that can
      be routed to, unless three arrivals were missed on the way. */
  lemma TargetIff(t: Tables, mvts: seq<GeoMvt>, i: nat, j: nat)
    requires i < |mvts| && j < |mvts|
    ensures Target(t, mvts, i) == Some(j) <==>
            && (mvts[i].action == Departure || mvts[i].action == Pass)
            && i < j && ReachableEnd(t, mvts, i, j)
            && (forall k :: i < k < j ==> !ReachableEnd(t, mvts, i, k))
            && !exists a, b, c :: i < a < b < c < j
                                  && Missed(t, mvts, i, a) && Missed(t, mvts, i, b) && Missed(t, mvts, i, c)
  {
    ThreeMissed(t, mvts, i, j);
    assert forall k :: 0 <= k < |mvts| ==> (Candidate(t, mvts, i, k) <==> ReachableEnd(t, mvts, i, k));
    assert Target(t, mvts, i) == Some(j) <==> RoutesTo(t, mvts, i, j);
  }

  /** A successful attempt: the movement routed to and the stored path. */
  datatype Hit = Hit(j: nat, path: PathId)

  /** The outcomes of the movements tried so far, in order. */
  type Hits = seq<Option<Hit>>

  /** `id` is the stored path of the pair. */
  ghost predicate PathFor(paths: seq<StationPath>, from: StationId, to: StationId, id: PathId) {
    exists p :: p in paths && p.s1 == from && p.s2 == to && p.id == id
  }

  ghost predicate HitOk(paths: seq<StationPath>, mvts: seq<GeoMvt>, target: Option<nat>, i: nat, hit: Option<Hit>)
    requires i < |mvts|
  {
    match hit
    case None => target == None
    case Some(h) => h.j < |mvts| && target == Some(h.j) && PathFor(paths, mvts[i].station, mvts[h.j].station, h.path)
  }

  /** Every movement so far was tried as a start, and its outcome is its target. */
  ghost predicate HitsOk(t: Tables, paths: seq<StationPath>, mvts: seq<GeoMvt>, hits: Hits) {
    |hits| <= |mvts| && forall i :: 0 <= i < |hits| ==> HitOk(paths, mvts, Target(t, mvts, i), i, hits[i])
  }

  lemma HitsAdvance(t: Tables, paths: seq<StationPath>, paths': seq<StationPath>, mvts: seq<GeoMvt>, hits: Hits,
                    hit: Option<Hit>)
    requires HitsOk(t, paths, mvts, hits) && paths <= paths' && |hits| < |mvts|
    requires HitOk(paths', mvts, Target(t, mvts, |hits|), |hits|, hit)
    ensures HitsOk(t, paths', mvts, hits + [hit])
  {
    var hits' := hits + [hit];
    forall i | 0 <= i < |hits'| ensures HitOk(paths', mvts, Target(t, mvts, i), i, hits'[i]) {
      if i < |hits| {
        assert HitOk(paths, mvts, Target(t, mvts, i), i, hits[i]);
      }
    }
  }

  lemma HitsKept(t: Tables, paths: seq<StationPath>, paths': seq<StationPath>, mvts: seq<GeoMvt>, hits: Hits)
    requires HitsOk(t, paths, mvts, hits) && paths <= paths'
    ensures HitsOk(t, paths', mvts, hits)
  {
    forall i | 0 <= i < |hits| ensures HitOk(paths', mvts, Target(t, mvts, i), i, hits[i]) {
      assert HitOk(paths, mvts, Target(t, mvts, i), i, hits[i]);
    }
  }

  ghost predicate Fits(mvts: seq<GeoMvt>, hits: Hits) {
    |hits| <= |mvts| && forall i :: 0 <= i < |hits| && hits[i].Some? ==> hits[i].value.j < |mvts|
  }

  predicate SameEntry(before: PathColumn, after: PathColumn, m: MvtId) {
    (m in before <==> m in after) && (m in before ==> after[m] == before[m])
  }

  predicate HasEntry(after: PathColumn, m: MvtId, path: PathId) {
    m in after && after[m] == path
  }

  ghost predicate NoneOf(mvts: seq<GeoMvt>, m: MvtId) {
    forall i :: 0 <= i < |mvts| ==> mvts[i].id != m
  }

  predicate HitsMvt(hit: Option<Hit>, j: nat) {
    hit.Some? && hit.value.j == j
  }

  /** The `starts_path` column: a movement that led somewhere starts that path, every
      other entry is as it was. */
  ghost predicate StartsOk(mvts: seq<GeoMvt>, hits: Hits, before: PathColumn, after: PathColumn)
    requires Fits(mvts, hits)
  {
    && (forall i :: 0 <= i < |hits| && hits[i].Some? ==> HasEntry(after, mvts[i].id, hits[i].value.path))
    && (forall i :: 0 <= i < |mvts| && (i < |hits| ==> hits[i].None?) ==> SameEntry(before, after, mvts[i].id))
    && (forall m :: NoneOf(mvts, m) ==> SameEntry(before, after, m))
  }

  /** The `ends_path` column: the latest start that led to j has written entry j, if any has. */
  ghost predicate EndsOk(mvts: seq<GeoMvt>, hits: Hits, before: PathColumn, after: PathColumn)
    requires Fits(mvts, hits)
  {
    && (forall i ::
          0 <= i < |hits| && hits[i].Some? && (forall k :: i < k < |hits| ==> !HitsMvt(hits[k], hits[i].value.j)) ==>
          HasEntry(after, mvts[hits[i].value.j].id, hits[i].value.path))
    && (forall j :: 0 <= j < |mvts| && (forall k :: 0 <= k < |hits| ==> !HitsMvt(hits[k], j)) ==>
          SameEntry(before, after, mvts[j].id))
    && (forall m :: NoneOf(mvts, m) ==> SameEntry(before, after, m))
  }

  function WithStart(column: PathColumn, mvts: seq<GeoMvt>, i: nat, hit: Option<Hit>): PathColumn
    requires i < |mvts|
  {
    if hit.Some? then column[mvts[i].id := hit.value.path] else column
  }

  function WithEnd(column: PathColumn, mvts: seq<GeoMvt>, hit: Option<Hit>): PathColumn
    requires hit.Some? ==> hit.value.j < |mvts|
  {
    if hit.Some? then column[mvts[hit.value.j].id := hit.value.path] else column
  }

  lemma StartsAdvance(mvts: seq<GeoMvt>, hits: Hits, hit: Option<Hit>, before: PathColumn, now: PathColumn)
    requires Distinct(mvts) && |hits| < |mvts| && Fits(mvts, hits) && StartsOk(mvts, hits, before, now)
    requires hit.Some? ==> hit.value.j < |mvts|
    ensures StartsOk(mvts, hits + [hit], before, WithStart(now, mvts, |hits|, hit))
  {
    var hits', after := hits + [hit], WithStart(now, mvts, |hits|, hit);
    forall i | 0 <= i < |hits'| && hits'[i].Some? ensures HasEntry(after, mvts[i].id, hits'[i].value.path) {
      if i < |hits| {
        assert HasEntry(now, mvts[i].id, hits[i].value.path);
      }
    }
    forall i | 0 <= i < |mvts| && (i < |hits'| ==> hits'[i].None?) ensures SameEntry(before, after, mvts[i].id) {
      assert i < |hits| ==> hits[i] == hits'[i];
      assert SameEntry(before, now, mvts[i].id);
    }
    forall m | NoneOf(mvts, m) ensures SameEntry(before, after, m) {
      assert SameEntry(before, now, m) && mvts[|hits|].id != m;
    }
  }

  lemma EndsAdvance(mvts: seq<GeoMvt>, hits: Hits, hit: Option<Hit>, before: PathColumn, now: PathColumn)
    requires Distinct(mvts) && |hits| < |mvts| && Fits(mvts, hits) && EndsOk(mvts, hits, before, now)
    requires hit.Some? ==> hit.value.j < |mvts|
    ensures EndsOk(mvts, hits + [hit], before, WithEnd(now, mvts, hit))
  {
    var hits', after := hits + [hit], WithEnd(now, mvts, hit);
    assert hits'[|hits|] == hit && forall k :: 0 <= k < |hits| ==> hits'[k] == hits[k];
    forall i | 0 <= i < |hits'| && hits'[i].Some?
        && (forall k :: i < k < |hits'| ==> !HitsMvt(hits'[k], hits'[i].value.j))
      ensures HasEntry(after, mvts[hits'[i].value.j].id, hits'[i].value.path)
    {
      if i < |hits| {
        assert !HitsMvt(hits'[|hits|], hits[i].value.j);
        forall k | i < k < |hits| ensures !HitsMvt(hits[k], hits[i].value.j) {
          assert !HitsMvt(hits'[k], hits'[i].value.j);
        }
        assert HasEntry(now, mvts[hits[i].value.j].id, hits[i].value.path);
      }
    }
    forall j | 0 <= j < |mvts| && (forall k :: 0 <= k < |hits'| ==> !HitsMvt(hits'[k], j))
      ensures SameEntry(before, after, mvts[j].id)
    {
      assert !HitsMvt(hits'[|hits|], j);
      forall k | 0 <= k < |hits| ensures !HitsMvt(hits[k], j) {
        assert !HitsMvt(hits'[k], j);
      }
      assert SameEntry(before, now, mvts[j].id);
    }
    forall m | NoneOf(mvts, m) ensures SameEntry(before, after, m) {
      assert SameEntry(before, now, m);
    }
  }

  ghost predicate ColumnsOk(mvts: seq<GeoMvt>, hits: Hits,
                            starts0: PathColumn, starts: PathColumn, ends0: PathColumn, ends: PathColumn) {
    Fits(mvts, hits) && StartsOk(mvts, hits, starts0, starts) && EndsOk(mvts, hits, ends0, ends)
  }

  lemma ColumnsAdvance(mvts: seq<GeoMvt>, hits: Hits, hit: Option<Hit>,
                       starts0: PathColumn, starts: PathColumn, ends0: PathColumn, ends: PathColumn)
    requires Distinct(mvts) && |hits| < |mvts| && ColumnsOk(mvts, hits, starts0, starts, ends0, ends)
    requires hit.Some? ==> hit.value.j < |mvts|
    ensures ColumnsOk(mvts, hits + [hit],
                      starts0, WithStart(starts, mvts, |hits|, hit), ends0, WithEnd(ends, mvts, hit))
  {
    StartsAdvance(mvts, hits, hit, starts0, starts);
    EndsAdvance(mvts, hits, hit, ends0, ends);
  }

  /** The cached router's tables since the schedule was begun. */
  ghost predicate Since(t: Tables, u: Tables) {
    && u.parts == t.parts && u.links == t.links && u.stations == t.stations && t.paths <= u.paths
    && TablesOk(u)
    && forall p :: p in u.paths && p !in t.paths ==> Routable(t, p.s1, p.s2)
  }

  /** The tables after one attempt: at most the pair's own path is new, and only if the pair
      could be routed. */
  lemma SinceNext(t: Tables, u: Tables, u': Tables, from: StationId, to: StationId)
    requires Since(t, u) && TablesOk(u') && u'.parts == u.parts && u'.links == u.links && u'.stations == u.stations
    requires u'.paths == u.paths
             || (Routable(t, from, to) && u.paths <= u'.paths && |u'.paths| == |u.paths| + 1
                 && u'.paths[|u.paths|].s1 == from && u'.paths[|u.paths|].s2 == to)
    ensures Since(t, u')
  {
    forall p | p in u'.paths && p !in t.paths ensures Routable(t, p.s1, p.s2) {
      assert p in u.paths || p == u'.paths[|u.paths|];
    }
  }

  /** One routing attempt, in its own transaction. */
  method TryRoute(db: RailwayDb, from: StationId, to: StationId, ghost t: Tables)
    returns (crashed: bool, path: Option<PathId>)
    requires Since(t, db.Contents())
    modifies db`paths, db`nextPath
    ensures Since(t, db.Contents()) && old(db.paths) <= db.paths
    ensures crashed <==> Panics(t, from, to)
    ensures path.Some? <==> Routable(t, from, to)
    ensures path.Some? ==> PathFor(db.paths, from, to, path.value)
  {
    ghost var u := db.Contents();
    RoutableStable(t, u, from, to);
    var r := db.NavigateCached(from, to);
    SinceNext(t, u, db.Contents(), from, to);
    crashed := r.Crashed?;
    path := if r.Stored? then Some(r.id) else None;
  }

  /** The first candidate in reach is the target, and nothing beyond it is attempted. */
  lemma Reached(t: Tables, mvts: seq<GeoMvt>, i: nat, k: nat)
    requires i < k < |mvts| && StartsHere(mvts[i]) && Candidate(t, mvts, i, k)
    requires forall n :: i < n < k ==> !Candidate(t, mvts, i, n) && !CrashesAt(t, mvts, i, n)
    requires FailedArrivals(t, mvts, i, k) <= SCHEDULE_MAX_ARRIVAL_SKIPS
    ensures Target(t, mvts, i) == Some(k) && !Crashing(t, mvts, i)
  {
    assert RoutesTo(t, mvts, i, k);
    forall j | 0 <= j < |mvts| ensures !CrashesAt(t, mvts, i, j) {
      assert j == k ==> !Panics(t, mvts[i].station, mvts[k].station);
    }
  }

  /** The search for an end, from the movement after the start. */
  method RouteFrom(db: RailwayDb, mvts: seq<GeoMvt>, i: nat, ghost t: Tables)
    returns (crashed: bool, hit: Option<Hit>)
    requires i < |mvts| && StartsHere(mvts[i]) && Since(t, db.Contents())
    modifies db`paths, db`nextPath
    ensures Since(t, db.Contents()) && old(db.paths) <= db.paths
    ensures crashed <==> Crashing(t, mvts, i)
    ensures !crashed ==> HitOk(db.paths, mvts, Target(t, mvts, i), i, hit)
  {
    crashed, hit := false, None;
    var arrsSkipped := 0;
    for k := i + 1 to |mvts|
      invariant Since(t, db.Contents()) && old(db.paths) <= db.paths
      invariant hit == None && !crashed
      invariant forall n :: i < n < k ==> !Candidate(t, mvts, i, n) && !CrashesAt(t, mvts, i, n)
      invariant arrsSkipped == FailedArrivals(t, mvts, i, k) <= SCHEDULE_MAX_ARRIVAL_SKIPS
    {
      if EndsHere(mvts[k]) && mvts[k].station != mvts[i].station {
        var path;
        crashed, path := TryRoute(db, mvts[i].station, mvts[k].station, t);
        if crashed {
          assert CrashesAt(t, mvts, i, k);
          return;
        }
        if path.Some? {
          Reached(t, mvts, i, k);
          return false, Some(Hit(k, path.value));
        }
        if mvts[k].action == Arrival {
          arrsSkipped := arrsSkipped + 1;
          if arrsSkipped > SCHEDULE_MAX_ARRIVAL_SKIPS {
            TooManySkipped(t, mvts, i, k);
            return;
          }
        }
      }
    }
  }

  lemma TooManySkipped(t: Tables, mvts: seq<GeoMvt>, i: nat, k: nat)
    requires i < k < |mvts|
    requires forall n :: i < n <= k ==> !Candidate(t, mvts, i, n) && !CrashesAt(t, mvts, i, n)
    requires FailedArrivals(t, mvts, i, k + 1) > SCHEDULE_MAX_ARRIVAL_SKIPS
    ensures Target(t, mvts, i) == None && !Crashing(t, mvts, i)
  {
    forall j | 0 <= j < |mvts| ensures !RoutesTo(t, mvts, i, j) && !CrashesAt(t, mvts, i, j) {
      if k < j {
        FailedArrivalsMonotone(t, mvts, i, k + 1, j);
      }
    }
  }

  lemma OnlyStartsLead(t: Tables, mvts: seq<GeoMvt>, i: nat)
    requires i < |mvts| && (!StartsHere(mvts[i]) || i == |mvts| - 1)
    ensures Target(t, mvts, i) == None && !Crashing(t, mvts, i)
  {
  }

  /** On labels computed for the current links, and stations on nodes of their own, no
      attempt panics: a schedule is always processed to its end. */
  lemma ReadyNeverCrashes(t: Tables, mvts: seq<GeoMvt>, i: nat)
    requires ReadyToRoute(t) && i < |mvts|
    ensures !Crashing(t, mvts, i)
  {
    forall j | 0 <= j < |mvts| ensures !CrashesAt(t, mvts, i, j) {
      if mvts[j].station != mvts[i].station {
        ReadyNeverPanics(t, mvts[i].station, mvts[j].station);
      }
    }
  }

  /** Everything the loop keeps: each movement tried so far has its target as outcome, and the
      columns record the outcomes. */
  ghost predicate Progress(t: Tables, u: Tables, mvts: seq<GeoMvt>, hits: Hits,
                           starts0: PathColumn, starts: PathColumn, ends0: PathColumn, ends: PathColumn) {
    && Since(t, u) && HitsOk(t, u.paths, mvts, hits)
    && ColumnsOk(mvts, hits, starts0, starts, ends0, ends)
    && forall i :: 0 <= i < |hits| ==> !Crashing(t, mvts, i)
  }

  lemma Stay(t: Tables, u: Tables, u': Tables, mvts: seq<GeoMvt>, hits: Hits,
             starts0: PathColumn, starts: PathColumn, ends0: PathColumn, ends: PathColumn)
    requires Progress(t, u, mvts, hits, starts0, starts, ends0, ends)
    requires Since(t, u') && u.paths <= u'.paths
    ensures Progress(t, u', mvts, hits, starts0, starts, ends0, ends)
  {
    HitsKept(t, u.paths, u'.paths, mvts, hits);
  }

  lemma Advance(t: Tables, u: Tables, u': Tables, mvts: seq<GeoMvt>, hits: Hits, hit: Option<Hit>,
                starts0: PathColumn, starts: PathColumn, ends0: PathColumn, ends: PathColumn)
    requires Distinct(mvts) && |hits| < |mvts| && Progress(t, u, mvts, hits, starts0, starts, ends0, ends)
    requires Since(t, u') && u.paths <= u'.paths && !Crashing(t, mvts, |hits|)
    requires HitOk(u'.paths, mvts, Target(t, mvts, |hits|), |hits|, hit)
    ensures Progress(t, u', mvts, hits + [hit], starts0, WithStart(starts, mvts, |hits|, hit),
                     ends0, WithEnd(ends, mvts, hit))
  {
    assert HitsOk(t, u'.paths, mvts, hits + [hit]) by {
      HitsAdvance(t, u.paths, u'.paths, mvts, hits, hit);
    }
    ColumnsAdvance(mvts, hits, hit, starts0, starts, ends0, ends);
  }

  /** The `starts_path` and `ends_path` columns of `schedule_movements`. */
  class MovementPaths {
    var startsPath: PathColumn
    var endsPath: PathColumn

    constructor ()
      ensures startsPath == map[] && endsPath == map[]
    {
      startsPath, endsPath := map[], map[];
    }

    /** What the loop keeps of the columns and of the cached router's tables. */
    ghost predicate Tried(t: Tables, db: RailwayDb, mvts: seq<GeoMvt>, hits: Hits, starts0: PathColumn,
                          ends0: PathColumn)
      reads this, db
    {
      Progress(t, db.Contents(), mvts, hits, starts0, startsPath, ends0, endsPath)
    }

    /** A movement that cannot start a route is passed over. */
    ghost method PassOver(db: RailwayDb, mvts: seq<GeoMvt>, t: Tables, hits: Hits, starts0: PathColumn,
                          ends0: PathColumn)
      returns (hits': Hits)
      requires Distinct(mvts) && |hits| < |mvts| && Tried(t, db, mvts, hits, starts0, ends0)
      requires !StartsHere(mvts[|hits|]) || |hits| == |mvts| - 1
      ensures hits' == hits + [None] && Tried(t, db, mvts, hits', starts0, ends0)
    {
      hits' := hits + [None];
      OnlyStartsLead(t, mvts, |hits|);
      Advance(t, db.Contents(), db.Contents(), mvts, hits, None, starts0, startsPath, ends0, endsPath);
    }

    /** The two updates after a successful attempt. */
    method RecordHit(mvts: seq<GeoMvt>, i: nat, hit: Option<Hit>)
      requires i < |mvts| && (hit.Some? ==> hit.value.j < |mvts|)
      modifies this
      ensures startsPath == WithStart(old(startsPath), mvts, i, hit)
      ensures endsPath == WithEnd(old(endsPath), mvts, hit)
    {
      if hit.Some? {
        startsPath := startsPath[mvts[i].id := hit.value.path];
        endsPath := endsPath[mvts[hit.value.j].id := hit.value.path];
      }
    }

    /** Routes from one departure or pass and records the path at both its ends. */
    method ProcessStart(db: RailwayDb, mvts: seq<GeoMvt>, i: nat, ghost t: Tables, ghost hits: Hits,
                        ghost starts0: PathColumn, ghost ends0: PathColumn)
      returns (crashed: bool, ghost hits': Hits)
      requires i == |hits| < |mvts| && StartsHere(mvts[i]) && Distinct(mvts)
      requires Tried(t, db, mvts, hits, starts0, ends0)
      modifies this, db`paths, db`nextPath
      ensures crashed <==> Crashing(t, mvts, i)
      ensures crashed ==> hits' == hits
      ensures !crashed ==> |hits'| == i + 1
      ensures Tried(t, db, mvts, hits', starts0, ends0)
    {
      ghost var u := db.Contents();
      var hit;
      crashed, hit := RouteFrom(db, mvts, i, t);
      if crashed {
        hits' := hits;
        Stay(t, u, db.Contents(), mvts, hits, starts0, startsPath, ends0, endsPath);
        return;
      }
      hits' := hits + [hit];
      Advance(t, u, db.Contents(), mvts, hits, hit, starts0, startsPath, ends0, endsPath);
      RecordHit(mvts, i, hit);
    }

    /** `hits` lists what became of every movement as a start; the thread panics at the first
        start from which an attempt panics, with everything before it recorded. */
    method GeoProcessSchedule(db: RailwayDb, mvts: seq<GeoMvt>) returns (crashed: bool, ghost hits: Hits)
      requires Distinct(mvts) && TablesOk(db.Contents())
      modifies this, db`paths, db`nextPath
      ensures Since(old(db.Contents()), db.Contents())
      ensures HitsOk(old(db.Contents()), db.paths, mvts, hits)
      ensures ColumnsOk(mvts, hits, old(startsPath), startsPath, old(endsPath), endsPath)
      ensures forall i :: 0 <= i < |hits| ==> !Crashing(old(db.Contents()), mvts, i)
      ensures crashed ==> |hits| < |mvts| && Crashing(old(db.Contents()), mvts, |hits|)
      ensures !crashed ==> |hits| == |mvts|
      ensures ReadyToRoute(old(db.Contents())) ==> !crashed
    {
      ghost var t, starts0, ends0 := db.Contents(), startsPath, endsPath;
      hits, crashed := [], false;
      var startPtr := 0;
      var endPtr := 0;
      while true
        invariant endPtr == |hits| <= |mvts| && Tried(t, db, mvts, hits, starts0, ends0)
        invariant !crashed
        decreases |mvts| - endPtr
      {
        startPtr := endPtr;
        while startPtr < |mvts| && !StartsHere(mvts[startPtr])
          invariant endPtr <= startPtr == |hits| <= |mvts| && Tried(t, db, mvts, hits, starts0, ends0)
        {
          hits := PassOver(db, mvts, t, hits, starts0, ends0);
          startPtr := startPtr + 1;
        }
        if startPtr == |mvts| {
          break;
        }
        endPtr := startPtr + 1;
        if endPtr >= |mvts| {
          hits := PassOver(db, mvts, t, hits, starts0, ends0);
          break;
        }
        crashed, hits := ProcessStart(db, mvts, startPtr, t, hits, starts0, ends0);
        if crashed {
          if ReadyToRoute(t) {
            ReadyNeverCrashes(t, mvts, startPtr);
          }
          return;
        }
      }
    }
  }
}
