/** From join rows to one movement each: the grouping loop of tspl-zugfuhrer's
    `get_mvts_passing_through` and the fold of tspl-verknupfen's. */
module Deduplication {
  import opened Options
  import opened LiveTrains
  import opened LiveInvariants

  // ---- the query ----

  datatype Query = Query(tiploc: string, from: int, until: int, date: int)

  /** An original movement, its train, and one of its updates if it has any. */
  datatype JoinRow = JoinRow(tmvt: TrainMvt, train: Train, updating: Option<TrainMvt>)

  ghost predicate Selects(s: Live, q: Query, m: TrainMvt, t: Train) {
    && m in s.mvts && t in s.trains && t.id == m.parentTrain && t.date == q.date
    && m.tiploc == q.tiploc && q.from <= m.time <= q.until && m.dayOffset == 0 && m.updates == None
  }

  ghost predicate IsJoinRow(s: Live, q: Query, r: JoinRow) {
    && Selects(s, q, r.tmvt, r.train)
    && match r.updating
       case Some(u) => u in s.mvts && u.updates == Some(r.tmvt.id)
       case None => forall u :: u in s.mvts ==> u.updates != Some(r.tmvt.id)
  }

  /** `rows` lists the join, in whatever order the database delivers it. */
  ghost predicate IsJoin(s: Live, q: Query, rows: seq<JoinRow>) {
    && (forall r :: r in rows <==> IsJoinRow(s, q, r))
    && (forall i, j :: 0 <= i < j < |rows| ==> rows[i] != rows[j])
  }

  // ---- grouping ----

  type Groups = map<MvtId, seq<TrainMvt>>

  /** The first row for an original. */
  function FirstRow(rows: seq<JoinRow>, id: MvtId): (r: Option<JoinRow>)
    ensures r.Some? ==> r.value in rows && r.value.tmvt.id == id
    ensures r.None? <==> forall x :: x in rows ==> x.tmvt.id != id
  {
    if rows == [] then None
    else if FirstRow(rows[..|rows| - 1], id).Some? then FirstRow(rows[..|rows| - 1], id)
    else if rows[|rows| - 1].tmvt.id == id then Some(rows[|rows| - 1])
    else None
  }

  /** The updates the rows list for an original, in row order. */
  function UpdatesIn(rows: seq<JoinRow>, id: MvtId): seq<TrainMvt> {
    if rows == [] then []
    else
      var last := rows[|rows| - 1];
      UpdatesIn(rows[..|rows| - 1], id) +
      if last.tmvt.id == id && last.updating.Some? then [last.updating.value] else []
  }

  ghost predicate GroupsFor(rows: seq<JoinRow>, groups: Groups) {
    && (forall id :: id in groups <==> FirstRow(rows, id).Some?)
    && (forall id :: id in groups ==> groups[id] == [FirstRow(rows, id).value.tmvt] + UpdatesIn(rows, id))
  }

  ghost predicate TrainsFor(rows: seq<JoinRow>, trains: map<TrainId, Train>) {
    && (forall r :: r in rows ==> r.train.id in trains)
    && (forall id :: id in trains ==> trains[id].id == id && exists r :: r in rows && r.train == trains[id])
  }

  function Extension(updating: Option<TrainMvt>): seq<TrainMvt> {
    if updating.Some? then [updating.value] else []
  }

  lemma GroupStep(rows: seq<JoinRow>, row: JoinRow, groups: Groups)
    requires GroupsFor(rows, groups)
    ensures row.tmvt.id in groups ==>
              GroupsFor(rows + [row], groups[row.tmvt.id := groups[row.tmvt.id] + Extension(row.updating)])
    ensures row.tmvt.id !in groups ==>
              GroupsFor(rows + [row], groups[row.tmvt.id := [row.tmvt] + Extension(row.updating)])
  {
    var key, tail := row.tmvt.id, Extension(row.updating);
    if key in groups {
      var head := [FirstRow(rows, key).value.tmvt];
      assert (head + UpdatesIn(rows, key)) + tail == head + (UpdatesIn(rows, key) + tail);
      GroupSet(rows, row, groups, groups[key] + tail);
    } else {
      NoRowsNoUpdates(rows, key);
      GroupSet(rows, row, groups, [row.tmvt] + tail);
    }
  }

  lemma GroupSet(rows: seq<JoinRow>, row: JoinRow, groups: Groups, group: seq<TrainMvt>)
    requires GroupsFor(rows, groups)
    requires group == [FirstRowWith(rows, row, row.tmvt.id).value.tmvt]
                      + (UpdatesIn(rows, row.tmvt.id) + Extension(row.updating))
    ensures GroupsFor(rows + [row], groups[row.tmvt.id := group])
  {
    var after := groups[row.tmvt.id := group];
    forall id ensures id in after <==> FirstRow(rows + [row], id).Some? {
      GroupAt(rows, row, groups, group, id);
    }
    forall id | id in after
      ensures after[id] == [FirstRow(rows + [row], id).value.tmvt] + UpdatesIn(rows + [row], id)
    {
      GroupAt(rows, row, groups, group, id);
    }
  }

  /** The group of one original. */
  ghost predicate GroupIs(rows: seq<JoinRow>, groups: Groups, id: MvtId) {
    && (id in groups <==> FirstRow(rows, id).Some?)
    && (id in groups ==> groups[id] == [FirstRow(rows, id).value.tmvt] + UpdatesIn(rows, id))
  }

  lemma GroupAt(rows: seq<JoinRow>, row: JoinRow, groups: Groups, group: seq<TrainMvt>, id: MvtId)
    requires GroupIs(rows, groups, id)
    requires group == [FirstRowWith(rows, row, row.tmvt.id).value.tmvt]
                      + (UpdatesIn(rows, row.tmvt.id) + Extension(row.updating))
    ensures GroupIs(rows + [row], groups[row.tmvt.id := group], id)
  {
    AppendedRow(rows, row, id);
    if id != row.tmvt.id {
      assert UpdatesIn(rows, id) + [] == UpdatesIn(rows, id);
    }
  }

  function FirstRowWith(rows: seq<JoinRow>, row: JoinRow, id: MvtId): Option<JoinRow> {
    if FirstRow(rows, id).Some? then FirstRow(rows, id) else if row.tmvt.id == id then Some(row) else None
  }

  lemma AppendedRow(rows: seq<JoinRow>, row: JoinRow, id: MvtId)
    ensures FirstRow(rows + [row], id) == FirstRowWith(rows, row, id)
    ensures UpdatesIn(rows + [row], id) == UpdatesIn(rows, id) + if row.tmvt.id == id then Extension(row.updating)
            else []
  {
    assert (rows + [row])[..|rows|] == rows;
  }

  lemma {:induction false} NoRowsNoUpdates(rows: seq<JoinRow>, id: MvtId)
    ensures FirstRow(rows, id).None? ==> UpdatesIn(rows, id) == []
    decreases |rows|
  {
    if rows != [] {
      NoRowsNoUpdates(rows[..|rows| - 1], id);
    }
  }

  method GroupRows(rows: seq<JoinRow>) returns (tmvts: Groups, trains: map<TrainId, Train>)
    ensures GroupsFor(rows, tmvts)
    ensures TrainsFor(rows, trains)
  {
    tmvts, trains := map[], map[];
    for i := 0 to |rows|
      invariant GroupsFor(rows[..i], tmvts)
      invariant TrainsFor(rows[..i], trains)
    {
      var row := rows[i];
      assert rows[..i + 1] == rows[..i] + [row];
      GroupStep(rows[..i], row, tmvts);
      trains := trains[row.train.id := row.train];
      if row.tmvt.id in tmvts {
        tmvts := tmvts[row.tmvt.id := tmvts[row.tmvt.id] + Extension(row.updating)];
      } else {
        tmvts := tmvts[row.tmvt.id := [row.tmvt] + Extension(row.updating)];
      }
    }
    assert rows[..|rows|] == rows;
  }

  lemma {:induction false} UpdatesInFromRows(rows: seq<JoinRow>, id: MvtId) returns (index: seq<nat>)
    ensures |index| == |UpdatesIn(rows, id)|
    ensures forall k :: 0 <= k < |index| ==>
              index[k] < |rows| && rows[index[k]].tmvt.id == id
                  && rows[index[k]].updating == Some(UpdatesIn(rows, id)[k])
    ensures forall j, k :: 0 <= j < k < |index| ==> index[j] < index[k]
    ensures forall r :: r in rows && r.tmvt.id == id && r.updating.Some? ==> r.updating.value in UpdatesIn(rows, id)
    decreases |rows|
  {
    if rows == [] {
      index := [];
    } else {
      var front, last := rows[..|rows| - 1], rows[|rows| - 1];
      index := UpdatesInFromRows(front, id);
      forall r | r in rows && r.tmvt.id == id && r.updating.Some? ensures r.updating.value in UpdatesIn(rows, id) {
        if r in front {
          assert r.updating.value in UpdatesIn(front, id);
        } else {
          assert r == last;
        }
      }
      if last.tmvt.id == id && last.updating.Some? {
        index := index + [|rows| - 1];
      }
    }
  }

  /** On consistent tables each group is one selected original followed by each of its
      updates once, and every selected original has its group. */
  ghost predicate FaithfulGroup(s: Live, q: Query, id: MvtId, group: seq<TrainMvt>) {
    && group != [] && group[0].id == id
    && (exists t :: Selects(s, q, group[0], t))
    && (forall u :: u in group[1..] <==> u in s.mvts && u.updates == Some(id))
    && (forall i, j :: 0 <= i < j < |group| ==> group[i] != group[j])
  }

  lemma UpdatesInComplete(s: Live, q: Query, rows: seq<JoinRow>, id: MvtId, o: TrainMvt, t: Train)
    requires Consistent(s) && IsJoin(s, q, rows) && o.id == id && Selects(s, q, o, t)
    ensures forall u :: u in UpdatesIn(rows, id) <==> u in s.mvts && u.updates == Some(id)
    ensures forall i, j :: 0 <= i < j < |UpdatesIn(rows, id)| ==> UpdatesIn(rows, id)[i] != UpdatesIn(rows, id)[j]
  {
    var us := UpdatesIn(rows, id);
    var index := UpdatesInFromRows(rows, id);
    forall k | 0 <= k < |us|
        ensures rows[index[k]] == JoinRow(o, t, Some(us[k])) && us[k] in s.mvts && us[k].updates == Some(id) {
      var r := rows[index[k]];
      assert r in rows && IsJoinRow(s, q, r);
      MvtIdsIdentify(s.mvts, r.tmvt, o);
      IdsIdentify(s.trains, r.train, t);
    }
    forall u | u in s.mvts && u.updates == Some(id) ensures u in us {
      assert IsJoinRow(s, q, JoinRow(o, t, Some(u)));
      assert JoinRow(o, t, Some(u)) in rows;
    }
    forall i, j | 0 <= i < j < |us| ensures us[i] != us[j] {
      assert rows[index[i]] != rows[index[j]];
    }
  }

  lemma GroupFaithful(s: Live, q: Query, rows: seq<JoinRow>, groups: Groups, id: MvtId)
    requires Consistent(s) && IsJoin(s, q, rows) && GroupsFor(rows, groups) && id in groups
    ensures FaithfulGroup(s, q, id, groups[id])
  {
    var r := FirstRow(rows, id).value;
    assert IsJoinRow(s, q, r);
    UpdatesInComplete(s, q, rows, id, r.tmvt, r.train);
    var group := groups[id];
    assert group[1..] == UpdatesIn(rows, id);
    forall i, j | 0 <= i < j < |group| ensures group[i] != group[j] {
      assert group[j] == UpdatesIn(rows, id)[j - 1];
      assert i > 0 ==> group[i] == UpdatesIn(rows, id)[i - 1];
      assert group[j] in UpdatesIn(rows, id);
    }
  }

  lemma SelectedHasGroup(s: Live, q: Query, rows: seq<JoinRow>, groups: Groups, o: TrainMvt, t: Train)
    requires IsJoin(s, q, rows) && GroupsFor(rows, groups) && Selects(s, q, o, t)
    ensures o.id in groups
  {
    if u :| u in s.mvts && u.updates == Some(o.id) {
      assert IsJoinRow(s, q, JoinRow(o, t, Some(u)));
      assert JoinRow(o, t, Some(u)) in rows;
    } else {
      assert IsJoinRow(s, q, JoinRow(o, t, None));
      assert JoinRow(o, t, None) in rows;
    }
  }

  // ---- folding one group ----

  datatype TimeWithSource = TimeWithSource(time: int, source: Source)

  datatype DeduplicatedMvt = DeduplicatedMvt(
    train: TrainId, tiploc: string, action: int, canx: bool, time: TimeWithSource, actual: bool,
    timeScheduled: Option<TimeWithSource>,
    pfmScheduled: Option<string>, pfmActual: Option<string>, pfmSuppr: bool)

  /** `Panicked` is a failed unwrap. */
  datatype FoldOutcome = Folded(mvt: DeduplicatedMvt) | InvariantsViolated | Panicked

  /** The last movement of a group that comes from `source`. */
  function LastFrom(group: seq<TrainMvt>, source: Source): (r: Option<TrainMvt>)
    ensures r.Some? ==> r.value in group && r.value.source == source
    ensures r.None? <==> forall m :: m in group ==> m.source != source
  {
    if group == [] then None
    else if group[|group| - 1].source == source then Some(group[|group| - 1])
    else LastFrom(group[..|group| - 1], source)
  }

  function Timed(m: Option<TrainMvt>): Option<TimeWithSource> {
    if m.Some? then Some(TimeWithSource(m.value.time, m.value.source)) else None
  }

  function Or<T>(a: Option<T>, b: Option<T>): Option<T> {
    if a.Some? then a else b
  }

  /** The live time of a group: TRUST's last word, or else Darwin's. */
  function LiveTime(group: seq<TrainMvt>): Option<TimeWithSource> {
    Or(Timed(LastFrom(group, Trust)), Timed(LastFrom(group, Darwin)))
  }

  function ActualPlatform(group: seq<TrainMvt>): Option<string> {
    if group == [] then None
    else
      var earlier, last := ActualPlatform(group[..|group| - 1]), group[|group| - 1];
      if last.source == Trust then last.platform
      else if last.source == Darwin then Or(earlier, last.platform)
      else earlier
  }

  /** TRUST's last row and the Darwin rows after it decide the platform: TRUST's if it names
      one, else the first that one of those Darwin rows names. */
  ghost predicate PlatformAfter(group: seq<TrainMvt>, k: int, pfm: Option<string>)
    requires -1 <= k < |group|
  {
    if k >= 0 && group[k].platform.Some? then pfm == group[k].platform
    else if pfm == None then forall i :: k < i < |group| && group[i].source == Darwin ==> group[i].platform == None
    else exists i :: k < i < |group| && group[i].source == Darwin && group[i].platform == pfm
                     && forall n :: k < n < i && group[n].source == Darwin ==> group[n].platform == None
  }

  lemma {:induction false} ActualPlatformIs(group: seq<TrainMvt>, k: int)
    requires -1 <= k < |group| && (k >= 0 ==> group[k].source == Trust)
    requires forall i :: k < i < |group| ==> group[i].source != Trust
    ensures PlatformAfter(group, k, ActualPlatform(group))
    decreases |group|
  {
    if group != [] && k < |group| - 1 {
      var front := group[..|group| - 1];
      ActualPlatformIs(front, k);
      PlatformStep(front, group[|group| - 1], k, ActualPlatform(front));
      assert group == front + [group[|group| - 1]];
    }
  }

  lemma PlatformStep(front: seq<TrainMvt>, last: TrainMvt, k: int, pfm: Option<string>)
    requires -1 <= k < |front| && last.source != Trust && PlatformAfter(front, k, pfm)
    ensures PlatformAfter(front + [last], k, if last.source == Darwin then Or(pfm, last.platform) else pfm)
  {
    var group := front + [last];
    if !(k >= 0 && front[k].platform.Some?) {
      if pfm.Some? {
        var i :| k < i < |front| && front[i].source == Darwin && front[i].platform == pfm
                 && forall n :: k < n < i && front[n].source == Darwin ==> front[n].platform == None;
        assert group[i] == front[i];
      } else if last.source == Darwin && last.platform.Some? {
        assert group[|front|] == last;
      }
    }
  }

  function ScheduledPlatform(group: seq<TrainMvt>): Option<string> {
    var m := LastFrom(group, SchedItps);
    if m.Some? then m.value.platform else None
  }

  predicate Suppressed(group: seq<TrainMvt>) {
    exists m :: m in group && m.pfmSuppr
  }

  ghost predicate IsFoldOf(group: seq<TrainMvt>, train: Train, d: DeduplicatedMvt)
    requires group != []
  {
    && d.train == group[0].parentTrain && d.canx == train.cancelled
    && d.tiploc == group[|group| - 1].tiploc && d.action == group[|group| - 1].action
    && Or(LiveTime(group), Timed(LastFrom(group, SchedItps))) == Some(d.time)
    && d.timeScheduled == (if LiveTime(group).Some? then Timed(LastFrom(group, SchedItps)) else None)
    && d.actual == LastFrom(group, Trust).Some?
    && d.pfmScheduled == ScheduledPlatform(group) && d.pfmActual == ActualPlatform(group)
    && d.pfmSuppr == Suppressed(group)
  }

  /** Something in the group gives a time. */
  predicate HasTime(group: seq<TrainMvt>) {
    LiveTime(group).Some? || LastFrom(group, SchedItps).Some?
  }

  method FoldGroup(tmvts: seq<TrainMvt>, trains: map<TrainId, Train>) returns (r: FoldOutcome)
    ensures r.InvariantsViolated? <==> tmvts == [] || tmvts[0].parentTrain !in trains
    ensures !r.InvariantsViolated? ==> (r.Panicked? <==> !HasTime(tmvts))
    ensures r.Folded? ==> IsFoldOf(tmvts, trains[tmvts[0].parentTrain], r.mvt)
  {
    if |tmvts| == 0 {
      return InvariantsViolated;
    }
    var tid := tmvts[0].parentTrain;
    if tid !in trains {
      return InvariantsViolated;
    }
    var train := trains[tid];
    var timeScheduled: Option<TimeWithSource> := None;
    var time: Option<TimeWithSource> := None;
    var pfmScheduled: Option<string> := None;
    var pfmActual: Option<string> := None;
    var pfmSuppr, actual := false, false;
    var tiploc, action := tmvts[0].tiploc, tmvts[0].action;
    for i := 0 to |tmvts|
      invariant time == LiveTime(tmvts[..i]) && actual == LastFrom(tmvts[..i], Trust).Some?
      invariant timeScheduled == Timed(LastFrom(tmvts[..i], SchedItps))
      invariant pfmScheduled == ScheduledPlatform(tmvts[..i]) && pfmActual == ActualPlatform(tmvts[..i])
      invariant pfmSuppr == Suppressed(tmvts[..i])
      invariant i > 0 ==> tiploc == tmvts[i - 1].tiploc && action == tmvts[i - 1].action
    {
      var mvt := tmvts[i];
      assert tmvts[..i + 1][..i] == tmvts[..i] && tmvts[..i + 1][i] == mvt;
      tiploc, action := mvt.tiploc, mvt.action;
      match mvt.source {
        case SchedItps =>
          pfmScheduled := mvt.platform;
          timeScheduled := Some(TimeWithSource(mvt.time, mvt.source));
        case Trust =>
          actual := true;
          time := Some(TimeWithSource(mvt.time, mvt.source));
          pfmActual := mvt.platform;
        case Darwin =>
          pfmActual := Or(pfmActual, mvt.platform);
          if !actual {
            time := Some(TimeWithSource(mvt.time, mvt.source));
          }
        case _ =>
      }
      SuppressedStep(tmvts, i);
      if mvt.pfmSuppr {
        pfmSuppr := true;
      }
    }
    assert tmvts[..|tmvts|] == tmvts;
    if time.None? {
      assert !actual;
      if timeScheduled.None? {
        return Panicked;
      }
      time, timeScheduled := timeScheduled, None;
    }
    r := Folded(DeduplicatedMvt(tid, tiploc, action, train.cancelled, time.value, actual, timeScheduled,
                                pfmScheduled, pfmActual, pfmSuppr));
  }

  lemma SuppressedStep(group: seq<TrainMvt>, i: nat)
    requires i < |group|
    ensures Suppressed(group[..i + 1]) <==> Suppressed(group[..i]) || group[i].pfmSuppr
  {
    assert group[..i + 1] == group[..i] + [group[i]];
    if group[i].pfmSuppr {
      assert group[i] in group[..i + 1];
    }
  }

  // ---- folding all groups ----

  datatype DedupOutcome = Done(mvts: seq<DeduplicatedMvt>) | Failed

  ghost predicate Foldable(group: seq<TrainMvt>, trains: map<TrainId, Train>) {
    group != [] && group[0].parentTrain in trains && HasTime(group)
  }

  /** Each group is folded into the movement at its place in `order`. */
  ghost predicate FoldsAll(groups: Groups, trains: map<TrainId, Train>, order: seq<MvtId>, mvts: seq<DeduplicatedMvt>) {
    && |mvts| == |order| == |groups|
    && (forall id :: id in groups <==> id in order)
    && forall k :: 0 <= k < |order| ==>
         order[k] in groups && Foldable(groups[order[k]], trains)
         && IsFoldOf(groups[order[k]], trains[groups[order[k]][0].parentTrain], mvts[k])
  }

  /** The groups come out in the map's own order, reported as `order`. */
  method Deduplicate(groups: Groups, trains: map<TrainId, Train>) returns (r: DedupOutcome, ghost order: seq<MvtId>)
    ensures r.Done? <==> forall id :: id in groups ==> Foldable(groups[id], trains)
    ensures r.Done? ==> FoldsAll(groups, trains, order, r.mvts)
  {
    var todo := groups.Keys;
    var dmvts := [];
    order := [];
    while todo != {}
      invariant todo <= groups.Keys
      invariant |dmvts| == |order| && |order| + |todo| == |groups.Keys|
      invariant forall id :: id in groups ==> (id in order <==> id !in todo)
      invariant forall k :: 0 <= k < |order| ==>
                  order[k] in groups && Foldable(groups[order[k]], trains)
                  && IsFoldOf(groups[order[k]], trains[groups[order[k]][0].parentTrain], dmvts[k])
      decreases todo
    {
      var mid :| mid in todo;
      todo := todo - {mid};
      var folded := FoldGroup(groups[mid], trains);
      if !folded.Folded? {
        assert !Foldable(groups[mid], trains);
        return Failed, order;
      }
      dmvts, order := dmvts + [folded.mvt], order + [mid];
    }
    forall id | id in groups ensures Foldable(groups[id], trains) {
      var k :| 0 <= k < |order| && order[k] == id;
    }
    r := Done(dmvts);
  }

  // ---- what the whole query answers ----

  /** The answer for one original: TRUST's time if TRUST has reported, else Darwin's, else
      the scheduled time. */
  ghost predicate Answers(s: Live, o: TrainMvt, d: DeduplicatedMvt) {
    && d.train == o.parentTrain && d.tiploc == o.tiploc && d.pfmScheduled == o.platform
    && (d.actual <==> exists u :: u in s.mvts && u.updates == Some(o.id) && u.source == Trust)
    && (d.actual ==>
        exists u :: u in s.mvts && u.updates == Some(o.id) && u.source == Trust
            && d.time == TimeWithSource(u.time, Trust))
    && (!d.actual ==> forall u :: u in s.mvts && u.updates == Some(o.id) ==> d.time == TimeWithSource(u.time, Darwin))
    && ((forall u :: u in s.mvts ==> u.updates != Some(o.id)) ==>
        d.time == TimeWithSource(o.time, SchedItps) && d.timeScheduled == None)
    && ((exists u :: u in s.mvts && u.updates == Some(o.id)) ==>
        d.timeScheduled == Some(TimeWithSource(o.time, SchedItps)))
    && (d.pfmSuppr <==> o.pfmSuppr || exists u :: u in s.mvts && u.updates == Some(o.id) && u.pfmSuppr)
  }

  lemma GroupSources(s: Live, q: Query, id: MvtId, group: seq<TrainMvt>)
    requires Consistent(s) && FaithfulGroup(s, q, id, group)
    ensures group[0].source == SchedItps && group[0].id == id
    ensures forall m :: m in group[1..] ==> m.source == Darwin || m.source == Trust
    ensures LastFrom(group, SchedItps) == Some(group[0])
    ensures forall m :: m in group <==> m == group[0] || (m in s.mvts && m.updates == Some(id))
  {
    assert RowOk(s.trains, s.mvts, group[0]);
    forall m | m in group[1..] ensures m.source == Darwin || m.source == Trust {
      assert RowOk(s.trains, s.mvts, m);
    }
    assert group == [group[0]] + group[1..];
    assert group[0] in group;
  }

  lemma OneDarwin(s: Live, u: TrainMvt, v: TrainMvt)
    requires OneDarwinEach(s.mvts) && u in s.mvts && v in s.mvts
    requires u.source == Darwin && v.source == Darwin && u.updates == v.updates
    ensures u == v
  {
    var i :| 0 <= i < |s.mvts| && s.mvts[i] == u;
    var j :| 0 <= j < |s.mvts| && s.mvts[j] == v;
  }

  /** An update is at the place of its original. */
  lemma SamePlace(s: Live, u: TrainMvt, o: TrainMvt)
    requires Consistent(s) && o in s.mvts && (u == o || (u in s.mvts && u.updates == Some(o.id)))
    ensures u.tiploc == o.tiploc
  {
    if u != o {
      assert RowOk(s.trains, s.mvts, u);
      var p :| p in s.mvts && u.updates == Some(p.id) && p.tiploc == u.tiploc;
      MvtIdsIdentify(s.mvts, p, o);
    }
  }

  lemma FoldAnswers(s: Live, q: Query, id: MvtId, group: seq<TrainMvt>, train: Train, d: DeduplicatedMvt)
    requires Consistent(s) && FaithfulGroup(s, q, id, group) && IsFoldOf(group, train, d)
    ensures Answers(s, group[0], d)
    ensures d.actual ==> Some(d.time) == Timed(LastFrom(group, Trust))
  {
    GroupSources(s, q, id, group);
    var o := group[0];
    var trust, darwin := LastFrom(group, Trust), LastFrom(group, Darwin);
    forall u | u in s.mvts && u.updates == Some(id) && u.source == Darwin ensures darwin == Some(u) {
      OneDarwin(s, u, darwin.value);
    }
    forall u | u in s.mvts && u.updates == Some(id) ensures u.source == Darwin || u.source == Trust {
      assert u in group[1..];
    }
    SamePlace(s, group[|group| - 1], o);
  }

  lemma GroupFoldable(s: Live, q: Query, rows: seq<JoinRow>, groups: Groups, trains: map<TrainId, Train>, id: MvtId)
    requires Consistent(s) && IsJoin(s, q, rows) && GroupsFor(rows, groups) && TrainsFor(rows, trains) && id in groups
    ensures FaithfulGroup(s, q, id, groups[id]) && Foldable(groups[id], trains)
    ensures trains[groups[id][0].parentTrain] in s.trains
  {
    GroupFaithful(s, q, rows, groups, id);
    GroupSources(s, q, id, groups[id]);
    var row := FirstRow(rows, id).value;
    assert IsJoinRow(s, q, row);
    var r :| r in rows && r.train == trains[row.train.id];
    assert IsJoinRow(s, q, r);
  }

  predicate ReportsTrust(r: JoinRow, id: MvtId) {
    r.tmvt.id == id && r.updating.Some? && r.updating.value.source == Trust
  }

  /** Row k brings the last TRUST update of the original. */
  predicate LastTrustRow(rows: seq<JoinRow>, id: MvtId, k: int) {
    0 <= k < |rows| && ReportsTrust(rows[k], id) && forall n :: k < n < |rows| ==> !ReportsTrust(rows[n], id)
  }

  lemma {:induction false} LastTrustInRows(rows: seq<JoinRow>, id: MvtId) returns (k: int)
    requires LastFrom(UpdatesIn(rows, id), Trust).Some?
    ensures LastTrustRow(rows, id, k) && rows[k].updating == LastFrom(UpdatesIn(rows, id), Trust)
    decreases |rows|
  {
    var front, last := rows[..|rows| - 1], rows[|rows| - 1];
    LastOfStep(front, last, id);
    assert rows == front + [last];
    if ReportsTrust(last, id) {
      k := |rows| - 1;
    } else {
      k := LastTrustInRows(front, id);
      LastRowStays(front, last, id, k);
    }
  }

  lemma LastRowStays(front: seq<JoinRow>, last: JoinRow, id: MvtId, k: int)
    requires LastTrustRow(front, id, k) && !ReportsTrust(last, id)
    ensures LastTrustRow(front + [last], id, k)
  {
  }

  lemma LastOfStep(front: seq<JoinRow>, last: JoinRow, id: MvtId)
    ensures LastFrom(UpdatesIn(front + [last], id), Trust) ==
            if ReportsTrust(last, id) then last.updating else LastFrom(UpdatesIn(front, id), Trust)
  {
    var rows, us := front + [last], UpdatesIn(front, id);
    assert rows[..|rows| - 1] == front && rows[|rows| - 1] == last;
    if last.tmvt.id == id && last.updating.Some? {
      assert UpdatesIn(rows, id) == us + [last.updating.value];
      assert (us + [last.updating.value])[..|us|] == us;
    } else {
      assert UpdatesIn(rows, id) == us + [] == us;
    }
  }

  lemma {:induction false} LastAfterHead(head: TrainMvt, tail: seq<TrainMvt>, source: Source)
    requires head.source != source
    ensures LastFrom([head] + tail, source) == LastFrom(tail, source)
    decreases |tail|
  {
    if tail != [] {
      assert ([head] + tail)[..|tail|] == [head] + tail[..|tail| - 1];
      LastAfterHead(head, tail[..|tail| - 1], source);
    }
  }

  /** `d` answers the selected original with this id; a TRUST time is that of the last row
      to bring one. */
  ghost predicate AnswersFor(s: Live, q: Query, rows: seq<JoinRow>, id: MvtId, d: DeduplicatedMvt) {
    && (exists o, t :: Selects(s, q, o, t) && o.id == id && Answers(s, o, d) && d.canx == t.cancelled)
    && (d.actual ==>
        exists k :: LastTrustRow(rows, id, k) && d.time == TimeWithSource(rows[k].updating.value.time, Trust))
  }

  /** Every selected original is answered, each once: `order[k]` is the one `mvts[k]` answers. */
  ghost predicate AnsweredOnce(s: Live, q: Query, rows: seq<JoinRow>, order: seq<MvtId>, mvts: seq<DeduplicatedMvt>) {
    && |mvts| == |order| && (forall i, j :: 0 <= i < j < |order| ==> order[i] != order[j])
    && (forall o, t :: Selects(s, q, o, t) ==> o.id in order)
    && (forall k :: 0 <= k < |order| ==> AnswersFor(s, q, rows, order[k], mvts[k]))
  }

  lemma GroupAnswered(s: Live, q: Query, rows: seq<JoinRow>, groups: Groups, trains: map<TrainId, Train>, id: MvtId,
                      d: DeduplicatedMvt)
    requires Consistent(s) && IsJoin(s, q, rows) && GroupsFor(rows, groups) && TrainsFor(rows, trains)
    requires id in groups && Foldable(groups[id], trains)
    requires IsFoldOf(groups[id], trains[groups[id][0].parentTrain], d)
    ensures AnswersFor(s, q, rows, id, d)
  {
    GroupFoldable(s, q, rows, groups, trains, id);
    var group := groups[id];
    var train := trains[group[0].parentTrain];
    FoldAnswers(s, q, id, group, train, d);
    var t :| Selects(s, q, group[0], t);
    IdsIdentify(s.trains, t, train);
    if d.actual {
      GroupSources(s, q, id, group);
      LastAfterHead(group[0], UpdatesIn(rows, id), Trust);
      var k := LastTrustInRows(rows, id);
      assert d.time == TimeWithSource(rows[k].updating.value.time, Trust);
    }
  }

  /** Both services together, on consistent tables: neither the empty-list error nor a
      failed unwrap is reachable, and every selected original is answered exactly once. */
  method MvtsPassingThrough(s: Live, q: Query, rows: seq<JoinRow>) returns (mvts: seq<DeduplicatedMvt>)
    requires Consistent(s) && IsJoin(s, q, rows)
    ensures exists order :: AnsweredOnce(s, q, rows, order, mvts)
  {
    var groups, trains := GroupRows(rows);
    AllFoldable(s, q, rows, groups, trains);
    var r;
    ghost var order;
    r, order := Deduplicate(groups, trains);
    mvts := r.mvts;
    AllAnswered(s, q, rows, groups, trains, order, mvts);
  }

  lemma AllFoldable(s: Live, q: Query, rows: seq<JoinRow>, groups: Groups, trains: map<TrainId, Train>)
    requires Consistent(s) && IsJoin(s, q, rows) && GroupsFor(rows, groups) && TrainsFor(rows, trains)
    ensures forall id :: id in groups ==> Foldable(groups[id], trains)
  {
    forall id | id in groups ensures Foldable(groups[id], trains) {
      GroupFoldable(s, q, rows, groups, trains, id);
    }
  }

  lemma AllCovered(s: Live, q: Query, rows: seq<JoinRow>, groups: Groups, order: seq<MvtId>)
    requires IsJoin(s, q, rows) && GroupsFor(rows, groups) && forall id :: id in groups ==> id in order
    ensures forall o, t :: Selects(s, q, o, t) ==> o.id in order
  {
    forall o, t | Selects(s, q, o, t) ensures o.id in order {
      SelectedHasGroup(s, q, rows, groups, o, t);
    }
  }

  lemma EachAnswered(s: Live, q: Query, rows: seq<JoinRow>, groups: Groups, trains: map<TrainId, Train>,
                     order: seq<MvtId>, mvts: seq<DeduplicatedMvt>)
    requires Consistent(s) && IsJoin(s, q, rows) && GroupsFor(rows, groups) && TrainsFor(rows, trains)
    requires FoldsAll(groups, trains, order, mvts)
    ensures forall k :: 0 <= k < |order| ==> AnswersFor(s, q, rows, order[k], mvts[k])
  {
    forall k | 0 <= k < |order| ensures AnswersFor(s, q, rows, order[k], mvts[k]) {
      GroupAnswered(s, q, rows, groups, trains, order[k], mvts[k]);
    }
  }

  lemma AllAnswered(s: Live, q: Query, rows: seq<JoinRow>, groups: Groups, trains: map<TrainId, Train>,
                    order: seq<MvtId>, mvts: seq<DeduplicatedMvt>)
    requires Consistent(s) && IsJoin(s, q, rows) && GroupsFor(rows, groups) && TrainsFor(rows, trains)
    requires FoldsAll(groups, trains, order, mvts)
    ensures AnsweredOnce(s, q, rows, order, mvts)
  {
    DistinctByCount(order, groups.Keys);
    AllCovered(s, q, rows, groups, order);
    EachAnswered(s, q, rows, groups, trains, order, mvts);
  }

  /** A list as long as the set of its elements has no repetition. */
  lemma {:induction false} DistinctByCount(ids: seq<MvtId>, all: set<MvtId>)
    requires |ids| == |all| && forall id :: id in all <==> id in ids
    ensures forall i, j :: 0 <= i < j < |ids| ==> ids[i] != ids[j]
    decreases |ids|
  {
    if ids != [] {
      var front, last := ids[..|ids| - 1], ids[|ids| - 1];
      assert ids == front + [last];
      if last in front {
        assert all == set id | id in front;
        SetNoLarger(front);
      } else {
        assert forall id :: id in all - {last} <==> id in front;
        DistinctByCount(front, all - {last});
      }
    }
  }

  lemma {:induction false} SetNoLarger(ids: seq<MvtId>)
    ensures |set id | id in ids| <= |ids|
    decreases |ids|
  {
    if ids != [] {
      var front, last := ids[..|ids| - 1], ids[|ids| - 1];
      SetNoLarger(front);
      assert ids == front + [last];
      assert (set id | id in ids) == (set id | id in front) + {last};
    }
  }
}
