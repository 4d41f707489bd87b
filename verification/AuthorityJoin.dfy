/** The third way to find the schedule that counts: the self-join behind tspl-fahrplan's
    `get_mvts_passing_through`, folded row by row. */
module AuthorityJoin {
  import opened Options
  import opened Seqs
  import opened Authority

  datatype MvtId = MvtId(number: int)

  /** A schedule movement, as far as the query is concerned. */
  datatype SchedMvt = SchedMvt(id: MvtId, parent: SchedId)

  /** A selected movement, its parent, and another schedule with the parent's uid. */
  datatype JoinRow = JoinRow(mvt: SchedMvt, sched: Sched, updating: Option<Sched>)

  predicate Running(table: seq<Sched>, uid: string, day: Day, s: Sched) {
    s in table && s.uid == uid && RunsOn(s, day)
  }

  ghost predicate IsJoinRow(table: seq<Sched>, selected: seq<SchedMvt>, day: Day, r: JoinRow) {
    && r.mvt in selected && r.sched.id == r.mvt.parent && Running(table, r.sched.uid, day, r.sched)
    && r.updating.Some? && Running(table, r.sched.uid, day, r.updating.value)
  }

  /** `rows` lists the join, in whatever order the database delivers it. */
  ghost predicate IsJoin(table: seq<Sched>, selected: seq<SchedMvt>, day: Day, rows: seq<JoinRow>) {
    forall r :: r in rows <==> IsJoinRow(table, selected, day, r)
  }

  ghost predicate TableOk(table: seq<Sched>) {
    forall i, j :: 0 <= i < j < |table| ==> table[i].id != table[j].id
  }

  // ---- the fold ----

  type ByUid = map<string, Sched>

  /** `process_schedule_join`. */
  method ProcessScheduleJoin(scheds: ByUid, sched: Sched, updating: Option<Sched>) returns (r: ByUid)
    ensures r.Keys == scheds.Keys + {sched.uid}
    ensures forall uid :: uid in scheds && uid != sched.uid ==> r[uid] == scheds[uid]
    ensures var before := if sched.uid in scheds then scheds[sched.uid] else sched;
            r[sched.uid] == if updating.Some? && Supersedes(updating.value, before) then updating.value else before
  {
    r := scheds;
    if sched.uid !in r {
      r := r[sched.uid := sched];
    }
    if updating.Some? {
      if Supersedes(updating.value, r[sched.uid]) {
        r := r[sched.uid := updating.value];
      }
    }
  }

  ghost predicate Names(rows: seq<JoinRow>, uid: string) {
    exists r :: r in rows && r.sched.uid == uid
  }

  /** The fold's state: for each uid seen, a running schedule that none of the schedules
      joined so far supersedes. */
  ghost predicate FoldOk(table: seq<Sched>, day: Day, rows: seq<JoinRow>, scheds: ByUid) {
    && (forall uid :: uid in scheds <==> Names(rows, uid))
    && (forall uid :: uid in scheds ==> Running(table, uid, day, scheds[uid]))
    && (forall r :: r in rows && r.updating.Some? && r.sched.uid in scheds ==>
          !Supersedes(r.updating.value, scheds[r.sched.uid]))
  }

  lemma FoldStep(table: seq<Sched>, selected: seq<SchedMvt>, day: Day, rows: seq<JoinRow>, row: JoinRow, scheds: ByUid,
                 r: ByUid)
    requires FoldOk(table, day, rows, scheds) && IsJoinRow(table, selected, day, row)
    requires r.Keys == scheds.Keys + {row.sched.uid}
    requires forall uid :: uid in scheds && uid != row.sched.uid ==> r[uid] == scheds[uid]
    requires var before := if row.sched.uid in scheds then scheds[row.sched.uid] else row.sched;
             r[row.sched.uid] == if Supersedes(row.updating.value, before) then row.updating.value else before
    ensures FoldOk(table, day, rows + [row], r)
  {
    var more := rows + [row];
    forall uid ensures uid in r <==> Names(more, uid) {
      if Names(rows, uid) {
        var x :| x in rows && x.sched.uid == uid;
        assert x in more;
      }
      if uid == row.sched.uid {
        assert row in more;
      }
      if Names(more, uid) {
        var x :| x in more && x.sched.uid == uid;
        assert x in rows || x == row;
      }
    }
    forall x | x in more && x.updating.Some? && x.sched.uid in r
      ensures !Supersedes(x.updating.value, r[x.sched.uid])
    {
      if x in rows {
        assert Names(rows, x.sched.uid);
        assert !Supersedes(x.updating.value, scheds[x.sched.uid]);
      }
    }
  }

  /** The schedules the fold looks at for a uid, in row order: the first row's own, then every
      updating one. */
  function Considered(rows: seq<JoinRow>, uid: string): seq<Sched> {
    if rows == [] then []
    else
      var before, last := Considered(rows[..|rows| - 1], uid), rows[|rows| - 1];
      if last.sched.uid != uid then before
      else (if before == [] then [last.sched] else before) + if last.updating.Some? then [last.updating.value] else []
  }

  /** `s` is the first least of those. */
  ghost predicate IsEntry(rows: seq<JoinRow>, uid: string, s: Sched) {
    exists k :: FirstLeast(Considered(rows, uid), k) && s == Considered(rows, uid)[k]
  }

  lemma EntryUnique(rows: seq<JoinRow>, uid: string, s: Sched, t: Sched)
    requires IsEntry(rows, uid, s) && IsEntry(rows, uid, t)
    ensures s == t
  {
    var k :| FirstLeast(Considered(rows, uid), k) && s == Considered(rows, uid)[k];
    var n :| FirstLeast(Considered(rows, uid), n) && t == Considered(rows, uid)[n];
    assert k < n ==> !Supersedes(t, s);
    assert n < k ==> !Supersedes(s, t);
  }

  ghost predicate EntriesOk(rows: seq<JoinRow>, scheds: ByUid) {
    forall uid :: if uid in scheds then IsEntry(rows, uid, scheds[uid]) else Considered(rows, uid) == []
  }

  lemma EntriesStep(rows: seq<JoinRow>, row: JoinRow, scheds: ByUid, r: ByUid)
    requires EntriesOk(rows, scheds) && row.updating.Some?
    requires r.Keys == scheds.Keys + {row.sched.uid}
    requires forall uid :: uid in scheds && uid != row.sched.uid ==> r[uid] == scheds[uid]
    requires var before := if row.sched.uid in scheds then scheds[row.sched.uid] else row.sched;
             r[row.sched.uid] == if Supersedes(row.updating.value, before) then row.updating.value else before
    ensures EntriesOk(rows + [row], r)
  {
    var more := rows + [row];
    assert more[..|rows|] == rows;
    forall uid ensures if uid in r then IsEntry(more, uid, r[uid]) else Considered(more, uid) == [] {
      if uid == row.sched.uid {
        EntryStep(rows, row, if uid in scheds then scheds[uid] else row.sched);
      } else {
        assert Considered(more, uid) == Considered(rows, uid);
      }
    }
  }

  lemma EntryStep(rows: seq<JoinRow>, row: JoinRow, before: Sched)
    requires row.updating.Some?
    requires IsEntry(rows, row.sched.uid, before) || (Considered(rows, row.sched.uid) == [] && before == row.sched)
    ensures IsEntry(rows + [row], row.sched.uid,
                    if Supersedes(row.updating.value, before) then row.updating.value else before)
  {
    var uid, more := row.sched.uid, rows + [row];
    assert more[..|rows|] == rows;
    var seen := if Considered(rows, uid) == [] then [row.sched] else Considered(rows, uid);
    assert Considered(more, uid) == seen + [row.updating.value];
    var k := 0;
    if Considered(rows, uid) != [] {
      k :| FirstLeast(seen, k) && before == seen[k];
    }
    LastRow(seen, row.updating.value, k);
    var all := seen + [row.updating.value];
    assert all[|seen|] == row.updating.value && all[k] == before;
  }

  /** `uid_scheds_to_id_scheds`. */
  method UidSchedsToIdScheds(inp: ByUid) returns (idScheds: map<SchedId, Sched>)
    ensures forall id :: id in idScheds <==> exists uid :: uid in inp && inp[uid].id == id
    ensures forall id :: id in idScheds ==> exists uid :: uid in inp && idScheds[id] == inp[uid] && inp[uid].id == id
  {
    idScheds := map[];
    var todo := inp.Keys;
    while todo != {}
      invariant todo <= inp.Keys
      invariant forall id :: id in idScheds <==> exists uid :: uid in inp && uid !in todo && inp[uid].id == id
      invariant forall id :: id in idScheds ==>
                exists uid :: uid in inp && idScheds[id] == inp[uid] && inp[uid].id == id
      decreases todo
    {
      var uid :| uid in todo;
      ghost var before := idScheds;
      idScheds := idScheds[inp[uid].id := inp[uid]];
      forall id ensures id in idScheds <==> exists u :: u in inp && u !in todo - {uid} && inp[u].id == id {
        if id in before {
          var u :| u in inp && u !in todo && inp[u].id == id;
          assert u !in todo - {uid};
        }
        if id == inp[uid].id {
          assert uid !in todo - {uid};
        }
      }
      todo := todo - {uid};
    }
  }

  // ---- what the query keeps ----

  /** No running schedule of the same uid supersedes `s`, whatever its source. */
  ghost predicate Unsuperseded(table: seq<Sched>, day: Day, s: Sched) {
    forall t :: Running(table, s.uid, day, t) ==> !Supersedes(t, s)
  }

  ghost predicate DistinctRunning(table: seq<Sched>, uid: string, day: Day) {
    forall s, t :: Running(table, uid, day, s) && Running(table, uid, day, t) && s.stp == t.stp ==> s == t
  }

  lemma SameId(table: seq<Sched>, s: Sched, t: Sched)
    requires TableOk(table) && s in table && t in table && s.id == t.id
    ensures s == t
  {
    var i :| 0 <= i < |table| && table[i] == s;
    var j :| 0 <= j < |table| && table[j] == t;
  }

  /** The schedule the whole join leaves for a uid: a running one nothing supersedes. */
  lemma JoinLeavesUnsuperseded(table: seq<Sched>, selected: seq<SchedMvt>, day: Day, rows: seq<JoinRow>, scheds: ByUid,
                               uid: string)
    requires IsJoin(table, selected, day, rows) && FoldOk(table, day, rows, scheds) && uid in scheds
    ensures Running(table, uid, day, scheds[uid]) && Unsuperseded(table, day, scheds[uid])
  {
    var r :| r in rows && r.sched.uid == uid;
    forall t | Running(table, uid, day, t) ensures !Supersedes(t, scheds[uid]) {
      var joined := JoinRow(r.mvt, r.sched, Some(t));
      assert IsJoinRow(table, selected, day, joined);
      assert joined in rows;
    }
  }

  /** A schedule with this id is among those the fold leaves. */
  ghost predicate Found(scheds: ByUid, id: SchedId) {
    exists uid :: uid in scheds && scheds[uid].id == id
  }

  /** Why a movement is kept. */
  lemma KeptIff(table: seq<Sched>, selected: seq<SchedMvt>, day: Day, rows: seq<JoinRow>, scheds: ByUid, m: SchedMvt,
                s: Sched)
    requires TableOk(table) && IsJoin(table, selected, day, rows) && FoldOk(table, day, rows, scheds)
    requires m in selected && s in table && s.id == m.parent && DistinctRunning(table, s.uid, day)
    ensures Found(scheds, m.parent) <==> RunsOn(s, day) && Unsuperseded(table, day, s)
  {
    if uid :| uid in scheds && scheds[uid].id == m.parent {
      JoinLeavesUnsuperseded(table, selected, day, rows, scheds, uid);
      SameId(table, scheds[uid], s);
    }
    if RunsOn(s, day) && Unsuperseded(table, day, s) {
      var row := JoinRow(m, s, Some(s));
      assert IsJoinRow(table, selected, day, row);
      assert row in rows && Names(rows, s.uid);
      JoinLeavesUnsuperseded(table, selected, day, rows, scheds, s.uid);
      assert !Supersedes(scheds[s.uid], s) && !Supersedes(s, scheds[s.uid]);
      SameLetter(scheds[s.uid], s);
      assert scheds[s.uid] == s;
    }
  }

  lemma SameLetter(s: Sched, t: Sched)
    requires !Supersedes(s, t) && !Supersedes(t, s)
    ensures s.stp == t.stp
  {
  }

  /** A running schedule that nothing supersedes, of a uid with a selected movement whose own
      schedule runs. */
  ghost predicate Counts(table: seq<Sched>, selected: seq<SchedMvt>, day: Day, s: Sched) {
    && Running(table, s.uid, day, s) && Unsuperseded(table, day, s)
    && exists m: SchedMvt, p: Sched :: m in selected && p.id == m.parent && Running(table, s.uid, day, p)
  }

  lemma FoldCounts(table: seq<Sched>, selected: seq<SchedMvt>, day: Day, rows: seq<JoinRow>, scheds: ByUid, uid: string)
    requires IsJoin(table, selected, day, rows) && FoldOk(table, day, rows, scheds) && uid in scheds
    ensures Counts(table, selected, day, scheds[uid])
  {
    JoinLeavesUnsuperseded(table, selected, day, rows, scheds, uid);
    var r :| r in rows && r.sched.uid == uid;
    assert IsJoinRow(table, selected, day, r);
  }

  lemma CountsIsFolded(table: seq<Sched>, selected: seq<SchedMvt>, day: Day, rows: seq<JoinRow>, scheds: ByUid,
                       s: Sched)
    requires IsJoin(table, selected, day, rows) && FoldOk(table, day, rows, scheds)
    requires Counts(table, selected, day, s) && DistinctRunning(table, s.uid, day)
    ensures s.uid in scheds && scheds[s.uid] == s
  {
    var m: SchedMvt, p: Sched :| m in selected && p.id == m.parent && Running(table, s.uid, day, p);
    var row := JoinRow(m, p, Some(s));
    assert IsJoinRow(table, selected, day, row);
    assert row in rows && Names(rows, s.uid);
    JoinLeavesUnsuperseded(table, selected, day, rows, scheds, s.uid);
    assert !Supersedes(scheds[s.uid], s) && !Supersedes(s, scheds[s.uid]);
    SameLetter(scheds[s.uid], s);
  }

  /** The schedules returned, under their ids: every one counts, and where indicators are
      distinct every one that counts is there. */
  ghost predicate SchedulesCount(table: seq<Sched>, selected: seq<SchedMvt>, day: Day, schedules: map<SchedId, Sched>) {
    && (forall id :: id in schedules ==> schedules[id].id == id && Counts(table, selected, day, schedules[id]))
    && (forall s :: Counts(table, selected, day, s) && DistinctRunning(table, s.uid, day) ==>
          s.id in schedules && schedules[s.id] == s)
  }

  /** The movements returned are selected ones with a join row, under their ids. */
  ghost predicate AreSelected(selected: seq<SchedMvt>, rows: seq<JoinRow>, mvts: map<MvtId, SchedMvt>) {
    && (forall id :: id in mvts ==> mvts[id] in selected && mvts[id].id == id)
    && (forall id :: id in mvts ==> exists r :: r in rows && r.mvt == mvts[id])
  }

  /** A movement is kept exactly when its parent is its uid's entry. */
  ghost predicate KeptByEntry(rows: seq<JoinRow>, mvts: map<MvtId, SchedMvt>) {
    forall r :: r in rows ==> (r.mvt.id in mvts <==> IsEntry(rows, r.sched.uid, r.sched))
  }

  /** Where indicators are distinct: exactly when its parent runs and is superseded by none. */
  ghost predicate KeptByRank(table: seq<Sched>, selected: seq<SchedMvt>, day: Day, mvts: map<MvtId, SchedMvt>) {
    forall m, s :: m in selected && s in table && s.id == m.parent && DistinctRunning(table, s.uid, day) ==>
      (m.id in mvts <==> RunsOn(s, day) && Unsuperseded(table, day, s))
  }

  lemma SchedulesAre(table: seq<Sched>, selected: seq<SchedMvt>, day: Day, rows: seq<JoinRow>, scheds: ByUid,
                     schedules: map<SchedId, Sched>)
    requires TableOk(table) && IsJoin(table, selected, day, rows) && FoldOk(table, day, rows, scheds)
    requires forall id :: id in schedules <==> exists uid :: uid in scheds && scheds[uid].id == id
    requires forall id :: id in schedules ==>
             exists uid :: uid in scheds && schedules[id] == scheds[uid] && scheds[uid].id == id
    ensures SchedulesCount(table, selected, day, schedules)
  {
    forall id | id in schedules ensures schedules[id].id == id && Counts(table, selected, day, schedules[id]) {
      var uid :| uid in scheds && schedules[id] == scheds[uid] && scheds[uid].id == id;
      FoldCounts(table, selected, day, rows, scheds, uid);
    }
    forall s | Counts(table, selected, day, s) && DistinctRunning(table, s.uid, day)
      ensures s.id in schedules && schedules[s.id] == s
    {
      CountsIsFolded(table, selected, day, rows, scheds, s);
      var uid :| uid in scheds && schedules[s.id] == scheds[uid] && scheds[uid].id == s.id;
      FoldCounts(table, selected, day, rows, scheds, uid);
      SameId(table, schedules[s.id], s);
    }
  }

  /** The movements of the rows so far, by id. */
  ghost predicate Gathered(rows: seq<JoinRow>, smvts: map<MvtId, SchedMvt>) {
    && (forall id :: id in smvts ==> smvts[id].id == id && exists r :: r in rows && r.mvt == smvts[id])
    && (forall r :: r in rows ==> r.mvt.id in smvts && smvts[r.mvt.id] == r.mvt)
  }

  lemma GatherStep(rows: seq<JoinRow>, row: JoinRow, smvts: map<MvtId, SchedMvt>)
    requires Gathered(rows, smvts) && forall r :: r in rows && r.mvt.id == row.mvt.id ==> r.mvt == row.mvt
    ensures Gathered(rows + [row], smvts[row.mvt.id := row.mvt])
  {
    var after := smvts[row.mvt.id := row.mvt];
    forall id | id in after ensures after[id].id == id && exists r :: r in rows + [row] && r.mvt == after[id] {
      if id == row.mvt.id {
        assert row in rows + [row];
      } else {
        var r :| r in rows && r.mvt == smvts[id];
        assert r in rows + [row];
      }
    }
  }

  /** The loop over the join rows. */
  method FoldJoin(table: seq<Sched>, selected: seq<SchedMvt>, day: Day, rows: seq<JoinRow>)
    returns (smvts: map<MvtId, SchedMvt>, scheds: ByUid)
    requires IsJoin(table, selected, day, rows)
    requires forall m, n :: m in selected && n in selected && m.id == n.id ==> m == n
    ensures FoldOk(table, day, rows, scheds) && EntriesOk(rows, scheds) && Gathered(rows, smvts)
  {
    smvts, scheds := map[], map[];
    for i := 0 to |rows|
      invariant FoldOk(table, day, rows[..i], scheds) && EntriesOk(rows[..i], scheds) && Gathered(rows[..i], smvts)
    {
      var row := rows[i];
      ghost var front := rows[..i];
      assert row in rows && rows[..i + 1] == front + [row] && forall r :: r in front ==> r in rows;
      SameMvt(table, selected, day, rows, row);
      GatherStep(front, row, smvts);
      smvts := smvts[row.mvt.id := row.mvt];
      var scheds' := ProcessScheduleJoin(scheds, row.sched, row.updating);
      FoldStep(table, selected, day, front, row, scheds, scheds');
      EntriesStep(front, row, scheds, scheds');
      scheds := scheds';
    }
    assert rows[..|rows|] == rows;
  }

  lemma SameMvt(table: seq<Sched>, selected: seq<SchedMvt>, day: Day, rows: seq<JoinRow>, row: JoinRow)
    requires IsJoin(table, selected, day, rows) && row in rows
    requires forall m, n :: m in selected && n in selected && m.id == n.id ==> m == n
    ensures forall r :: r in rows && r.mvt.id == row.mvt.id ==> r.mvt == row.mvt
  {
    assert IsJoinRow(table, selected, day, row);
    forall r | r in rows && r.mvt.id == row.mvt.id ensures r.mvt == row.mvt {
      assert IsJoinRow(table, selected, day, r);
    }
  }

  /** A movement's parent is among the schedules found exactly when it is its uid's entry. */
  lemma FoundIffEntry(table: seq<Sched>, selected: seq<SchedMvt>, day: Day, rows: seq<JoinRow>, scheds: ByUid,
                      r: JoinRow)
    requires TableOk(table) && IsJoin(table, selected, day, rows) && r in rows
    requires FoldOk(table, day, rows, scheds) && EntriesOk(rows, scheds)
    ensures Found(scheds, r.mvt.parent) <==> IsEntry(rows, r.sched.uid, r.sched)
  {
    assert IsJoinRow(table, selected, day, r) && Names(rows, r.sched.uid);
    if uid :| uid in scheds && scheds[uid].id == r.mvt.parent {
      SameId(table, scheds[uid], r.sched);
    }
    if IsEntry(rows, r.sched.uid, r.sched) {
      EntryUnique(rows, r.sched.uid, r.sched, scheds[r.sched.uid]);
    }
  }

  /** The movements whose parent is among the schedules found. */
  ghost predicate Retained(smvts: map<MvtId, SchedMvt>, scheds: ByUid, mvts: map<MvtId, SchedMvt>) {
    && (forall id :: id in mvts <==> id in smvts && Found(scheds, smvts[id].parent))
    && (forall id :: id in mvts ==> mvts[id] == smvts[id])
  }

  lemma KeptIffEntry(table: seq<Sched>, selected: seq<SchedMvt>, day: Day, rows: seq<JoinRow>,
                     scheds: ByUid, smvts: map<MvtId, SchedMvt>, mvts: map<MvtId, SchedMvt>, r: JoinRow)
    requires TableOk(table) && IsJoin(table, selected, day, rows) && r in rows
    requires FoldOk(table, day, rows, scheds) && EntriesOk(rows, scheds)
    requires Gathered(rows, smvts) && Retained(smvts, scheds, mvts)
    ensures r.mvt.id in mvts <==> IsEntry(rows, r.sched.uid, r.sched)
  {
    FoundIffEntry(table, selected, day, rows, scheds, r);
  }

  lemma KeptIffCounts(table: seq<Sched>, selected: seq<SchedMvt>, day: Day, rows: seq<JoinRow>,
                      scheds: ByUid, smvts: map<MvtId, SchedMvt>, mvts: map<MvtId, SchedMvt>, m: SchedMvt, s: Sched)
    requires TableOk(table) && IsJoin(table, selected, day, rows)
    requires FoldOk(table, day, rows, scheds) && Gathered(rows, smvts) && Retained(smvts, scheds, mvts)
    requires forall m, n :: m in selected && n in selected && m.id == n.id ==> m == n
    requires m in selected && s in table && s.id == m.parent && DistinctRunning(table, s.uid, day)
    ensures m.id in mvts <==> RunsOn(s, day) && Unsuperseded(table, day, s)
  {
    KeptIff(table, selected, day, rows, scheds, m, s);
    GatheredIs(table, selected, day, rows, smvts, m, s);
    RetainedIff(smvts, scheds, mvts, m, RunsOn(s, day) && Unsuperseded(table, day, s));
  }

  lemma RetainedIff(smvts: map<MvtId, SchedMvt>, scheds: ByUid, mvts: map<MvtId, SchedMvt>, m: SchedMvt, ok: bool)
    requires Retained(smvts, scheds, mvts) && (Found(scheds, m.parent) <==> ok)
    requires (m.id in smvts ==> smvts[m.id] == m) && (ok ==> m.id in smvts)
    ensures m.id in mvts <==> ok
  {
  }

  lemma GatheredIs(table: seq<Sched>, selected: seq<SchedMvt>, day: Day, rows: seq<JoinRow>,
                   smvts: map<MvtId, SchedMvt>, m: SchedMvt, s: Sched)
    requires IsJoin(table, selected, day, rows) && Gathered(rows, smvts)
    requires forall m, n :: m in selected && n in selected && m.id == n.id ==> m == n
    requires m in selected && s in table && s.id == m.parent
    ensures m.id in smvts ==> smvts[m.id] == m
    ensures RunsOn(s, day) ==> m.id in smvts
  {
    if m.id in smvts {
      var r :| r in rows && r.mvt == smvts[m.id];
      assert IsJoinRow(table, selected, day, r);
    }
    if RunsOn(s, day) {
      assert IsJoinRow(table, selected, day, JoinRow(m, s, Some(s)));
      assert JoinRow(m, s, Some(s)) in rows;
    }
  }

  method ConvertSchedules(ghost table: seq<Sched>, ghost selected: seq<SchedMvt>, ghost day: Day,
                          ghost rows: seq<JoinRow>,
                          scheds: ByUid)
    returns (schedules: map<SchedId, Sched>)
    requires TableOk(table) && IsJoin(table, selected, day, rows) && FoldOk(table, day, rows, scheds)
    ensures forall id :: id in schedules <==> Found(scheds, id)
    ensures SchedulesCount(table, selected, day, schedules)
  {
    schedules := UidSchedsToIdScheds(scheds);
    SchedulesAre(table, selected, day, rows, scheds, schedules);
  }

  /** `smvts.retain`. */
  method RetainMovements(ghost table: seq<Sched>, ghost selected: seq<SchedMvt>, ghost day: Day,
                         ghost rows: seq<JoinRow>,
                         ghost scheds: ByUid, smvts: map<MvtId, SchedMvt>, schedules: map<SchedId, Sched>)
    returns (mvts: map<MvtId, SchedMvt>)
    requires TableOk(table) && IsJoin(table, selected, day, rows)
    requires forall m, n :: m in selected && n in selected && m.id == n.id ==> m == n
    requires FoldOk(table, day, rows, scheds) && EntriesOk(rows, scheds) && Gathered(rows, smvts)
    requires forall id :: id in schedules <==> Found(scheds, id)
    ensures AreSelected(selected, rows, mvts)
    ensures KeptByEntry(rows, mvts) && KeptByRank(table, selected, day, mvts)
  {
    mvts := map id | id in smvts && smvts[id].parent in schedules :: smvts[id];
    RetainedBy(smvts, scheds, schedules, mvts);
    RetainedSelected(table, selected, day, rows, scheds, smvts, mvts);
    RetainedAre(table, selected, day, rows, scheds, smvts, mvts);
  }

  /** `get_mvts_passing_through`: a selected movement survives exactly when its parent is the
      entry of its uid, the first least of the schedules its join rows bring; where those carry
      distinct indicators, when it runs on the day and none of them supersedes it. */
  method MvtsPassingThrough(table: seq<Sched>, selected: seq<SchedMvt>, day: Day, rows: seq<JoinRow>)
    returns (mvts: map<MvtId, SchedMvt>, schedules: map<SchedId, Sched>)
    requires TableOk(table) && IsJoin(table, selected, day, rows)
    requires forall m, n :: m in selected && n in selected && m.id == n.id ==> m == n
    ensures AreSelected(selected, rows, mvts)
    ensures KeptByEntry(rows, mvts)
    ensures KeptByRank(table, selected, day, mvts)
    ensures SchedulesCount(table, selected, day, schedules)
  {
    var smvts, scheds := FoldJoin(table, selected, day, rows);
    schedules := ConvertSchedules(table, selected, day, rows, scheds);
    mvts := RetainMovements(table, selected, day, rows, scheds, smvts, schedules);
  }

  lemma RetainedBy(smvts: map<MvtId, SchedMvt>, scheds: ByUid, schedules: map<SchedId, Sched>, mvts: map<MvtId,
                   SchedMvt>)
    requires forall id :: id in schedules <==> Found(scheds, id)
    requires forall id :: id in mvts <==> id in smvts && smvts[id].parent in schedules
    requires forall id :: id in mvts ==> mvts[id] == smvts[id]
    ensures Retained(smvts, scheds, mvts)
  {
  }

  lemma RetainedSelected(table: seq<Sched>, selected: seq<SchedMvt>, day: Day, rows: seq<JoinRow>,
                         scheds: ByUid, smvts: map<MvtId, SchedMvt>, mvts: map<MvtId, SchedMvt>)
    requires IsJoin(table, selected, day, rows) && Gathered(rows, smvts) && Retained(smvts, scheds, mvts)
    ensures AreSelected(selected, rows, mvts)
  {
    forall id | id in mvts ensures mvts[id] in selected {
      var r :| r in rows && r.mvt == mvts[id];
      assert IsJoinRow(table, selected, day, r);
    }
  }

  lemma RetainedAre(table: seq<Sched>, selected: seq<SchedMvt>, day: Day, rows: seq<JoinRow>,
                    scheds: ByUid, smvts: map<MvtId, SchedMvt>, mvts: map<MvtId, SchedMvt>)
    requires TableOk(table) && IsJoin(table, selected, day, rows)
    requires FoldOk(table, day, rows, scheds) && EntriesOk(rows, scheds)
    requires Gathered(rows, smvts) && Retained(smvts, scheds, mvts)
    requires forall m, n :: m in selected && n in selected && m.id == n.id ==> m == n
    ensures KeptByEntry(rows, mvts) && KeptByRank(table, selected, day, mvts)
  {
    forall r | r in rows ensures r.mvt.id in mvts <==> IsEntry(rows, r.sched.uid, r.sched) {
      KeptIffEntry(table, selected, day, rows, scheds, smvts, mvts, r);
    }
    forall m, s | m in selected && s in table && s.id == m.parent && DistinctRunning(table, s.uid, day)
      ensures m.id in mvts <==> RunsOn(s, day) && Unsuperseded(table, day, s)
    {
      KeptIffCounts(table, selected, day, rows, scheds, smvts, mvts, m, s);
    }
  }

  // ---- indicators repeated by schedules of different sources ----

  /** The schedule stands at position k, the first place where its indicator occurs. */
  predicate FirstOfItsKind(seen: seq<Sched>, k: int, s: Sched) {
    0 <= k < |seen| && seen[k] == s && forall i :: 0 <= i < k ==> seen[i].stp != s.stp
  }

  /** An unsuperseded schedule is its uid's entry exactly when it comes before every other of
      its indicator among those considered. */
  lemma EntryIffFirst(table: seq<Sched>, selected: seq<SchedMvt>, day: Day, rows: seq<JoinRow>, s: Sched)
    requires IsJoin(table, selected, day, rows) && Unsuperseded(table, day, s)
    ensures IsEntry(rows, s.uid, s) <==> exists k :: FirstOfItsKind(Considered(rows, s.uid), k, s)
  {
    ConsideredRun(table, selected, day, rows, s.uid);
    if IsEntry(rows, s.uid, s) {
      var k :| FirstLeast(Considered(rows, s.uid), k) && s == Considered(rows, s.uid)[k];
      assert FirstOfItsKind(Considered(rows, s.uid), k, s);
    }
    if exists k :: FirstOfItsKind(Considered(rows, s.uid), k, s) {
      var k :| FirstOfItsKind(Considered(rows, s.uid), k, s);
      FirstIsLeast(table, day, Considered(rows, s.uid), k, s);
    }
  }

  lemma FirstIsLeast(table: seq<Sched>, day: Day, seen: seq<Sched>, k: int, s: Sched)
    requires forall t :: t in seen ==> Running(table, s.uid, day, t)
    requires Unsuperseded(table, day, s) && FirstOfItsKind(seen, k, s)
    ensures FirstLeast(seen, k)
  {
    forall i | 0 <= i < |seen| ensures !Supersedes(seen[i], s) && (i < k ==> Supersedes(s, seen[i])) {
      assert Running(table, s.uid, day, seen[i]);
      if !Supersedes(s, seen[i]) {
        SameLetter(s, seen[i]);
      }
    }
  }

  lemma {:induction false} ConsideredRun(table: seq<Sched>, selected: seq<SchedMvt>, day: Day, rows: seq<JoinRow>,
                                         uid: string)
    requires forall r :: r in rows ==> IsJoinRow(table, selected, day, r)
    ensures forall t :: t in Considered(rows, uid) ==> Running(table, uid, day, t)
    decreases |rows|
  {
    if rows != [] {
      ConsideredRun(table, selected, day, rows[..|rows| - 1], uid);
      assert rows[|rows| - 1] in rows;
    }
  }

  // ---- agreement with the scan ----

  lemma RunningRowsAre(table: seq<Sched>, uid: string, day: Day, source: int, s: Sched)
    ensures s in RunningRows(table, uid, day, source) <==> Running(table, uid, day, s) && s.source == source
  {
  }

  /** No two schedules of the source that run carry the same indicator. */
  ghost predicate DistinctInSource(table: seq<Sched>, uid: string, day: Day, source: int) {
    forall s, t :: Running(table, uid, day, s) && Running(table, uid, day, t)
                   && s.source == t.source == source && s.stp == t.stp ==>
      s == t
  }

  lemma RunningRowsDistinct(table: seq<Sched>, uid: string, day: Day, source: int)
    requires TableOk(table) && DistinctInSource(table, uid, day, source)
    ensures DistinctStps(RunningRows(table, uid, day, source))
  {
    var dated := Filter(Dated(uid, day, source), table);
    var rows := RunningRows(table, uid, day, source);
    var outer := FilterOrder(Dated(uid, day, source), table);
    var inner := FilterOrder(OnWeekday(day), dated);
    forall i, j | 0 <= i < j < |rows| ensures rows[i].stp != rows[j].stp {
      assert rows[i] == table[outer[inner[i]]] && rows[j] == table[outer[inner[j]]];
      assert outer[inner[i]] < outer[inner[j]];
      assert rows[i] in rows && rows[j] in rows;
      RunningRowsAre(table, uid, day, source, rows[i]);
      RunningRowsAre(table, uid, day, source, rows[j]);
    }
  }

  ghost predicate NoOtherSourceSupersedes(table: seq<Sched>, day: Day, s: Sched) {
    forall t :: Running(table, s.uid, day, t) && t.source != s.source ==> !Supersedes(t, s)
  }

  /** With indicators distinct within its source, a schedule runs superseded by none exactly
      when the scan of its source chooses it and no schedule of another source supersedes it. */
  lemma JoinAgreesWithScan(table: seq<Sched>, day: Day, s: Sched)
    requires TableOk(table) && s in table && DistinctInSource(table, s.uid, day, s.source)
    ensures RunsOn(s, day) && Unsuperseded(table, day, s) <==>
            Scan(RunningRows(table, s.uid, day, s.source)) == Chosen(Some(s)) && NoOtherSourceSupersedes(table, day, s)
  {
    var rows := RunningRows(table, s.uid, day, s.source);
    RunningRowsDistinct(table, s.uid, day, s.source);
    DistinctScan(rows, s);
    RunningRowsAre(table, s.uid, day, s.source, s);
    if RunsOn(s, day) && Unsuperseded(table, day, s) {
      forall t | t in rows && t != s ensures Supersedes(s, t) {
        RunningRowsAre(table, s.uid, day, s.source, t);
        if !Supersedes(s, t) {
          SameLetter(s, t);
          assert false;
        }
      }
    }
    if Least(rows, s) && NoOtherSourceSupersedes(table, day, s) {
      forall t | Running(table, s.uid, day, t) ensures !Supersedes(t, s) {
        RunningRowsAre(table, s.uid, day, s.source, t);
        assert t.source == s.source ==> t in rows;
      }
    }
  }

  /** The scan looks at one source, the join at all: a cancellation from another source
      hides a schedule that the scan of its own source still chooses. */
  lemma JoinMixesSources(day: Day, s: Sched, other: Sched)
    requires s.id != other.id && s.uid == other.uid && s.source != other.source
    requires RunsOn(s, day) && RunsOn(other, day) && s.stp == Permanent && other.stp == Cancellation
    ensures Scan(RunningRows([s, other], s.uid, day, s.source)) == Chosen(Some(s))
    ensures !Unsuperseded([s, other], day, s)
  {
    var table := [s, other];
    assert Running(table, s.uid, day, other) && Supersedes(other, s);
    assert table == [s] + [other];
    FilterAppend(Dated(s.uid, day, s.source), [s], [other]);
    FilterAll(Dated(s.uid, day, s.source), [s]);
    FilterNone(Dated(s.uid, day, s.source), [other]);
    FilterAll(OnWeekday(day), [s]);
    assert [s][..0] == [];
  }
}
