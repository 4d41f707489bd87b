/** The older import's Create (osms-db-setup): when the schedule exists its movements are
    patched row by row, and replaced as a whole only when one does not match. */
module LegacyCreate {
  import opened Options
  import opened Seqs

  datatype RowId = RowId(number: int)
  datatype SchedId = SchedId(number: int)

  /** What a record says about one movement. */
  datatype Content = Content(tiploc: string, time: int, action: int, platform: Option<string>, publicTime: Option<int>)

  datatype Row = Row(id: RowId, parent: SchedId, content: Content, idx: Option<int>,
                     startsPath: Option<int>, endsPath: Option<int>)

  predicate Matches(row: Row, c: Content) {
    row.content.tiploc == c.tiploc && row.content.time == c.time && row.content.action == c.action
  }

  // ---- reading in order ----

  /** `ORDER BY (idx, time, action)`; an absent index sorts last. */
  predicate InOrder(a: Row, b: Row) {
    match (a.idx, b.idx)
    case (Some(i), Some(j)) => i < j || (i == j && TimeOrder(a, b))
    case (Some(_), None) => true
    case (None, Some(_)) => false
    case (None, None) => TimeOrder(a, b)
  }

  predicate TimeOrder(a: Row, b: Row) {
    a.content.time < b.content.time || (a.content.time == b.content.time && a.content.action <= b.content.action)
  }

  /** Two rows without a position come in order of time, and at one time in order of action. */
  lemma UnpositionedInTime(list: seq<Row>, i: nat, j: nat)
    requires i < j < |list| && forall a, b :: 0 <= a < b < |list| ==> InOrder(list[a], list[b])
    requires list[i].idx == None && list[j].idx == None
    ensures list[i].content.time <= list[j].content.time
    ensures list[i].content.time == list[j].content.time ==> list[i].content.action <= list[j].content.action
  {
    assert InOrder(list[i], list[j]);
  }

  ghost predicate UniqueIds(rows: seq<Row>) {
    forall i, j :: 0 <= i < j < |rows| ==> rows[i].id != rows[j].id
  }

  /** `list` is an answer the database may give to the ordered query for a schedule. */
  ghost predicate Reads(rows: seq<Row>, sid: SchedId, list: seq<Row>) {
    && (forall r :: r in list <==> r in rows && r.parent == sid)
    && UniqueIds(list)
    && (forall i, j :: 0 <= i < j < |list| ==> InOrder(list[i], list[j]))
  }

  /** Rows that carry their own positions. */
  ghost predicate Numbered(list: seq<Row>) {
    forall i :: 0 <= i < |list| ==> list[i].idx == Some(i)
  }

  lemma {:induction false} CountDistinct(list: seq<Row>)
    requires UniqueIds(list)
    ensures |set r | r in list| == |list|
    decreases |list|
  {
    if list != [] {
      var front, last := list[..|list| - 1], list[|list| - 1];
      CountDistinct(front);
      assert list == front + [last];
      assert (set r | r in list) == (set r | r in front) + {last};
      assert last !in front;
    }
  }

  /** The position a row of the answer carries. */
  function Position(row: Row): int {
    if row.idx.Some? then row.idx.value else 0
  }

  ghost predicate Climbs(list: seq<Row>, p: seq<Row>) {
    && (forall j :: 0 <= j < |list| ==> 0 <= Position(list[j]) < |p| && list[j] == p[Position(list[j])])
    && (forall i, j :: 0 <= i < j < |list| ==> Position(list[i]) < Position(list[j]))
  }

  lemma ReadClimbs(rows: seq<Row>, sid: SchedId, p: seq<Row>, list: seq<Row>)
    requires Numbered(p) && Reads(rows, sid, list)
    requires forall r :: r in p <==> r in rows && r.parent == sid
    ensures Climbs(list, p)
  {
    forall j | 0 <= j < |list| ensures 0 <= Position(list[j]) < |p| && list[j] == p[Position(list[j])] {
      assert list[j] in p;
    }
    forall i, j | 0 <= i < j < |list| ensures Position(list[i]) < Position(list[j]) {
      assert InOrder(list[i], list[j]) && list[i].id != list[j].id;
    }
  }

  lemma {:induction false} ClimbsAtLeast(list: seq<Row>, p: seq<Row>, j: nat)
    requires Climbs(list, p) && j < |list|
    ensures j <= Position(list[j])
    decreases j
  {
    if j > 0 {
      ClimbsAtLeast(list, p, j - 1);
    }
  }

  lemma {:induction false} ClimbsAtMost(list: seq<Row>, p: seq<Row>, j: nat)
    requires Climbs(list, p) && j < |list|
    ensures Position(list[j]) <= |p| - (|list| - j)
    decreases |list| - j
  {
    if j < |list| - 1 {
      ClimbsAtMost(list, p, j + 1);
    }
  }

  /** Numbered rows are read back in their positions, whatever order they are stored in. */
  lemma NumberedReadsBack(rows: seq<Row>, sid: SchedId, p: seq<Row>, list: seq<Row>)
    requires Numbered(p) && UniqueIds(p) && Reads(rows, sid, list)
    requires forall r :: r in p <==> r in rows && r.parent == sid
    ensures list == p
  {
    CountDistinct(list);
    CountDistinct(p);
    assert (set r | r in list) == (set r | r in p);
    ReadClimbs(rows, sid, p, list);
    forall j | 0 <= j < |list| ensures list[j] == p[j] {
      ClimbsAtLeast(list, p, j);
      ClimbsAtMost(list, p, j);
    }
  }

  // ---- patching ----

  /** The row after the three possible column updates at position i. */
  function PatchRow(row: Row, c: Content, i: int): Row {
    row.(content := row.content.(platform := c.platform, publicTime := c.publicTime),
         idx := if row.idx == None then Some(i) else row.idx)
  }

  /** `UPDATE … WHERE id = row.id`. */
  function UpdateById(rows: seq<Row>, row: Row): (r: seq<Row>)
    ensures |r| == |rows| && forall i :: 0 <= i < |rows| ==> r[i] == if rows[i].id == row.id then row else rows[i]
  {
    seq(|rows|, i requires 0 <= i < |rows| => if rows[i].id == row.id then row else rows[i])
  }

  function PatchList(list: seq<Row>, wanted: seq<Content>): (r: seq<Row>)
    requires |list| == |wanted|
    ensures |r| == |list| && forall i :: 0 <= i < |list| ==> r[i] == PatchRow(list[i], wanted[i], i)
  {
    seq(|list|, i requires 0 <= i < |list| => PatchRow(list[i], wanted[i], i))
  }

  /** The table once the first n movements of `list` have been patched. */
  ghost predicate PatchedUpTo(before: seq<Row>, after: seq<Row>, list: seq<Row>, wanted: seq<Content>, n: nat)
    requires n <= |list| == |wanted|
  {
    && |after| == |before|
    && (forall i :: 0 <= i < |before| ==> after[i].id == before[i].id && after[i].parent == before[i].parent)
    && (forall i, k :: 0 <= i < |before| && 0 <= k < n && before[i] == list[k] ==>
        after[i] == PatchRow(list[k], wanted[k], k))
    && (forall i :: 0 <= i < |before| && before[i] !in list[..n] ==> after[i] == before[i])
  }

  lemma PatchNext(before: seq<Row>, after: seq<Row>, sid: SchedId, list: seq<Row>, wanted: seq<Content>, n: nat)
    requires n < |list| == |wanted| && UniqueIds(before) && Reads(before, sid, list)
    requires PatchedUpTo(before, after, list, wanted, n)
    ensures PatchedUpTo(before, UpdateById(after, PatchRow(list[n], wanted[n], n)), list, wanted, n + 1)
  {
    var row := PatchRow(list[n], wanted[n], n);
    var after' := UpdateById(after, row);
    assert list[..n + 1] == list[..n] + [list[n]];
    forall i, k | 0 <= i < |before| && 0 <= k < n + 1 && before[i] == list[k]
        ensures after'[i] == PatchRow(list[k], wanted[k], k) {
      if k < n {
        assert list[k].id != list[n].id;
      }
    }
    forall i | 0 <= i < |before| && before[i] !in list[..n + 1] ensures after'[i] == before[i] {
      assert list[n] in list[..n + 1];
      assert list[n] in before;
      var at :| 0 <= at < |before| && before[at] == list[n];
      assert at != i;
    }
  }

  /** Once all are patched, the schedule's rows are the patched list. */
  lemma PatchedRows(before: seq<Row>, after: seq<Row>, sid: SchedId, list: seq<Row>, wanted: seq<Content>)
    requires |list| == |wanted| && UniqueIds(before) && Reads(before, sid, list)
    requires PatchedUpTo(before, after, list, wanted, |list|)
    ensures UniqueIds(after)
    ensures forall r :: r in PatchList(list, wanted) <==> r in after && r.parent == sid
    ensures forall r: Row :: r.parent != sid ==> (r in after <==> r in before)
  {
    assert list[..|list|] == list;
    forall i, j | 0 <= i < j < |after| ensures after[i].id != after[j].id {
      assert before[i].id != before[j].id;
    }
    forall r | r in PatchList(list, wanted) ensures r in after && r.parent == sid {
      var k :| 0 <= k < |list| && PatchList(list, wanted)[k] == r;
      assert list[k] in list && list[k] in before;
      var i :| 0 <= i < |before| && before[i] == list[k];
      assert after[i] == r;
    }
    forall r | r in after && r.parent == sid ensures r in PatchList(list, wanted) {
      var i :| 0 <= i < |after| && after[i] == r;
      assert before[i] in list;
      var k :| 0 <= k < |list| && list[k] == before[i];
      assert PatchList(list, wanted)[k] == r;
    }
    forall r: Row | r.parent != sid ensures r in after <==> r in before {
      if r in after {
        var i :| 0 <= i < |after| && after[i] == r;
        assert before[i] !in list;
      }
      if r in before {
        var i :| 0 <= i < |before| && before[i] == r;
        assert before[i] !in list;
        assert after[i] == r;
      }
    }
  }

  // ---- replacing ----

  function NewRows(sid: SchedId, first: int, wanted: seq<Content>): (r: seq<Row>)
    ensures |r| == |wanted|
    ensures forall i :: 0 <= i < |wanted| ==> r[i] == Row(RowId(first + i), sid, wanted[i], Some(i), None, None)
  {
    seq(|wanted|, i requires 0 <= i < |wanted| => Row(RowId(first + i), sid, wanted[i], Some(i), None, None))
  }

  function NotOf(sid: SchedId): Row -> bool { (r: Row) => r.parent != sid }

  function Contents(list: seq<Row>): seq<Content> {
    seq(|list|, i requires 0 <= i < |list| => list[i].content)
  }

  /** Stored positions are absent or right. */
  ghost predicate PositionsOk(list: seq<Row>) {
    forall i :: 0 <= i < |list| ==> list[i].idx == None || list[i].idx == Some(i)
  }

  predicate AllMatch(list: seq<Row>, wanted: seq<Content>) {
    |list| == |wanted| && forall i :: 0 <= i < |list| ==> Matches(list[i], wanted[i])
  }

  /** The schedule's rows are exactly those listed; everyone else's are as before. */
  ghost predicate Leaves(before: seq<Row>, after: seq<Row>, sid: SchedId, list: seq<Row>) {
    && (forall r :: r in list <==> r in after && r.parent == sid)
    && (forall r: Row :: r.parent != sid ==> (r in after <==> r in before))
  }

  /** UNIQUE(parent_sched, idx); absent positions do not clash. */
  ghost predicate PositionsUnique(rows: seq<Row>) {
    forall r, q :: r in rows && q in rows && r.id != q.id && r.parent == q.parent && r.idx.Some? ==> r.idx != q.idx
  }

  ghost predicate TableOk(rows: seq<Row>, nextId: int) {
    UniqueIds(rows) && PositionsUnique(rows) && forall r :: r in rows ==> r.id.number < nextId
  }

  /** Another row of the schedule holds the position. */
  predicate Taken(rows: seq<Row>, mvt: Row, i: int) {
    exists r :: r in rows && r.id != mvt.id && r.parent == mvt.parent && r.idx == Some(i)
  }

  /** Movement i has no position, and another is stored with the one it would be given. */
  predicate Held(orig: seq<Row>, i: nat)
    requires i < |orig|
  {
    orig[i].idx == None && exists j :: 0 <= j < |orig| && orig[j].idx == Some(i)
  }

  /** The unique index refuses to give movement i its position, every movement up to it
      matching. */
  predicate RefusedAt(orig: seq<Row>, wanted: seq<Content>, i: nat)
    requires i < |orig| == |wanted|
  {
    (forall k :: 0 <= k <= i ==> Matches(orig[k], wanted[k])) && Held(orig, i)
  }

  predicate Refusable(orig: seq<Row>, wanted: seq<Content>) {
    |orig| == |wanted| && exists i :: 0 <= i < |orig| && RefusedAt(orig, wanted, i)
  }

  /** Movements match when they agree in place, time and action; platform and public time, the
      position and the paths do not count. */
  lemma AllMatchIff(list: seq<Row>, wanted: seq<Content>)
    ensures AllMatch(list, wanted) <==>
            && |list| == |wanted|
            && forall i :: 0 <= i < |list| ==>
                 && list[i].content.tiploc == wanted[i].tiploc && list[i].content.time == wanted[i].time
                 && list[i].content.action == wanted[i].action
  {
  }

  /** So a record that only changes platforms and public times is patched in place. */
  lemma PlatformsArePatched(list: seq<Row>, wanted: seq<Content>)
    requires PositionsOk(list) && |list| == |wanted|
    requires forall i :: 0 <= i < |list| ==>
               wanted[i] == list[i].content.(platform := wanted[i].platform, publicTime := wanted[i].publicTime)
    ensures AllMatch(list, wanted) && !Refusable(list, wanted) && Contents(PatchList(list, wanted)) == wanted
  {
    RightNeverRefused(list, wanted);
    assert AllMatch(list, wanted);
    PatchListContents(list, wanted);
  }

  /** Movements 0..n matched, were free to take their positions, and are patched. */
  ghost predicate Passed(before: seq<Row>, after: seq<Row>, orig: seq<Row>, wanted: seq<Content>, n: nat)
    requires n <= |orig| == |wanted|
  {
    PatchedUpTo(before, after, orig, wanted, n)
    && forall k :: 0 <= k < n ==> Matches(orig[k], wanted[k]) && !Held(orig, k)
  }

  lemma MismatchFirst(before: seq<Row>, after: seq<Row>, sid: SchedId, orig: seq<Row>, wanted: seq<Content>, i: nat)
    requires i < |orig| == |wanted| && !Matches(orig[i], wanted[i])
    requires Reads(before, sid, orig) && Passed(before, after, orig, wanted, i)
    ensures !Refusable(orig, wanted) && !AllMatch(orig, wanted)
    ensures forall r: Row :: r.parent != sid ==> (r in after <==> r in before)
  {
    OthersUntouched(before, after, sid, orig, wanted, i);
    forall k | 0 <= k < |orig| ensures !RefusedAt(orig, wanted, k) {
      assert k >= i ==> !Matches(orig[i], wanted[i]);
    }
  }

  lemma AllPassed(before: seq<Row>, after: seq<Row>, sid: SchedId, orig: seq<Row>, wanted: seq<Content>)
    requires |orig| == |wanted| && UniqueIds(before) && Reads(before, sid, orig)
    requires Passed(before, after, orig, wanted, |orig|)
    ensures AllMatch(orig, wanted) && !Refusable(orig, wanted)
    ensures Leaves(before, after, sid, PatchList(orig, wanted))
  {
    PatchedRows(before, after, sid, orig, wanted);
  }

  lemma UpdateKeepsTable(rows: seq<Row>, nextId: int, mvt: Row, row: Row)
    requires TableOk(rows, nextId) && mvt in rows && row.id == mvt.id && row.parent == mvt.parent
    requires row.idx == mvt.idx || (row.idx.Some? && !Taken(rows, mvt, row.idx.value))
    ensures TableOk(UpdateById(rows, row), nextId)
  {
    var after := UpdateById(rows, row);
    forall i, j | 0 <= i < j < |after| ensures after[i].id != after[j].id {
      assert rows[i].id != rows[j].id;
    }
    forall r | r in after ensures r.id.number < nextId && (r == row || r in rows) {
      var i :| 0 <= i < |after| && after[i] == r;
      assert rows[i] in rows;
    }
  }

  lemma PositionedFirst(list: seq<Row>, i: nat, j: nat)
    requires forall a, b :: 0 <= a < b < |list| ==> InOrder(list[a], list[b])
    requires i < |list| && j < |list| && list[i].idx.None? && list[j].idx.Some?
    ensures j < i
  {
  }

  /** What became of movement k's row. */
  lemma PatchedRow(before: seq<Row>, after: seq<Row>, sid: SchedId, list: seq<Row>, wanted: seq<Content>, n: nat,
                   k: nat)
    returns (i: nat)
    requires n <= |list| == |wanted| && k < |list| && Reads(before, sid, list)
    requires PatchedUpTo(before, after, list, wanted, n)
    ensures i < |after| == |before| && before[i] == list[k] && after[i].id == list[k].id
    ensures after[i] == if k < n then PatchRow(list[k], wanted[k], k) else list[k]
  {
    assert list[k] in list && list[k] in before;
    i :| 0 <= i < |before| && before[i] == list[k];
    if n <= k {
      NotAmongFirst(list, n, k);
    }
  }

  /** With movements 0..n patched, position n is taken exactly when it was at the start. */
  lemma TakenIff(before: seq<Row>, after: seq<Row>, sid: SchedId, list: seq<Row>, wanted: seq<Content>, n: nat)
    requires n < |list| == |wanted| && UniqueIds(before) && Reads(before, sid, list)
    requires PatchedUpTo(before, after, list, wanted, n) && list[n].idx == None
    ensures Taken(after, list[n], n) <==> exists j :: 0 <= j < |list| && list[j].idx == Some(n)
  {
    assert list[n] in list;
    if Taken(after, list[n], n) {
      var r :| r in after && r.id != list[n].id && r.parent == list[n].parent && r.idx == Some(n);
      TakerListed(before, after, sid, list, wanted, n, r);
    }
    if j :| 0 <= j < |list| && list[j].idx == Some(n) {
      PositionedFirst(list, n, j);
      var i := PatchedRow(before, after, sid, list, wanted, n, j);
      assert list[j] in list && after[i] in after && list[j].id != list[n].id;
    }
  }

  lemma TakerListed(before: seq<Row>, after: seq<Row>, sid: SchedId, list: seq<Row>, wanted: seq<Content>, n: nat,
                    r: Row)
    requires n < |list| == |wanted| && Reads(before, sid, list) && PatchedUpTo(before, after, list, wanted, n)
    requires r in after && r.parent == sid && r.idx == Some(n)
    ensures exists j :: 0 <= j < |list| && list[j].idx == Some(n)
  {
    var i :| 0 <= i < |after| && after[i] == r;
    assert before[i] in before && before[i].parent == sid;
    var k :| 0 <= k < |list| && list[k] == before[i];
    if k < n {
      assert r == PatchRow(list[k], wanted[k], k);
    } else {
      NotAmongFirst(list, n, k);
      assert r == list[k];
    }
  }

  lemma NotAmongFirst(list: seq<Row>, n: nat, k: nat)
    requires UniqueIds(list) && n <= k < |list|
    ensures list[k] !in list[..n]
  {
    assert forall j :: 0 <= j < n ==> list[j].id != list[k].id;
  }

  lemma DeleteLeaves(before: seq<Row>, now: seq<Row>, nextId: int, sid: SchedId)
    requires TableOk(now, nextId)
    requires forall r: Row :: r.parent != sid ==> (r in now <==> r in before)
    ensures TableOk(Filter(NotOf(sid), now), nextId)
    ensures Leaves(before, Filter(NotOf(sid), now), sid, [])
  {
    var index := FilterOrder(NotOf(sid), now);
  }

  lemma InsertLeaves(before: seq<Row>, rest: seq<Row>, nextId: int, sid: SchedId, wanted: seq<Content>)
    requires TableOk(rest, nextId) && Leaves(before, rest, sid, [])
    ensures TableOk(rest + NewRows(sid, nextId, wanted), nextId + |wanted|)
    ensures Leaves(before, rest + NewRows(sid, nextId, wanted), sid, NewRows(sid, nextId, wanted))
  {
    var new_ := NewRows(sid, nextId, wanted);
    var rows := rest + new_;
    forall i, j | 0 <= i < j < |rows| ensures rows[i].id != rows[j].id {
      if i < |rest| {
        assert rest[i] in rest;
      }
    }
    forall r | r in rows && r.parent == sid ensures r in new_ {
      assert r !in rest by {
        assert r !in [];
      }
    }
    forall r, q | r in rows && q in rows && r.id != q.id && r.parent == q.parent && r.idx.Some?
      ensures r.idx != q.idx
    {
      if r.parent == sid {
        assert r in new_ && q in new_;
      } else {
        assert r in rest && q in rest;
      }
    }
  }

  datatype PatchOutcome = Patched | Mismatch | Refused

  /** The movements of all schedules, with the counter behind their serial ids. */
  class MovementTable {
    var rows: seq<Row>
    var nextId: int

    constructor ()
      ensures rows == [] && TableOk(rows, nextId)
    {
      rows, nextId := [], 1;
    }

    /** The column updates of one matching movement; the last is refused when the position
        is taken. */
    method PatchMovement(mvt: Row, c: Content, i: nat) returns (refused: bool)
      requires TableOk(rows, nextId) && mvt in rows
      modifies this`rows
      ensures TableOk(rows, nextId)
      ensures refused <==> mvt.idx == None && Taken(old(rows), mvt, i)
      ensures !refused ==> rows == UpdateById(old(rows), PatchRow(mvt, c, i))
      ensures refused ==> rows == UpdateById(old(rows), PatchRow(mvt, c, i).(idx := None))
    {
      var row := mvt;
      if row.content.platform != c.platform {
        row := row.(content := row.content.(platform := c.platform));
      }
      if row.content.publicTime != c.publicTime {
        row := row.(content := row.content.(publicTime := c.publicTime));
      }
      refused := row.idx.None? && Taken(rows, mvt, i);
      if row.idx.None? && !refused {
        row := row.(idx := Some(i));
      }
      UpdateKeepsTable(rows, nextId, mvt, row);
      rows := UpdateById(rows, row);
    }

    /** One movement of the comparison loop. */
    method CompareMovement(sid: SchedId, orig: seq<Row>, wanted: seq<Content>, i: nat, ghost before: seq<Row>)
      returns (r: PatchOutcome)
      requires i < |orig| == |wanted| && UniqueIds(before) && Reads(before, sid, orig)
      requires TableOk(rows, nextId) && Passed(before, rows, orig, wanted, i)
      modifies this`rows
      ensures TableOk(rows, nextId)
      ensures r.Mismatch? <==> !Matches(orig[i], wanted[i])
      ensures r.Refused? <==> Matches(orig[i], wanted[i]) && Held(orig, i)
      ensures r.Refused? ==> Refusable(orig, wanted)
      ensures r.Mismatch? ==> rows == old(rows)
      ensures r.Patched? ==> Passed(before, rows, orig, wanted, i + 1)
    {
      if !Matches(orig[i], wanted[i]) {
        return Mismatch;
      }
      StillThere(before, rows, sid, orig, wanted, i);
      PatchNext(before, rows, sid, orig, wanted, i);
      if orig[i].idx.None? {
        TakenIff(before, rows, sid, orig, wanted, i);
      }
      if Held(orig, i) {
        assert RefusedAt(orig, wanted, i);
      }
      var refused := PatchMovement(orig[i], wanted[i], i);
      r := if refused then Refused else Patched;
    }

    /** The comparison loop: patches matching movements until the first that does not match,
        or whose position is refused. */
    method PatchInPlace(sid: SchedId, orig: seq<Row>, wanted: seq<Content>) returns (r: PatchOutcome)
      requires |orig| == |wanted| && TableOk(rows, nextId) && Reads(rows, sid, orig)
      modifies this`rows
      ensures r.Refused? <==> Refusable(orig, wanted)
      ensures r.Patched? <==> AllMatch(orig, wanted) && !Refusable(orig, wanted)
      ensures TableOk(rows, nextId)
      ensures r.Patched? ==> Leaves(old(rows), rows, sid, PatchList(orig, wanted))
      ensures r.Mismatch? ==> forall r: Row :: r.parent != sid ==> (r in rows <==> r in old(rows))
    {
      ghost var before := rows;
      for i := 0 to |orig|
        invariant Passed(before, rows, orig, wanted, i) && TableOk(rows, nextId)
      {
        r := CompareMovement(sid, orig, wanted, i, before);
        if r.Mismatch? {
          MismatchFirst(before, rows, sid, orig, wanted, i);
          return;
        }
        if r.Refused? {
          assert Refusable(orig, wanted);
          return;
        }
      }
      AllPassed(before, rows, sid, orig, wanted);
      r := Patched;
    }

    /** The movements part of a Create. `orig` is the ordered query's answer. When a position
        is refused the transaction is rolled back. */
    method CreateMovements(sid: SchedId, updated: bool, orig: seq<Row>, wanted: seq<Content>) returns (refused: bool)
      requires TableOk(rows, nextId) && Reads(rows, sid, orig) && (!updated ==> orig == [])
      modifies this
      ensures TableOk(rows, nextId)
      ensures refused <==> updated && Refusable(orig, wanted)
      ensures refused ==> rows == old(rows) && nextId == old(nextId)
      ensures !refused && updated && AllMatch(orig, wanted) ==>
              Leaves(old(rows), rows, sid, PatchList(orig, wanted)) && nextId == old(nextId)
      ensures !refused && !(updated && AllMatch(orig, wanted)) ==>
                Leaves(old(rows), rows, sid, NewRows(sid, old(nextId), wanted)) && nextId == old(nextId) + |wanted|
    {
      var before := rows;
      refused := false;
      if updated && |orig| == |wanted| {
        var r := PatchInPlace(sid, orig, wanted);
        if r.Refused? {
          rows := before;
          return true;
        }
        if r.Patched? {
          return;
        }
      }
      DeleteLeaves(before, rows, nextId, sid);
      if updated {
        rows := Filter(NotOf(sid), rows);
      } else {
        FilterAll(NotOf(sid), rows);
      }
      InsertLeaves(before, rows, nextId, sid, wanted);
      InsertMovements(sid, wanted);
    }

    method InsertMovements(sid: SchedId, wanted: seq<Content>)
      modifies this
      ensures rows == old(rows) + NewRows(sid, old(nextId), wanted) && nextId == old(nextId) + |wanted|
    {
      for i := 0 to |wanted|
        invariant rows == old(rows) + NewRows(sid, old(nextId), wanted[..i]) && nextId == old(nextId) + i
      {
        var row := Row(RowId(nextId), sid, wanted[i], Some(i), None, None);
        assert NewRows(sid, old(nextId), wanted[..i + 1]) == NewRows(sid, old(nextId), wanted[..i]) + [row];
        rows, nextId := rows + [row], nextId + 1;
      }
      assert wanted[..|wanted|] == wanted;
    }
  }

  /** A movement not reached yet is stored as it was read. */
  lemma StillThere(before: seq<Row>, after: seq<Row>, sid: SchedId, list: seq<Row>, wanted: seq<Content>, n: nat)
    requires n < |list| == |wanted| && UniqueIds(before) && Reads(before, sid, list)
    requires PatchedUpTo(before, after, list, wanted, n)
    ensures UniqueIds(after) && list[n] in after
  {
    assert list[n] in list && list[n] in before;
    var at :| 0 <= at < |before| && before[at] == list[n];
    forall k | 0 <= k < n ensures list[k] != list[n] {
      assert list[k].id != list[n].id;
    }
    assert list[n] !in list[..n];
    assert after[at] == before[at];
    forall i, j | 0 <= i < j < |after| ensures after[i].id != after[j].id {
      assert before[i].id != before[j].id;
    }
  }

  /** However far the patching got, the rows of other schedules are as they were. */
  lemma OthersUntouched(before: seq<Row>, after: seq<Row>, sid: SchedId, list: seq<Row>, wanted: seq<Content>, n: nat)
    requires n <= |list| == |wanted| && Reads(before, sid, list)
    requires PatchedUpTo(before, after, list, wanted, n)
    ensures forall r: Row :: r.parent != sid ==> (r in after <==> r in before)
  {
    forall r: Row | r.parent != sid ensures r in after <==> r in before {
      if r in after {
        var i :| 0 <= i < |after| && after[i] == r;
        assert before[i] !in list;
        assert before[i] !in list[..n];
      }
      if r in before {
        var i :| 0 <= i < |before| && before[i] == r;
        assert before[i] !in list;
        assert before[i] !in list[..n];
        assert after[i] == r;
      }
    }
  }

  // ---- patching is as good as replacing ----

  lemma PatchListContents(list: seq<Row>, wanted: seq<Content>)
    requires AllMatch(list, wanted)
    ensures Contents(PatchList(list, wanted)) == wanted
  {
    forall i | 0 <= i < |list| ensures Contents(PatchList(list, wanted))[i] == wanted[i] {
      assert Matches(list[i], wanted[i]);
    }
  }

  /** After a Create, whichever branch it took, the ordered query answers the record's
      movements in full and at their positions, provided the stored positions were absent or
      right; and they are so again. When every movement matched, the rows keep their ids and
      the paths routed for them. */
  lemma PatchEqualsReplace(before: seq<Row>, after: seq<Row>, sid: SchedId, first: int, orig: seq<Row>,
                           wanted: seq<Content>, list: seq<Row>)
    requires UniqueIds(orig) && PositionsOk(orig) && Reads(after, sid, list)
    requires if AllMatch(orig, wanted) then Leaves(before, after, sid, PatchList(orig, wanted))
             else Leaves(before, after, sid, NewRows(sid, first, wanted))
    ensures Contents(list) == wanted && Numbered(list) && PositionsOk(list)
    ensures AllMatch(orig, wanted) ==> |list| == |orig| && forall i :: 0 <= i < |list| ==>
              list[i].id == orig[i].id && list[i].startsPath == orig[i].startsPath
                  && list[i].endsPath == orig[i].endsPath
  {
    if AllMatch(orig, wanted) {
      PatchListContents(orig, wanted);
      NumberedReadsBack(after, sid, PatchList(orig, wanted), list);
    } else {
      NumberedReadsBack(after, sid, NewRows(sid, first, wanted), list);
    }
  }

  ghost predicate Ordered(list: seq<Row>) {
    forall i, j :: 0 <= i < j < |list| ==> InOrder(list[i], list[j])
  }

  /** Positions that are absent or right are never refused. */
  lemma RightNeverRefused(orig: seq<Row>, wanted: seq<Content>)
    requires PositionsOk(orig)
    ensures !Refusable(orig, wanted)
  {
  }

  /** For any stored positions: read in order, the m rows that have one come first. When all
      movements match, the patching succeeds and leaves the rows in order exactly when the last
      of these positions is smaller than m, the position the next row is given. */
  lemma PatchedInOrderIff(orig: seq<Row>, wanted: seq<Content>, m: nat)
    requires Ordered(orig) && AllMatch(orig, wanted) && m <= |orig|
    requires forall i :: 0 <= i < |orig| ==> (orig[i].idx.Some? <==> i < m)
    ensures !Refusable(orig, wanted) && Ordered(PatchList(orig, wanted)) <==>
            m == 0 || m == |orig| || orig[m - 1].idx.value < m
  {
    var p := PatchList(orig, wanted);
    if 0 < m < |orig| {
      assert p[m - 1].idx == orig[m - 1].idx && p[m].idx == Some(m);
      if orig[m - 1].idx.value == m {
        assert RefusedAt(orig, wanted, m);
      } else if orig[m - 1].idx.value > m {
        assert !InOrder(p[m - 1], p[m]);
      } else {
        BelowKeepsOrder(orig, wanted, m);
      }
    } else {
      forall i, j | 0 <= i < j < |p| ensures InOrder(p[i], p[j]) {
        assert InOrder(orig[i], orig[j]);
      }
    }
  }

  lemma BelowKeepsOrder(orig: seq<Row>, wanted: seq<Content>, m: nat)
    requires Ordered(orig) && AllMatch(orig, wanted) && 0 < m < |orig|
    requires forall i :: 0 <= i < |orig| ==> (orig[i].idx.Some? <==> i < m)
    requires orig[m - 1].idx.value < m
    ensures !Refusable(orig, wanted) && Ordered(PatchList(orig, wanted))
  {
    var p := PatchList(orig, wanted);
    forall j | 0 <= j < m ensures orig[j].idx.value < m {
      assert j < m - 1 ==> InOrder(orig[j], orig[m - 1]);
    }
    forall i, j | 0 <= i < j < |p| ensures InOrder(p[i], p[j]) {
      assert InOrder(orig[i], orig[j]);
    }
  }
}
