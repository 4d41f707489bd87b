/** Import of schedule records (`apply_schedule_record`, `apply_schedule_records`) and its
    refinement to a map in which the last writer wins. */
module ScheduleImport {
  import opened Options
  import opened Seqs
  import opened ScheduleTimes

  datatype SchedId = SchedId(number: int)
  datatype Uuid = Uuid(value: int)

  const SOURCE_ITPS := 0

  datatype Key = Key(uid: string, startDate: int, stp: char, source: int)

  datatype Sched = Sched(id: SchedId, tsplId: Uuid, key: Key)

  datatype MvtRow = MvtRow(parent: SchedId, mvt: Mvt)

  /** Both tables, rows in rowid order. */
  datatype Tables = Tables(scheds: seq<Sched>, rows: seq<MvtRow>)

  /** A record as parsed. `newId` is the UUID that would be drawn for it. */
  datatype Record =
    | Create(uid: string, startDate: int, stp: char, locations: seq<Location>, newId: Uuid)
    | Delete(uid: string, startDate: int, stp: char)

  function KeyOf(rec: Record): Key {
    Key(rec.uid, rec.startDate, rec.stp, SOURCE_ITPS)
  }

  // ---- queries ----

  function FindSched(scheds: seq<Sched>, key: Key): (r: Option<Sched>)
    ensures r.Some? ==> r.value in scheds && r.value.key == key
    ensures r.None? <==> forall s :: s in scheds ==> s.key != key
  {
    if scheds == [] then None
    else if scheds[0].key == key then Some(scheds[0])
    else FindSched(scheds[1..], key)
  }

  function OfParent(id: SchedId): MvtRow -> bool { (r: MvtRow) => r.parent == id }

  function NotOfParent(id: SchedId): MvtRow -> bool { (r: MvtRow) => r.parent != id }

  function NotKey(key: Key): Sched -> bool { (s: Sched) => s.key != key }

  function MvtOf(r: MvtRow): Mvt { r.mvt }

  function MvtsOf(rows: seq<MvtRow>, id: SchedId): seq<Mvt> {
    Map(MvtOf, Filter(OfParent(id), rows))
  }

  /** `WHERE parent_sched = id ORDER BY day_offset, time, action`. */
  function SelectMvts(rows: seq<MvtRow>, id: SchedId): seq<Mvt> {
    Sort(MvtsOf(rows, id))
  }

  /** The fields `ScheduleMvt::eq` compares. */
  datatype Core = Core(tiploc: string, action: int, time: int, dayOffset: int)

  function CoreOf(m: Mvt): Core { Core(m.stop.tiploc, m.stop.action, m.stop.time, m.dayOffset) }

  function Cores(mvts: seq<Mvt>): seq<Core> { Map(CoreOf, mvts) }

  // ---- the effect of one record ----

  function NextSchedId(scheds: seq<Sched>): SchedId {
    if scheds == [] then SchedId(1) else SchedId(scheds[|scheds| - 1].id.number + 1)
  }

  /** The movements a Create asks for: lifted, and put in order if they are not. */
  function Wanted(locations: seq<Location>): (mvts: seq<Mvt>)
    ensures Sorted(mvts) && multiset(mvts) == multiset(Lift(Flatten(locations)))
  {
    Sort(Lift(Flatten(locations)))
  }

  function RowsFor(id: SchedId, mvts: seq<Mvt>): (r: seq<MvtRow>)
    ensures |r| == |mvts| && forall i :: 0 <= i < |mvts| ==> r[i] == MvtRow(id, mvts[i])
  {
    seq(|mvts|, i requires 0 <= i < |mvts| => MvtRow(id, mvts[i]))
  }

  function WithTsplId(scheds: seq<Sched>, id: SchedId, tsplId: Uuid): (r: seq<Sched>)
    ensures |r| == |scheds|
    ensures forall i :: 0 <= i < |scheds| ==>
            r[i] == if scheds[i].id == id then scheds[i].(tsplId := tsplId) else scheds[i]
  {
    seq(|scheds|, i requires 0 <= i < |scheds| =>
      if scheds[i].id == id then scheds[i].(tsplId := tsplId) else scheds[i])
  }

  function Apply(t: Tables, rec: Record): Tables {
    var found := FindSched(t.scheds, KeyOf(rec));
    match rec
    case Delete(_, _, _) =>
      if found.None? then t
      else Tables(Filter(NotKey(KeyOf(rec)), t.scheds), Filter(NotOfParent(found.value.id), t.rows))
    case Create(_, _, _, locations, newId) =>
      var mvts := Wanted(locations);
      match found
      case None =>
        var id := NextSchedId(t.scheds);
        Tables(t.scheds + [Sched(id, newId, KeyOf(rec))], t.rows + RowsFor(id, mvts))
      case Some(s) =>
        if Cores(SelectMvts(t.rows, s.id)) == Cores(mvts) then t
        else Tables(WithTsplId(t.scheds, s.id, newId), Filter(NotOfParent(s.id), t.rows) + RowsFor(s.id, mvts))
  }

  // ---- the invariant ----

  predicate Apart(s: Sched, u: Sched) {
    s.id.number < u.id.number && s.key != u.key
  }

  /** At most one schedule per key, and no orphan movements. */
  ghost predicate TablesOk(t: Tables) {
    && (forall i, j :: 0 <= i < j < |t.scheds| ==> Apart(t.scheds[i], t.scheds[j]))
    && (forall r :: r in t.rows ==> exists s :: s in t.scheds && s.id == r.parent)
  }

  lemma SchedIdsIdentify(scheds: seq<Sched>, s: Sched, u: Sched)
    requires forall i, j :: 0 <= i < j < |scheds| ==> Apart(scheds[i], scheds[j])
    requires s in scheds && u in scheds && (s.id == u.id || s.key == u.key)
    ensures s == u
  {
    var i :| 0 <= i < |scheds| && scheds[i] == s;
    var j :| 0 <= j < |scheds| && scheds[j] == u;
  }

  lemma AllBelowNext(scheds: seq<Sched>)
    requires forall i, j :: 0 <= i < j < |scheds| ==> Apart(scheds[i], scheds[j])
    ensures forall s :: s in scheds ==> s.id.number < NextSchedId(scheds).number
  {
    forall s | s in scheds ensures s.id.number < NextSchedId(scheds).number {
      var i :| 0 <= i < |scheds| && scheds[i] == s;
      if i < |scheds| - 1 {
        assert Apart(scheds[i], scheds[|scheds| - 1]);
      }
    }
  }

  lemma DeleteKeepsOk(t: Tables, rec: Record)
    requires TablesOk(t) && rec.Delete?
    ensures TablesOk(Apply(t, rec))
  {
    var found := FindSched(t.scheds, KeyOf(rec));
    if found.Some? {
      var t' := Apply(t, rec);
      var index := FilterOrder(NotKey(KeyOf(rec)), t.scheds);
      forall i, j | 0 <= i < j < |t'.scheds| ensures Apart(t'.scheds[i], t'.scheds[j]) {
        assert Apart(t.scheds[index[i]], t.scheds[index[j]]);
      }
      forall r | r in t'.rows ensures exists s :: s in t'.scheds && s.id == r.parent {
        var s :| s in t.scheds && s.id == r.parent;
        if s.key == KeyOf(rec) {
          SchedIdsIdentify(t.scheds, s, found.value);
          assert false;
        }
        assert s in t'.scheds;
      }
    }
  }

  lemma InsertKeepsOk(t: Tables, id: SchedId, newId: Uuid, key: Key, mvts: seq<Mvt>)
    requires TablesOk(t) && FindSched(t.scheds, key).None? && id == NextSchedId(t.scheds)
    ensures TablesOk(Tables(t.scheds + [Sched(id, newId, key)], t.rows + RowsFor(id, mvts)))
  {
    var scheds', rows' := t.scheds + [Sched(id, newId, key)], t.rows + RowsFor(id, mvts);
    AllBelowNext(t.scheds);
    forall i, j | 0 <= i < j < |scheds'| ensures Apart(scheds'[i], scheds'[j]) {
      assert t.scheds[i] in t.scheds;
      assert j < |t.scheds| ==> Apart(t.scheds[i], t.scheds[j]);
    }
    forall r | r in rows' ensures exists s :: s in scheds' && s.id == r.parent {
      if r in t.rows {
        var s :| s in t.scheds && s.id == r.parent;
        assert s in scheds';
      } else {
        assert scheds'[|t.scheds|] in scheds' && scheds'[|t.scheds|].id == r.parent;
      }
    }
  }

  lemma ReplaceKeepsOk(t: Tables, found: Sched, newId: Uuid, mvts: seq<Mvt>)
    requires TablesOk(t) && found in t.scheds
    ensures TablesOk(Tables(WithTsplId(t.scheds, found.id, newId),
                            Filter(NotOfParent(found.id), t.rows) + RowsFor(found.id, mvts)))
  {
    var scheds' := WithTsplId(t.scheds, found.id, newId);
    var rows' := Filter(NotOfParent(found.id), t.rows) + RowsFor(found.id, mvts);
    forall i, j | 0 <= i < j < |scheds'| ensures Apart(scheds'[i], scheds'[j]) {
      assert Apart(t.scheds[i], t.scheds[j]);
    }
    forall r | r in rows' ensures exists s :: s in scheds' && s.id == r.parent {
      var i :| 0 <= i < |t.scheds| && t.scheds[i].id == r.parent;
      assert scheds'[i] in scheds' && scheds'[i].id == r.parent;
    }
  }

  lemma ApplyKeepsOk(t: Tables, rec: Record)
    requires TablesOk(t)
    ensures TablesOk(Apply(t, rec))
  {
    if rec.Delete? {
      DeleteKeepsOk(t, rec);
    } else {
      match FindSched(t.scheds, KeyOf(rec))
      case None => InsertKeepsOk(t, NextSchedId(t.scheds), rec.newId, KeyOf(rec), Wanted(rec.locations));
      case Some(found) => ReplaceKeepsOk(t, found, rec.newId, Wanted(rec.locations));
    }
  }

  // ---- refinement ----

  /** What the tables say about a key: the movements, as the ordered query gives them. */
  function Lookup(t: Tables, key: Key): Option<seq<Mvt>> {
    match FindSched(t.scheds, key)
    case None => None
    case Some(s) => Some(SelectMvts(t.rows, s.id))
  }

  /** Movement by movement the same place, action, time and day. */
  ghost predicate Agree(stored: seq<Mvt>, wanted: seq<Mvt>) {
    && |stored| == |wanted|
    && forall i :: 0 <= i < |stored| ==>
         && stored[i].stop.tiploc == wanted[i].stop.tiploc && stored[i].stop.action == wanted[i].stop.action
         && stored[i].stop.time == wanted[i].stop.time && stored[i].dayOffset == wanted[i].dayOffset
  }

  /** The comparison of movement lists sees these four fields and no other. */
  lemma CoresIff(a: seq<Mvt>, b: seq<Mvt>)
    ensures Cores(a) == Cores(b) <==> Agree(a, b)
  {
    if Cores(a) == Cores(b) {
      assert |a| == |Cores(a)| == |b|;
      forall i | 0 <= i < |a| ensures CoreOf(a[i]) == CoreOf(b[i]) {
        assert Cores(a)[i] == Cores(b)[i];
      }
    }
  }

  function TsplIdOf(t: Tables, key: Key): Option<Uuid> {
    match FindSched(t.scheds, key)
    case None => None
    case Some(s) => Some(s.tsplId)
  }

  lemma {:induction false} FindAfterAppend(scheds: seq<Sched>, s: Sched, key: Key)
    ensures FindSched(scheds + [s], key) ==
            if FindSched(scheds, key).Some? then FindSched(scheds, key) else if s.key == key then Some(s) else None
    decreases |scheds|
  {
    if scheds != [] {
      FindAfterAppend(scheds[1..], s, key);
      assert (scheds + [s])[1..] == scheds[1..] + [s];
    } else {
      assert scheds + [s] == [s];
    }
  }

  lemma {:induction false} FindAfterTspl(scheds: seq<Sched>, id: SchedId, tsplId: Uuid, key: Key)
    ensures FindSched(WithTsplId(scheds, id, tsplId), key) ==
            match FindSched(scheds, key)
            case None => None
            case Some(s) => Some(if s.id == id then s.(tsplId := tsplId) else s)
    decreases |scheds|
  {
    if scheds != [] {
      FindAfterTspl(scheds[1..], id, tsplId, key);
      assert WithTsplId(scheds, id, tsplId)[1..] == WithTsplId(scheds[1..], id, tsplId);
    }
  }

  lemma FindAfterDelete(t: Tables, rec: Record, key: Key)
    requires TablesOk(t) && key != KeyOf(rec)
    ensures FindSched(Filter(NotKey(KeyOf(rec)), t.scheds), key) == FindSched(t.scheds, key)
  {
    var rest := Filter(NotKey(KeyOf(rec)), t.scheds);
    match FindSched(t.scheds, key)
    case None =>
    case Some(s) =>
      assert s in rest;
      SchedIdsIdentify(t.scheds, s, FindSched(rest, key).value);
  }

  /** The rows of one schedule after rows of another were added or removed. */
  lemma OtherRowsUntouched(rows: seq<MvtRow>, id: SchedId, mvts: seq<Mvt>, other: SchedId)
    requires id != other
    ensures MvtsOf(Filter(NotOfParent(id), rows), other) == MvtsOf(rows, other)
    ensures MvtsOf(rows + RowsFor(id, mvts), other) == MvtsOf(rows, other)
    ensures MvtsOf(Filter(NotOfParent(id), rows) + RowsFor(id, mvts), other) == MvtsOf(rows, other)
  {
    FilterFilter(NotOfParent(id), OfParent(other), rows);
    FilterAppend(OfParent(other), rows, RowsFor(id, mvts));
    FilterAppend(OfParent(other), Filter(NotOfParent(id), rows), RowsFor(id, mvts));
    FilterNone(OfParent(other), RowsFor(id, mvts));
  }

  /** The rows of a schedule that had none, or whose rows were deleted first. */
  lemma OwnRows(rows: seq<MvtRow>, id: SchedId, mvts: seq<Mvt>)
    requires forall r :: r in rows ==> r.parent != id
    ensures MvtsOf(rows + RowsFor(id, mvts), id) == mvts
  {
    var added := RowsFor(id, mvts);
    FilterAppend(OfParent(id), rows, added);
    FilterNone(OfParent(id), rows);
    FilterAll(OfParent(id), added);
    assert Filter(OfParent(id), rows + added) == added;
    MvtsOfRowsFor(id, mvts);
  }

  lemma MvtsOfRowsFor(id: SchedId, mvts: seq<Mvt>)
    ensures Map(MvtOf, RowsFor(id, mvts)) == mvts
  {
  }

  /** The stored list of a key agrees with `wanted`. */
  ghost predicate Holds(t: Tables, key: Key, wanted: seq<Mvt>) {
    FindSched(t.scheds, key).Some? && Agree(SelectMvts(t.rows, FindSched(t.scheds, key).value.id), wanted)
  }

  /** One record writes or removes its own key and leaves every other alone. */
  lemma ApplyRefinesMap(t: Tables, rec: Record, key: Key)
    requires TablesOk(t)
    ensures key != Key(rec.uid, rec.startDate, rec.stp, 0) ==>
              Lookup(Apply(t, rec), key) == Lookup(t, key) && TsplIdOf(Apply(t, rec), key) == TsplIdOf(t, key)
    ensures key == Key(rec.uid, rec.startDate, rec.stp, 0) ==>
              if rec.Create? then Holds(Apply(t, rec), key, Wanted(rec.locations))
                  else FindSched(Apply(t, rec).scheds, key) == None
  {
    if rec.Delete? {
      DeleteRefines(t, rec, key);
    } else if FindSched(t.scheds, KeyOf(rec)).None? {
      InsertRefines(t, rec, key);
    } else {
      ReplaceRefines(t, rec, key);
    }
  }

  lemma DeleteRefines(t: Tables, rec: Record, key: Key)
    requires TablesOk(t) && rec.Delete?
    ensures Lookup(Apply(t, rec), key) == if key != KeyOf(rec) then Lookup(t, key) else None
    ensures key != KeyOf(rec) ==> TsplIdOf(Apply(t, rec), key) == TsplIdOf(t, key)
  {
    var found := FindSched(t.scheds, KeyOf(rec));
    if found.Some? && key != KeyOf(rec) {
      FindAfterDelete(t, rec, key);
      match FindSched(t.scheds, key) {
        case None =>
        case Some(s) =>
          if s.id == found.value.id {
            SchedIdsIdentify(t.scheds, s, found.value);
            assert false;
          }
          OtherRowsUntouched(t.rows, found.value.id, [], s.id);
      }
    }
  }

  lemma InsertRefines(t: Tables, rec: Record, key: Key)
    requires TablesOk(t) && rec.Create? && FindSched(t.scheds, KeyOf(rec)).None?
    ensures Lookup(Apply(t, rec), key) ==
            if key != KeyOf(rec) then Lookup(t, key) else Some(Wanted(rec.locations))
    ensures TsplIdOf(Apply(t, rec), key) == if key != KeyOf(rec) then TsplIdOf(t, key) else Some(rec.newId)
  {
    var id := NextSchedId(t.scheds);
    AllBelowNext(t.scheds);
    FindAfterAppend(t.scheds, Sched(id, rec.newId, KeyOf(rec)), key);
    if key == KeyOf(rec) {
      forall r | r in t.rows ensures r.parent != id {
        var s :| s in t.scheds && s.id == r.parent;
      }
      OwnRows(t.rows, id, Wanted(rec.locations));
    } else if FindSched(t.scheds, key).Some? {
      OtherRowsUntouched(t.rows, id, Wanted(rec.locations), FindSched(t.scheds, key).value.id);
    }
  }

  lemma ReplaceRefines(t: Tables, rec: Record, key: Key)
    requires TablesOk(t) && rec.Create? && FindSched(t.scheds, KeyOf(rec)).Some?
    ensures key != KeyOf(rec) ==>
              Lookup(Apply(t, rec), key) == Lookup(t, key) && TsplIdOf(Apply(t, rec), key) == TsplIdOf(t, key)
    ensures key == KeyOf(rec) ==> Holds(Apply(t, rec), key, Wanted(rec.locations))
    ensures key == KeyOf(rec) ==>
              TsplIdOf(Apply(t, rec), key) ==
              if Holds(t, key, Wanted(rec.locations)) then TsplIdOf(t, key) else Some(rec.newId)
  {
    var found := FindSched(t.scheds, KeyOf(rec)).value;
    var mvts := Wanted(rec.locations);
    CoresIff(SelectMvts(t.rows, found.id), mvts);
    if Cores(SelectMvts(t.rows, found.id)) != Cores(mvts) {
      FindAfterTspl(t.scheds, found.id, rec.newId, key);
      if key == KeyOf(rec) {
        OwnRows(Filter(NotOfParent(found.id), t.rows), found.id, mvts);
      } else if FindSched(t.scheds, key).Some? {
        var s := FindSched(t.scheds, key).value;
        if s.id == found.id {
          SchedIdsIdentify(t.scheds, s, found);
          assert false;
        }
        OtherRowsUntouched(t.rows, found.id, mvts, s.id);
      }
    }
  }

  /** The trainsplorer id names a version: a record gives its schedule the new id exactly
      when it creates the schedule or changes its movement list. */
  lemma TsplIdNamesVersion(t: Tables, rec: Record)
    requires TablesOk(t) && rec.Create?
    ensures TsplIdOf(Apply(t, rec), KeyOf(rec)) ==
            if Holds(t, KeyOf(rec), Wanted(rec.locations)) then TsplIdOf(t, KeyOf(rec)) else Some(rec.newId)
  {
    if FindSched(t.scheds, KeyOf(rec)).None? {
      InsertRefines(t, rec, KeyOf(rec));
    } else {
      ReplaceRefines(t, rec, KeyOf(rec));
    }
  }

  /** A Create changes nothing exactly when the stored list already agreed with it. */
  lemma UnchangedIff(t: Tables, rec: Record)
    requires TablesOk(t) && rec.Create? && forall s :: s in t.scheds ==> s.tsplId != rec.newId
    ensures Apply(t, rec) == t <==> Holds(t, Key(rec.uid, rec.startDate, rec.stp, 0), Wanted(rec.locations))
  {
    var found := FindSched(t.scheds, KeyOf(rec));
    if found.Some? {
      CoresIff(SelectMvts(t.rows, found.value.id), Wanted(rec.locations));
    }
    TsplIdNamesVersion(t, rec);
  }

  /** Records differ in key when they differ in uid, start date or STP indicator. */
  lemma KeysSeparate(a: Record, b: Record)
    ensures KeyOf(a) == KeyOf(b) <==> a.uid == b.uid && a.startDate == b.startDate && a.stp == b.stp
  {
  }

  /** Importing the same schedule again changes nothing at all. */
  lemma RepeatIsNoOp(t: Tables, rec: Record, again: Record)
    requires TablesOk(t) && rec.Create? && again.Create?
    requires KeyOf(again) == KeyOf(rec) && again.locations == rec.locations
    ensures Apply(Apply(t, rec), again) == Apply(t, rec)
  {
    ApplyRefinesMap(t, rec, KeyOf(rec));
    var stored := FindSched(Apply(t, rec).scheds, KeyOf(rec)).value;
    CoresIff(SelectMvts(Apply(t, rec).rows, stored.id), Wanted(rec.locations));
  }

  /** Platforms and public times are not compared, so a record whose movements differ only
      in them leaves the old ones in place: the stored list is the record's, in full,
      exactly when the compared fields differed before or nothing differed at all. */
  lemma StoredInFullIff(t: Tables, rec: Record, s: Sched)
    requires TablesOk(t) && rec.Create? && FindSched(t.scheds, KeyOf(rec)) == Some(s)
    ensures SelectMvts(Apply(t, rec).rows, s.id) == Wanted(rec.locations) <==>
            !Agree(SelectMvts(t.rows, s.id), Wanted(rec.locations)) || SelectMvts(t.rows, s.id) == Wanted(rec.locations)
  {
    CoresIff(SelectMvts(t.rows, s.id), Wanted(rec.locations));
    OwnRows(Filter(NotOfParent(s.id), t.rows), s.id, Wanted(rec.locations));
  }

  // ---- runs ----

  const EMPTY: Tables := Tables([], [])

  function Run(t: Tables, recs: seq<Record>): Tables {
    if recs == [] then t else Apply(Run(t, recs[..|recs| - 1]), recs[|recs| - 1])
  }

  /** The latest Create of a key since its last Delete. */
  function LastCreate(recs: seq<Record>, key: Key): Option<seq<Location>> {
    if recs == [] then None
    else
      var last := recs[|recs| - 1];
      if Key(last.uid, last.startDate, last.stp, 0) != key then LastCreate(recs[..|recs| - 1], key)
      else if last.Create? then Some(last.locations)
      else None
  }

  /** Over every sequence of records from an empty store: one schedule per key, no orphan
      movements, and each key holds the movements of its latest Create since its last Delete. */
  lemma {:induction false} LastWriterWins(recs: seq<Record>, key: Key)
    ensures TablesOk(Run(EMPTY, recs))
    ensures match LastCreate(recs, key)
            case None => FindSched(Run(EMPTY, recs).scheds, key) == None
            case Some(locations) => Holds(Run(EMPTY, recs), key, Wanted(locations))
    decreases |recs|
  {
    if recs != [] {
      var front, last := recs[..|recs| - 1], recs[|recs| - 1];
      LastWriterWins(front, key);
      ApplyKeepsOk(Run(EMPTY, front), last);
      ApplyRefinesMap(Run(EMPTY, front), last, key);
    }
  }

  // ---- files ----

  datatype ScheduleFile = ScheduleFile(sequence: int, timestamp: int)

  /** The parsed lines of a file. */
  datatype Item = Timetable(file: ScheduleFile) | Schedule(record: Record) | Other

  datatype ImportError = NoTimetable | InsertedAlready | GreaterSequencePresent

  datatype ImportOutcome = Imported(inserted: nat) | Refused(error: ImportError)

  predicate SameTimestamp(files: seq<ScheduleFile>, timestamp: int) {
    exists f :: f in files && f.timestamp == timestamp
  }

  predicate GreaterSequence(files: seq<ScheduleFile>, sequence: int) {
    exists f :: f in files && f.sequence > sequence
  }

  /** The files table after the headers among `items`. */
  function FilesAfter(files: seq<ScheduleFile>, items: seq<Item>): seq<ScheduleFile> {
    if items == [] then files
    else
      FilesAfter(files, items[..|items| - 1]) +
      if items[|items| - 1].Timetable? then [items[|items| - 1].file] else []
  }

  function RecordsIn(items: seq<Item>): seq<Record> {
    if items == [] then []
    else RecordsIn(items[..|items| - 1]) + if items[|items| - 1].Schedule? then [items[|items| - 1].record] else []
  }

  predicate HasTimetable(items: seq<Item>) {
    exists i :: 0 <= i < |items| && items[i].Timetable?
  }

  /** Why line i stops the import, given the lines before it. */
  function ErrorAt(files: seq<ScheduleFile>, items: seq<Item>, i: nat): Option<ImportError>
    requires i < |items|
  {
    match items[i]
    case Schedule(_) => if HasTimetable(items[..i]) then None else Some(NoTimetable)
    case Timetable(file) =>
      if SameTimestamp(FilesAfter(files, items[..i]), file.timestamp) then Some(InsertedAlready)
      else if GreaterSequence(FilesAfter(files, items[..i]), file.sequence) then Some(GreaterSequencePresent)
      else None
    case Other => None
  }

  ghost predicate Clean(files: seq<ScheduleFile>, items: seq<Item>, upto: nat) {
    upto <= |items| && forall i :: 0 <= i < upto ==> ErrorAt(files, items, i) == None
  }

  lemma {:induction false} FileOf(files: seq<ScheduleFile>, items: seq<Item>, n: nat, f: ScheduleFile)
    requires n <= |items|
    ensures f in FilesAfter(files, items[..n]) <==> f in files || exists k :: 0 <= k < n && items[k] == Timetable(f)
    decreases n
  {
    if n > 0 {
      assert items[..n][..n - 1] == items[..n - 1];
      FileOf(files, items, n - 1, f);
    }
  }

  /** Line i may be read: a record comes after a header; a header's timestamp is new, and no
      earlier one has a greater sequence number. */
  ghost predicate Readable(files: seq<ScheduleFile>, items: seq<Item>, i: nat)
    requires i < |items|
  {
    && (items[i].Schedule? ==> exists k :: 0 <= k < i && items[k].Timetable?)
    && (items[i].Timetable? ==>
          && (forall f :: f in files ==> f.timestamp != items[i].file.timestamp && f.sequence <= items[i].file.sequence)
          && (forall k :: 0 <= k < i && items[k].Timetable? ==>
                items[k].file.timestamp != items[i].file.timestamp && items[k].file.sequence <= items[i].file.sequence))
  }

  lemma ReadableIff(files: seq<ScheduleFile>, items: seq<Item>, i: nat)
    requires i < |items|
    ensures ErrorAt(files, items, i) == None <==> Readable(files, items, i)
  {
    var before := FilesAfter(files, items[..i]);
    match items[i]
    case Schedule(_) =>
      assert forall k :: 0 <= k < i ==> items[..i][k] == items[k];
    case Timetable(file) =>
      forall f ensures f in before <==> f in files || exists k :: 0 <= k < i && items[k] == Timetable(f) {
        FileOf(files, items, i, f);
      }
      forall k | 0 <= k < i && items[k].Timetable? ensures items[k].file in before {
        assert items[k] == Timetable(items[k].file);
      }
    case Other =>
  }

  /** Which files are imported, said of their lines. */
  lemma ImportedIff(files: seq<ScheduleFile>, items: seq<Item>)
    ensures Clean(files, items, |items|) <==> forall i :: 0 <= i < |items| ==> Readable(files, items, i)
  {
    forall i | 0 <= i < |items| ensures ErrorAt(files, items, i) == None <==> Readable(files, items, i) {
      ReadableIff(files, items, i);
    }
  }

  lemma {:induction false} RunAppend(t: Tables, recs: seq<Record>, rec: Record)
    ensures Run(t, recs + [rec]) == Apply(Run(t, recs), rec)
  {
    assert (recs + [rec])[..|recs|] == recs;
  }

  /** The state of the import loop before line i. */
  ghost predicate ReadSoFar(t0: Tables, files0: seq<ScheduleFile>, items: seq<Item>, i: nat,
                            t: Tables, files: seq<ScheduleFile>, metaseq: Option<int>, inserted: nat)
    requires i <= |items|
  {
    && t == Run(t0, RecordsIn(items[..i])) && files == FilesAfter(files0, items[..i])
    && inserted == |RecordsIn(items[..i])| && (metaseq.Some? <==> HasTimetable(items[..i]))
  }

  lemma TimetableSeen(items: seq<Item>, i: nat)
    requires i < |items|
    ensures HasTimetable(items[..i + 1]) <==> HasTimetable(items[..i]) || items[i].Timetable?
  {
    if HasTimetable(items[..i]) {
      var k :| 0 <= k < i && items[..i][k].Timetable?;
      assert items[..i + 1][k].Timetable?;
    }
    if HasTimetable(items[..i + 1]) {
      var k :| 0 <= k < i + 1 && items[..i + 1][k].Timetable?;
      assert k < i ==> items[..i][k].Timetable?;
    }
    if items[i].Timetable? {
      assert items[..i + 1][i].Timetable?;
    }
  }

  lemma LineStep(files: seq<ScheduleFile>, items: seq<Item>, i: nat)
    requires i < |items|
    ensures FilesAfter(files, items[..i + 1]) ==
            if items[i].Timetable? then FilesAfter(files, items[..i]) + [items[i].file]
            else FilesAfter(files, items[..i])
    ensures RecordsIn(items[..i + 1]) ==
            if items[i].Schedule? then RecordsIn(items[..i]) + [items[i].record] else RecordsIn(items[..i])
  {
    assert items[..i + 1][..i] == items[..i] && items[..i + 1][i] == items[i];
    assert FilesAfter(files, items[..i]) + [] == FilesAfter(files, items[..i]);
    assert RecordsIn(items[..i]) + [] == RecordsIn(items[..i]);
  }

  lemma CleanStep(files: seq<ScheduleFile>, items: seq<Item>, i: nat)
    requires i < |items| && Clean(files, items, i) && ErrorAt(files, items, i) == None
    ensures Clean(files, items, i + 1)
  {
  }

  /** Reading a line that does not stop the import: a record is applied, a header filed. */
  lemma ReadLine(t0: Tables, files0: seq<ScheduleFile>, items: seq<Item>, i: nat,
                 t: Tables, files: seq<ScheduleFile>, metaseq: Option<int>, inserted: nat)
    requires i < |items| && ReadSoFar(t0, files0, items, i, t, files, metaseq, inserted)
    ensures items[i].Schedule? ==>
            ReadSoFar(t0, files0, items, i + 1, Apply(t, items[i].record), files, metaseq, inserted + 1)
    ensures items[i].Timetable? ==>
              ReadSoFar(t0, files0, items, i + 1, t, files + [items[i].file], Some(items[i].file.sequence), inserted)
    ensures items[i].Other? ==> ReadSoFar(t0, files0, items, i + 1, t, files, metaseq, inserted)
  {
    TimetableSeen(items, i);
    LineStep(files0, items, i);
    if items[i].Schedule? {
      RunAppend(t0, RecordsIn(items[..i]), items[i].record);
    }
  }

  /** The three tables of tspl-fahrplan. */
  class ScheduleStore {
    var scheds: seq<Sched>
    var rows: seq<MvtRow>
    var files: seq<ScheduleFile>

    constructor ()
      ensures Contents() == EMPTY && files == []
    {
      scheds, rows, files := [], [], [];
    }

    function Contents(): Tables
      reads this`scheds, this`rows
    {
      Tables(scheds, rows)
    }

    method ApplyScheduleRecord(rec: Record)
      modifies this`scheds, this`rows
      ensures Contents() == Apply(old(Contents()), rec)
      ensures TablesOk(old(Contents())) ==> TablesOk(Contents())
      ensures TablesOk(old(Contents())) ==>
                if rec.Create? then Holds(Contents(), Key(rec.uid, rec.startDate, rec.stp, 0), Wanted(rec.locations))
                else FindSched(Contents().scheds, Key(rec.uid, rec.startDate, rec.stp, 0)) == None
    {
      if TablesOk(Contents()) {
        ApplyKeepsOk(Contents(), rec);
        ApplyRefinesMap(Contents(), rec, KeyOf(rec));
      }
      var found := FindSched(scheds, KeyOf(rec));
      match rec
      case Delete(_, _, _) =>
        if found.Some? {
          scheds := Filter(NotKey(KeyOf(rec)), scheds);
          rows := Filter(NotOfParent(found.value.id), rows);
        }
      case Create(_, _, _, locations, newId) =>
        var sid := NextSchedId(scheds);
        if found.Some? {
          sid := found.value.id;
        } else {
          scheds := scheds + [Sched(sid, newId, KeyOf(rec))];
        }
        var mvts := ConvertLocations(locations);
        if !Sorted(mvts) {
          mvts := Sort(mvts);
        }
        if found.Some? {
          if Cores(SelectMvts(rows, sid)) == Cores(mvts) {
            return;
          }
          rows := Filter(NotOfParent(sid), rows);
          scheds := WithTsplId(scheds, sid, newId);
        }
        InsertMovements(sid, mvts);
    }

    method InsertMovements(sid: SchedId, mvts: seq<Mvt>)
      modifies this`rows
      ensures rows == old(rows) + RowsFor(sid, mvts)
    {
      for i := 0 to |mvts|
        invariant rows == old(rows) + RowsFor(sid, mvts[..i])
      {
        assert RowsFor(sid, mvts[..i + 1]) == RowsFor(sid, mvts[..i]) + [MvtRow(sid, mvts[i])];
        rows := rows + [MvtRow(sid, mvts[i])];
      }
      assert mvts[..|mvts|] == mvts;
    }

    /** A file is imported as a whole or, when a line stops it, not at all. */
    method ApplyScheduleRecords(items: seq<Item>) returns (r: ImportOutcome)
      modifies this
      ensures r.Imported? <==> Clean(old(files), items, |items|)
      ensures r.Imported? ==> Contents() == Run(old(Contents()), RecordsIn(items))
      ensures r.Imported? ==> files == FilesAfter(old(files), items) && r.inserted == |RecordsIn(items)|
      ensures r.Refused? ==> Contents() == old(Contents()) && files == old(files)
      ensures r.Refused? ==>
              exists i :: 0 <= i < |items| && Clean(old(files), items, i)
                  && ErrorAt(old(files), items, i) == Some(r.error)
    {
      var scheds0, rows0, files0 := scheds, rows, files;
      var metaseq: Option<int> := None;
      var inserted := 0;
      for i := 0 to |items|
        invariant Clean(files0, items, i)
        invariant ReadSoFar(old(Contents()), files0, items, i, Contents(), files, metaseq, inserted)
      {
        ReadLine(old(Contents()), files0, items, i, Contents(), files, metaseq, inserted);
        if ErrorAt(files0, items, i).None? {
          CleanStep(files0, items, i);
        }
        match items[i] {
          case Schedule(rec) =>
            if metaseq.None? {
              scheds, rows, files := scheds0, rows0, files0;
              return Refused(NoTimetable);
            }
            ApplyScheduleRecord(rec);
            inserted := inserted + 1;
          case Timetable(file) =>
            if SameTimestamp(files, file.timestamp) {
              scheds, rows, files := scheds0, rows0, files0;
              return Refused(InsertedAlready);
            }
            if GreaterSequence(files, file.sequence) {
              scheds, rows, files := scheds0, rows0, files0;
              return Refused(GreaterSequencePresent);
            }
            metaseq := Some(file.sequence);
            files := files + [file];
          case Other =>
        }
      }
      assert items[..|items|] == items;
      r := Imported(inserted);
    }
  }
}
