/** Live trains and their movements: the two tables of tspl-zugfuhrer and the exclusive
    transactions that change them. Rows are kept in rowid order. */
module LiveTrains {
  import opened Options
  import opened Seqs

  datatype TrainId = TrainId(number: int)
  datatype MvtId = MvtId(number: int)
  datatype Uuid = Uuid(value: int)

  /** What identifies the parent schedule. */
  datatype ScheduleKey = ScheduleKey(uid: string, startDate: int, stp: string, source: int)

  datatype Train = Train(
    id: TrainId, tsplId: Uuid, parent: ScheduleKey, date: int,
    trustId: Option<string>, darwinRid: Option<string>,
    terminated: bool, cancelled: bool, activated: bool)

  datatype Source = SchedItps | SchedDarwin | SchedVstp | Trust | Darwin | TrustNaive

  datatype TrainMvt = TrainMvt(
    id: MvtId, parentTrain: TrainId, updates: Option<MvtId>, tiploc: string, action: int, actual: bool,
    time: int, publicTime: Option<int>, dayOffset: int, source: Source,
    platform: Option<string>, pfmSuppr: bool, unknownDelay: bool)

  /** A movement of a schedule, as tspl-fahrplan reports it. */
  datatype ScheduleMvt = ScheduleMvt(
    tiploc: string, action: int, time: int, dayOffset: int, platform: Option<string>, publicTime: Option<int>)

  function FromItps(m: ScheduleMvt): TrainMvt {
    TrainMvt(MvtId(-1), TrainId(-1), None, m.tiploc, m.action, false, m.time, m.publicTime, m.dayOffset,
             SchedItps, m.platform, false, false)
  }

  datatype Live = Live(trains: seq<Train>, mvts: seq<TrainMvt>)

  datatype ZugError = NotFound | MovementsAmbiguous | MovementsNotFound | ConstraintViolated

  datatype Outcome<+T> = Ok(value: T) | Err(error: ZugError)

  // ---- rowids ----

  function NextTrainId(trains: seq<Train>): TrainId {
    if trains == [] then TrainId(1) else TrainId(trains[|trains| - 1].id.number + 1)
  }

  function NextMvtId(mvts: seq<TrainMvt>): MvtId {
    if mvts == [] then MvtId(1) else MvtId(mvts[|mvts| - 1].id.number + 1)
  }

  // ---- lookups ----

  function TrainFor(trains: seq<Train>, parent: ScheduleKey, date: int): (r: Option<Train>)
    ensures r.Some? ==> r.value in trains && r.value.parent == parent && r.value.date == date
    ensures r.None? <==> forall t :: t in trains ==> !(t.parent == parent && t.date == date)
  {
    if trains == [] then None
    else if trains[0].parent == parent && trains[0].date == date then Some(trains[0])
    else TrainFor(trains[1..], parent, date)
  }

  function TrainByTspl(trains: seq<Train>, tsplId: Uuid): (r: Option<Train>)
    ensures r.Some? ==> r.value in trains && r.value.tsplId == tsplId
    ensures r.None? <==> forall t :: t in trains ==> t.tsplId != tsplId
  {
    if trains == [] then None
    else if trains[0].tsplId == tsplId then Some(trains[0])
    else TrainByTspl(trains[1..], tsplId)
  }

  // ---- column updates on one train ----

  datatype Patch = Activated | TrustId(trustId: string) | DarwinRid(rid: string) | Terminated | Cancelled

  function Patched(t: Train, p: Patch): Train {
    match p
    case Activated => t.(activated := true)
    case TrustId(x) => t.(trustId := Some(x))
    case DarwinRid(x) => t.(darwinRid := Some(x))
    case Terminated => t.(terminated := true)
    case Cancelled => t.(cancelled := true)
  }

  function PatchTrain(trains: seq<Train>, id: TrainId, p: Patch): (r: seq<Train>)
    ensures |r| == |trains|
    ensures forall i :: 0 <= i < |trains| ==> r[i] == if trains[i].id == id then Patched(trains[i], p) else trains[i]
  {
    seq(|trains|, i requires 0 <= i < |trains| => if trains[i].id == id then Patched(trains[i], p) else trains[i])
  }

  // ---- activation ----

  function NewTrain(id: TrainId, tsplId: Uuid, parent: ScheduleKey, date: int): Train {
    Train(id, tsplId, parent, date, None, None, false, false, false)
  }

  /** The rows inserted for `mvts`, numbered from `first` on. */
  function CopiedRows(first: int, train: TrainId, mvts: seq<TrainMvt>): (r: seq<TrainMvt>)
    ensures |r| == |mvts|
    ensures forall i :: 0 <= i < |mvts| ==> r[i] == mvts[i].(id := MvtId(first + i), parentTrain := train)
  {
    seq(|mvts|, i requires 0 <= i < |mvts| => mvts[i].(id := MvtId(first + i), parentTrain := train))
  }

  function CopyInto(s: Live, train: TrainId, mvts: seq<TrainMvt>): Live {
    if mvts == [] then s
    else Live(PatchTrain(s.trains, train, Activated), s.mvts + CopiedRows(NextMvtId(s.mvts).number, train, mvts))
  }

  /** The effect of `activate_lowlevel`. */
  function Activate(s: Live, parent: ScheduleKey, date: int, tsplId: Uuid, mvts: seq<TrainMvt>): Live {
    match TrainFor(s.trains, parent, date)
    case Some(t) => if t.activated then s else CopyInto(s, t.id, mvts)
    case None =>
      var t := NewTrain(NextTrainId(s.trains), tsplId, parent, date);
      CopyInto(s.(trains := s.trains + [t]), t.id, mvts)
  }

  // ---- column updates requested from outside ----

  predicate TrustTaken(trains: seq<Train>, t: Train, trustId: string) {
    exists u :: u in trains && u.id != t.id && u.date == t.date && u.trustId == Some(trustId)
  }

  predicate RidTaken(trains: seq<Train>, id: TrainId, rid: string) {
    exists u :: u in trains && u.id != id && u.darwinRid == Some(rid)
  }

  /** `UPDATE trains SET … WHERE tspl_id = …`, refused by UNIQUE(date, trust_id). */
  function UpdateByTspl(s: Live, tsplId: Uuid, p: Patch): Outcome<Live> {
    match TrainByTspl(s.trains, tsplId)
    case None => Err(NotFound)
    case Some(t) =>
      if p.TrustId? && TrustTaken(s.trains, t, p.trustId) then Err(ConstraintViolated)
      else if p.DarwinRid? && RidTaken(s.trains, t.id, p.rid) then Err(ConstraintViolated)
      else Ok(s.(trains := PatchTrain(s.trains, t.id, p)))
  }

  /** `UPDATE trains SET darwin_rid = … WHERE id = …`, refused by UNIQUE(darwin_rid). */
  function SetRid(s: Live, id: TrainId, rid: string): Outcome<Live> {
    if (exists t :: t in s.trains && t.id == id) && RidTaken(s.trains, id, rid) then Err(ConstraintViolated)
    else Ok(s.(trains := PatchTrain(s.trains, id, DarwinRid(rid))))
  }

  // ---- movement updates ----

  datatype DarwinUpdate = DarwinUpdate(
    tiploc: string, plannedTime: int, plannedDayOffset: int, plannedAction: int,
    updatedTime: int, timeActual: bool, delayUnknown: bool, platform: Option<string>, platsup: bool)

  /** `tiplocs` are those the CORPUS table lists for the message's STANOX. */
  datatype TrustUpdate = TrustUpdate(
    tiplocs: set<string>, plannedTime: int, plannedDayOffset: int, plannedAction: int,
    actualTime: int, actualPublicTime: Option<int>, platform: Option<string>)

  function DarwinMatches(train: TrainId, upd: DarwinUpdate): TrainMvt -> bool {
    (m: TrainMvt) => m.parentTrain == train && m.time == upd.plannedTime && m.action == upd.plannedAction
         && m.dayOffset == upd.plannedDayOffset && m.updates == None && m.source == SchedItps && m.tiploc == upd.tiploc
  }

  function TrustMatches(train: TrainId, upd: TrustUpdate): TrainMvt -> bool {
    (m: TrainMvt) => m.parentTrain == train && m.time == upd.plannedTime
        && (m.action == 2 || m.action == upd.plannedAction)
         && m.dayOffset == upd.plannedDayOffset && m.updates == None && m.source == SchedItps && m.tiploc in upd.tiplocs
  }

  /** Exactly one selected row, or an error. */
  function TheOnly(rows: seq<TrainMvt>): Outcome<TrainMvt> {
    if |rows| > 1 then Err(MovementsAmbiguous) else if rows == [] then Err(MovementsNotFound) else Ok(rows[0])
  }

  function DarwinTarget(s: Live, tsplId: Uuid, upd: DarwinUpdate): Outcome<TrainMvt> {
    match TrainByTspl(s.trains, tsplId)
    case None => Err(NotFound)
    case Some(t) => TheOnly(Filter(DarwinMatches(t.id, upd), s.mvts))
  }

  function TrustTarget(s: Live, tsplId: Uuid, upd: TrustUpdate): Outcome<TrainMvt> {
    match TrainByTspl(s.trains, tsplId)
    case None => Err(NotFound)
    case Some(t) => TheOnly(Filter(TrustMatches(t.id, upd), s.mvts))
  }

  predicate IsDarwinFor(m: TrainMvt, original: MvtId) {
    m.updates == Some(original) && m.source == Darwin
  }

  function NotDarwinFor(original: MvtId): TrainMvt -> bool {
    (m: TrainMvt) => !IsDarwinFor(m, original)
  }

  function DarwinRow(id: MvtId, original: TrainMvt, upd: DarwinUpdate): TrainMvt {
    TrainMvt(id, original.parentTrain, Some(original.id), upd.tiploc, upd.plannedAction, upd.timeActual,
             upd.updatedTime, None, upd.plannedDayOffset, Darwin, upd.platform, upd.platsup, upd.delayUnknown)
  }

  function TrustRow(id: MvtId, original: TrainMvt, upd: TrustUpdate): TrainMvt {
    TrainMvt(id, original.parentTrain, Some(original.id), original.tiploc, upd.plannedAction, true,
             upd.actualTime, upd.actualPublicTime, upd.plannedDayOffset, Trust, upd.platform, false, false)
  }

  /** `process_darwin_mvt_update`: the previous Darwin row of the original gives way. */
  function ProcessDarwin(s: Live, tsplId: Uuid, upd: DarwinUpdate): Outcome<Live> {
    match DarwinTarget(s, tsplId, upd)
    case Err(e) => Err(e)
    case Ok(original) =>
      var rest := Filter(NotDarwinFor(original.id), s.mvts);
      Ok(s.(mvts := rest + [DarwinRow(NextMvtId(rest), original, upd)]))
  }

  /** The unique index over rows that update something. */
  predicate SameIndexKey(m: TrainMvt, n: TrainMvt) {
    && m.updates.Some? && n.updates.Some?
    && m.parentTrain == n.parentTrain && m.updates == n.updates && m.tiploc == n.tiploc && m.action == n.action
    && m.time == n.time && m.dayOffset == n.dayOffset && m.source == n.source
  }

  predicate IndexHit(mvts: seq<TrainMvt>, row: TrainMvt) {
    exists m :: m in mvts && SameIndexKey(m, row)
  }

  /** `process_trust_mvt_update`. */
  function ProcessTrust(s: Live, tsplId: Uuid, upd: TrustUpdate): Outcome<Live> {
    match TrustTarget(s, tsplId, upd)
    case Err(e) => Err(e)
    case Ok(original) =>
      var row := TrustRow(NextMvtId(s.mvts), original, upd);
      if IndexHit(s.mvts, row) then Err(ConstraintViolated)
      else Ok(s.(mvts := s.mvts + [row]))
  }

  // ---- any transaction, by any caller ----

  datatype Event =
    | Activation(parent: ScheduleKey, date: int, newId: Uuid, mvts: seq<ScheduleMvt>)
    | RidAssigned(train: TrainId, rid: string)
    | TrustAssociated(tsplId: Uuid, trustId: string)
    | Termination(tsplId: Uuid)
    | Cancellation(tsplId: Uuid)
    | DarwinMessage(tsplId: Uuid, darwin: DarwinUpdate)
    | TrustMessage(tsplId: Uuid, trust: TrustUpdate)

  function Attempt(s: Live, e: Event): Outcome<Live> {
    match e
    case Activation(parent, date, newId, mvts) => Ok(Activate(s, parent, date, newId, Map(FromItps, mvts)))
    case RidAssigned(train, rid) => SetRid(s, train, rid)
    case TrustAssociated(tsplId, trustId) => UpdateByTspl(s, tsplId, TrustId(trustId))
    case Termination(tsplId) => UpdateByTspl(s, tsplId, Terminated)
    case Cancellation(tsplId) => UpdateByTspl(s, tsplId, Cancelled)
    case DarwinMessage(tsplId, upd) => ProcessDarwin(s, tsplId, upd)
    case TrustMessage(tsplId, upd) => ProcessTrust(s, tsplId, upd)
  }

  predicate Accepted(s: Live, e: Event) { Attempt(s, e).Ok? }

  /** A failed transaction changes nothing. */
  function Apply(s: Live, e: Event): Live {
    match Attempt(s, e)
    case Ok(s') => s'
    case Err(_) => s
  }

  /** Version-4 UUIDs are taken never to repeat. */
  predicate FreshId(s: Live, e: Event) {
    e.Activation? ==> forall t :: t in s.trains ==> t.tsplId != e.newId
  }

  // ---- the invariant ----

  /** Two rows of the train table, in rowid order: ids ascend, and the unique columns and
      the pair of parent schedule and date tell the rows apart. */
  predicate Apart(t: Train, u: Train) {
    && t.id.number < u.id.number
    && (t.parent, t.date) != (u.parent, u.date)
    && t.tsplId != u.tsplId
    && (t.darwinRid.Some? ==> t.darwinRid != u.darwinRid)
    && (t.trustId.Some? && t.date == u.date ==> t.trustId != u.trustId)
  }

  ghost predicate TrainsOk(trains: seq<Train>) {
    forall i, j :: 0 <= i < j < |trains| ==> Apart(trains[i], trains[j])
  }

  ghost predicate IsActivated(trains: seq<Train>, id: TrainId) {
    exists t :: t in trains && t.id == id && t.activated
  }

  /** `m` updates an original of its own train, at the same place and on the same day. */
  ghost predicate UpdatesOriginal(mvts: seq<TrainMvt>, m: TrainMvt) {
    exists o :: o in mvts && m.updates == Some(o.id) && o.updates == None
                && o.parentTrain == m.parentTrain && o.tiploc == m.tiploc && o.dayOffset == m.dayOffset
  }

  ghost predicate RowOk(trains: seq<Train>, mvts: seq<TrainMvt>, m: TrainMvt) {
    && IsActivated(trains, m.parentTrain)
    && if m.updates == None then m.source == SchedItps && !m.actual
       else (m.source == Darwin || m.source == Trust) && UpdatesOriginal(mvts, m)
  }

  ghost predicate IdsAscend(mvts: seq<TrainMvt>) {
    forall i, j :: 0 <= i < j < |mvts| ==> mvts[i].id.number < mvts[j].id.number
  }

  ghost predicate OneDarwinEach(mvts: seq<TrainMvt>) {
    forall i, j :: 0 <= i < j < |mvts| && mvts[i].source == Darwin && mvts[j].source == Darwin ==>
      mvts[i].updates != mvts[j].updates
  }

  ghost predicate MvtsOk(trains: seq<Train>, mvts: seq<TrainMvt>) {
    IdsAscend(mvts) && OneDarwinEach(mvts) && forall m :: m in mvts ==> RowOk(trains, mvts, m)
  }

  ghost predicate Consistent(s: Live) {
    TrainsOk(s.trains) && MvtsOk(s.trains, s.mvts)
  }
}
