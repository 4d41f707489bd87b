/** Theorems over every run: callers race, but transactions are exclusive, so a run is
    any sequence of transactions. */
module LiveRuns {
  import opened Options
  import opened Seqs
  import opened LiveTrains
  import opened LiveInvariants

  const EMPTY: Live := Live([], [])

  function Run(s: Live, es: seq<Event>): Live {
    if es == [] then s else Apply(Run(s, es[..|es| - 1]), es[|es| - 1])
  }

  /** Every activation along the run brings a UUID not seen before. */
  ghost predicate Fresh(s: Live, es: seq<Event>) {
    es == [] || (Fresh(s, es[..|es| - 1]) && FreshId(Run(s, es[..|es| - 1]), es[|es| - 1]))
  }

  lemma {:induction false} RunConsistent(s: Live, es: seq<Event>)
    requires Consistent(s) && Fresh(s, es)
    ensures Consistent(Run(s, es))
    decreases |es|
  {
    if es != [] {
      RunConsistent(s, es[..|es| - 1]);
      StepKeepsConsistent(Run(s, es[..|es| - 1]), es[|es| - 1]);
    }
  }

  // ---- activation ----

  function OriginalOf(t: TrainId): TrainMvt -> bool {
    (m: TrainMvt) => m.parentTrain == t && m.updates == None
  }

  /** The original movements of a train. */
  function Originals(s: Live, t: TrainId): seq<TrainMvt> {
    Filter(OriginalOf(t), s.mvts)
  }

  /** A row without the ids the database gave it. */
  function Unplaced(m: TrainMvt): TrainMvt {
    m.(id := MvtId(-1), parentTrain := TrainId(-1))
  }

  predicate IsFor(e: Event, parent: ScheduleKey, date: int) {
    e.Activation? && e.parent == parent && e.date == date
  }

  predicate Asked(es: seq<Event>, parent: ScheduleKey, date: int) {
    exists i :: 0 <= i < |es| && IsFor(es[i], parent, date)
  }

  /** The first non-empty list any activation of this schedule and date brought. */
  function FirstList(es: seq<Event>, parent: ScheduleKey, date: int): seq<ScheduleMvt> {
    if es == [] then []
    else
      var earlier := FirstList(es[..|es| - 1], parent, date);
      var last := es[|es| - 1];
      if earlier == [] && IsFor(last, parent, date) then last.mvts else earlier
  }

  /** The UUID brought by the first activation of this schedule and date. */
  function FirstUuid(es: seq<Event>, parent: ScheduleKey, date: int): Option<Uuid> {
    if es == [] then None
    else
      var earlier := FirstUuid(es[..|es| - 1], parent, date);
      var last := es[|es| - 1];
      if earlier == None && IsFor(last, parent, date) then Some(last.newId) else earlier
  }

  /** What the tables hold for one schedule and date, given the list copied so far. */
  ghost predicate HoldsActivation(s: Live, parent: ScheduleKey, date: int, uuid: Option<Uuid>,
                                  copied: seq<ScheduleMvt>) {
    match TrainFor(s.trains, parent, date)
    case None => uuid == None && copied == []
    case Some(t) =>
      && uuid == Some(t.tsplId)
      && (t.activated <==> copied != [])
      && Map(Unplaced, Originals(s, t.id)) == Map(FromItps, copied)
  }

  lemma {:induction false} PatchedTrainFor(trains: seq<Train>, id: TrainId, p: Patch, parent: ScheduleKey, date: int)
    ensures TrainFor(PatchTrain(trains, id, p), parent, date) ==
            match TrainFor(trains, parent, date)
            case None => None
            case Some(t) => Some(if t.id == id then Patched(t, p) else t)
    decreases |trains|
  {
    if trains != [] {
      PatchedTrainFor(trains[1..], id, p, parent, date);
      assert PatchTrain(trains, id, p)[1..] == PatchTrain(trains[1..], id, p);
    }
  }

  lemma {:induction false} AppendedTrainFor(trains: seq<Train>, t: Train, parent: ScheduleKey, date: int)
    ensures TrainFor(trains + [t], parent, date) ==
            if TrainFor(trains, parent, date).Some? then TrainFor(trains, parent, date)
            else if t.parent == parent && t.date == date then Some(t) else None
    decreases |trains|
  {
    if trains != [] {
      AppendedTrainFor(trains[1..], t, parent, date);
      assert (trains + [t])[1..] == trains[1..] + [t];
    } else {
      assert trains + [t] == [t];
    }
  }

  /** Updates of movements leave every original where it was. */
  lemma UpdatesKeepOriginals(s: Live, e: Event, t: TrainId)
    requires e.DarwinMessage? || e.TrustMessage?
    ensures Apply(s, e).trains == s.trains && Originals(Apply(s, e), t) == Originals(s, t)
  {
    if Accepted(s, e) {
      match e
      case DarwinMessage(tsplId, upd) =>
        var original := DarwinTarget(s, tsplId, upd).value;
        var rest := Filter(NotDarwinFor(original.id), s.mvts);
        FilterAppend(OriginalOf(t), rest, [DarwinRow(NextMvtId(rest), original, upd)]);
        FilterFilter(NotDarwinFor(original.id), OriginalOf(t), s.mvts);
      case TrustMessage(tsplId, upd) =>
        FilterAppend(OriginalOf(t), s.mvts, [TrustRow(NextMvtId(s.mvts), TrustTarget(s, tsplId, upd).value, upd)]);
    }
  }

  /** Copying appends the list to its own train's originals and to no other's. */
  lemma CopyOriginals(s: Live, id: TrainId, mvts: seq<ScheduleMvt>, t: TrainId)
    requires mvts != []
    ensures Originals(CopyInto(s, id, Map(FromItps, mvts)), t) ==
            Originals(s, t) + if t == id then CopiedRows(NextMvtId(s.mvts).number, id, Map(FromItps, mvts)) else []
  {
    var rows := CopiedRows(NextMvtId(s.mvts).number, id, Map(FromItps, mvts));
    FilterAppend(OriginalOf(t), s.mvts, rows);
    assert forall r :: r in rows ==> r.parentTrain == id && r.updates == None;
    if t == id {
      FilterAll(OriginalOf(t), rows);
    } else {
      FilterNone(OriginalOf(t), rows);
    }
  }

  lemma CopiedRowsUnplaced(first: int, t: TrainId, mvts: seq<ScheduleMvt>)
    ensures Map(Unplaced, CopiedRows(first, t, Map(FromItps, mvts))) == Map(FromItps, mvts)
  {
  }

  lemma NewTrainHasNoRows(s: Live)
    requires Consistent(s)
    ensures Originals(s, NextTrainId(s.trains)) == []
  {
    forall m | m in s.mvts ensures m.parentTrain != NextTrainId(s.trains) {
      assert RowOk(s.trains, s.mvts, m);
      var i :| 0 <= i < |s.trains| && s.trains[i].id == m.parentTrain;
      assert i < |s.trains| - 1 ==> Apart(s.trains[i], s.trains[|s.trains| - 1]);
    }
    FilterNone(OriginalOf(NextTrainId(s.trains)), s.mvts);
  }

  /** Copying a list into a train of this schedule and date. */
  lemma CopyHolds(s: Live, t: Train, mvts: seq<ScheduleMvt>, parent: ScheduleKey, date: int)
    requires TrainFor(s.trains, parent, date) == Some(t) && !t.activated && Originals(s, t.id) == []
    ensures HoldsActivation(CopyInto(s, t.id, Map(FromItps, mvts)), parent, date, Some(t.tsplId), mvts)
  {
    if mvts == [] {
      assert CopyInto(s, t.id, Map(FromItps, mvts)) == s;
    } else {
      var s' := CopyInto(s, t.id, Map(FromItps, mvts));
      PatchedTrainFor(s.trains, t.id, Activated, parent, date);
      assert TrainFor(s'.trains, parent, date) == Some(Patched(t, Activated));
      CopyOriginals(s, t.id, mvts, t.id);
      assert Originals(s', t.id) == CopiedRows(NextMvtId(s.mvts).number, t.id, Map(FromItps, mvts));
      CopiedRowsUnplaced(NextMvtId(s.mvts).number, t.id, mvts);
    }
  }

  /** Copying into another train does not concern this schedule and date. */
  lemma CopyElsewhereHolds(s: Live, other: Train, mvts: seq<ScheduleMvt>,
                           parent: ScheduleKey, date: int, uuid: Option<Uuid>, copied: seq<ScheduleMvt>)
    requires HoldsActivation(s, parent, date, uuid, copied)
    requires TrainFor(s.trains, parent, date).Some? ==> TrainFor(s.trains, parent, date).value.id != other.id
    ensures HoldsActivation(CopyInto(s, other.id, Map(FromItps, mvts)), parent, date, uuid, copied)
  {
    if mvts != [] {
      PatchedTrainFor(s.trains, other.id, Activated, parent, date);
      if TrainFor(s.trains, parent, date).Some? {
        CopyOriginals(s, other.id, mvts, TrainFor(s.trains, parent, date).value.id);
      }
    }
  }

  lemma ActivationStep(s: Live, e: Event, parent: ScheduleKey, date: int, uuid: Option<Uuid>, copied: seq<ScheduleMvt>)
    requires Consistent(s) && e.Activation? && HoldsActivation(s, parent, date, uuid, copied)
    ensures HoldsActivation(Apply(s, e), parent, date,
                            if uuid == None && IsFor(e, parent, date) then Some(e.newId) else uuid,
                            if copied == [] && IsFor(e, parent, date) then e.mvts else copied)
  {
    var found := TrainFor(s.trains, e.parent, e.date);
    var mine := TrainFor(s.trains, parent, date);
    if found.Some? {
      if IsFor(e, parent, date) {
        if !found.value.activated {
          assert Originals(s, found.value.id) == [] by {
            assert |Map(Unplaced, Originals(s, found.value.id))| == 0;
          }
          CopyHolds(s, found.value, e.mvts, parent, date);
        }
      } else if !found.value.activated {
        if mine.Some? && mine.value.id == found.value.id {
          IdsIdentify(s.trains, mine.value, found.value);
        }
        CopyElsewhereHolds(s, found.value, e.mvts, parent, date, uuid, copied);
      }
    } else {
      var t := NewTrain(NextTrainId(s.trains), e.newId, e.parent, e.date);
      var s' := s.(trains := s.trains + [t]);
      AppendedTrainFor(s.trains, t, parent, date);
      NewTrainHasNoRows(s);
      if IsFor(e, parent, date) {
        CopyHolds(s', t, e.mvts, parent, date);
      } else {
        if mine.Some? {
          var i :| 0 <= i < |s.trains| && s.trains[i] == mine.value;
          assert i < |s.trains| - 1 ==> Apart(s.trains[i], s.trains[|s.trains| - 1]);
        }
        CopyElsewhereHolds(s', t, e.mvts, parent, date, uuid, copied);
      }
    }
  }

  lemma OtherStep(s: Live, e: Event, parent: ScheduleKey, date: int, uuid: Option<Uuid>, copied: seq<ScheduleMvt>)
    requires !e.Activation? && HoldsActivation(s, parent, date, uuid, copied)
    ensures HoldsActivation(Apply(s, e), parent, date, uuid, copied)
  {
    if e.DarwinMessage? || e.TrustMessage? {
      match TrainFor(s.trains, parent, date)
      case Some(mine) => UpdatesKeepOriginals(s, e, mine.id);
      case None => UpdatesKeepOriginals(s, e, TrainId(0));
    } else if e.RidAssigned? {
      PatchedTrainFor(s.trains, e.train, DarwinRid(e.rid), parent, date);
    } else {
      UpdateHolds(s, e.tsplId, UpdatePatch(e), parent, date, uuid, copied);
    }
  }

  function UpdatePatch(e: Event): Patch
    requires e.TrustAssociated? || e.Termination? || e.Cancellation?
  {
    if e.TrustAssociated? then TrustId(e.trustId) else if e.Termination? then Terminated else Cancelled
  }

  lemma UpdateHolds(s: Live, tsplId: Uuid, p: Patch, parent: ScheduleKey, date: int, uuid: Option<Uuid>,
                    copied: seq<ScheduleMvt>)
    requires HoldsActivation(s, parent, date, uuid, copied) && !p.Activated?
    ensures UpdateByTspl(s, tsplId, p).Ok? ==>
            HoldsActivation(UpdateByTspl(s, tsplId, p).value, parent, date, uuid, copied)
  {
    if TrainByTspl(s.trains, tsplId).Some? {
      PatchedTrainFor(s.trains, TrainByTspl(s.trains, tsplId).value.id, p, parent, date);
    }
  }

  lemma {:induction false} AskedIffUuid(es: seq<Event>, parent: ScheduleKey, date: int)
    ensures Asked(es, parent, date) <==> FirstUuid(es, parent, date).Some?
    decreases |es|
  {
    if es != [] {
      var front := es[..|es| - 1];
      AskedIffUuid(front, parent, date);
      assert forall i :: 0 <= i < |front| ==> front[i] == es[i];
      if Asked(es, parent, date) {
        var i :| 0 <= i < |es| && IsFor(es[i], parent, date);
        assert i < |front| ==> IsFor(front[i], parent, date);
      }
      if Asked(front, parent, date) {
        var i :| 0 <= i < |front| && IsFor(front[i], parent, date);
        assert IsFor(es[i], parent, date);
      }
    }
  }

  lemma {:induction false} ActivationHeld(es: seq<Event>, parent: ScheduleKey, date: int)
    requires Fresh(EMPTY, es)
    ensures HoldsActivation(Run(EMPTY, es), parent, date, FirstUuid(es, parent, date), FirstList(es, parent, date))
    decreases |es|
  {
    if es != [] {
      var front, last := es[..|es| - 1], es[|es| - 1];
      ActivationHeld(front, parent, date);
      RunConsistent(EMPTY, front);
      if last.Activation? {
        ActivationStep(Run(EMPTY, front), last, parent, date, FirstUuid(front, parent, date),
                       FirstList(front, parent, date));
      } else {
        OtherStep(Run(EMPTY, front), last, parent, date, FirstUuid(front, parent, date),
                       FirstList(front, parent, date));
      }
    }
  }

  /** The row is the scheduled movement, copied for the train. */
  predicate IsCopy(m: TrainMvt, t: TrainId, x: ScheduleMvt) {
    && m.parentTrain == t && m.updates == None && m.source == SchedItps
    && m.tiploc == x.tiploc && m.action == x.action && m.time == x.time && m.dayOffset == x.dayOffset
    && m.publicTime == x.publicTime && m.platform == x.platform
    && !m.actual && !m.pfmSuppr && !m.unknownDelay
  }

  /** The train's original movements are these, in order. */
  ghost predicate OriginalsAre(s: Live, t: TrainId, list: seq<ScheduleMvt>) {
    |Originals(s, t)| == |list| && forall i :: 0 <= i < |list| ==> IsCopy(Originals(s, t)[i], t, list[i])
  }

  lemma HeldAreCopies(s: Live, t: TrainId, list: seq<ScheduleMvt>)
    requires Map(Unplaced, Originals(s, t)) == Map(FromItps, list)
    ensures OriginalsAre(s, t, list)
  {
    var rows := Originals(s, t);
    assert |rows| == |Map(Unplaced, rows)| == |list|;
    forall i | 0 <= i < |list| ensures IsCopy(rows[i], t, list[i]) {
      assert Map(Unplaced, rows)[i] == Unplaced(rows[i]) && Map(FromItps, list)[i] == FromItps(list[i]);
      assert rows[i] in rows;
    }
  }

  /** However the callers race, a schedule and date have a train exactly when someone has
      asked for its activation; the train keeps the UUID of the first request; it is
      activated exactly when some request brought movements, and its original movements
      are then those of the first such request, copied once, in order. */
  lemma ActivationByFirstList(es: seq<Event>, parent: ScheduleKey, date: int)
    requires Fresh(EMPTY, es)
    ensures match TrainFor(Run(EMPTY, es).trains, parent, date)
            case None => FirstUuid(es, parent, date) == None && FirstList(es, parent, date) == []
            case Some(t) =>
              && FirstUuid(es, parent, date) == Some(t.tsplId)
              && (t.activated <==> FirstList(es, parent, date) != [])
              && OriginalsAre(Run(EMPTY, es), t.id, FirstList(es, parent, date))
  {
    ActivationHeld(es, parent, date);
    match TrainFor(Run(EMPTY, es).trains, parent, date)
    case None =>
    case Some(t) => HeldAreCopies(Run(EMPTY, es), t.id, FirstList(es, parent, date));
  }

  lemma UnactivatedHasNoRows(s: Live, t: Train)
    requires Consistent(s) && t in s.trains && !t.activated
    ensures Originals(s, t.id) == []
  {
    forall m | m in s.mvts ensures m.parentTrain != t.id {
      assert RowOk(s.trains, s.mvts, m);
      var u :| u in s.trains && u.id == m.parentTrain && u.activated;
      if u.id == t.id {
        IdsIdentify(s.trains, u, t);
      }
    }
    FilterNone(OriginalOf(t.id), s.mvts);
  }

  /** One activation that brings movements gives them, field by field, to a train that had
      none yet. */
  lemma ActivationCopies(s: Live, e: Event)
    requires Consistent(s) && e.Activation? && e.mvts != []
    requires TrainFor(s.trains, e.parent, e.date).Some? ==> !TrainFor(s.trains, e.parent, e.date).value.activated
    ensures var t := TrainFor(Apply(s, e).trains, e.parent, e.date);
            t.Some? && t.value.activated && OriginalsAre(Apply(s, e), t.value.id, e.mvts)
  {
    match TrainFor(s.trains, e.parent, e.date)
    case Some(t) =>
      UnactivatedHasNoRows(s, t);
      CopyGives(s, t, e.mvts, e.parent, e.date);
      assert Apply(s, e) == CopyInto(s, t.id, Map(FromItps, e.mvts));
    case None =>
      var t := NewTrain(NextTrainId(s.trains), e.newId, e.parent, e.date);
      var s' := s.(trains := s.trains + [t]);
      AppendedTrainFor(s.trains, t, e.parent, e.date);
      NewTrainHasNoRows(s);
      CopyGives(s', t, e.mvts, e.parent, e.date);
      assert Apply(s, e) == CopyInto(s', t.id, Map(FromItps, e.mvts));
  }

  lemma CopyGives(s: Live, t: Train, mvts: seq<ScheduleMvt>, parent: ScheduleKey, date: int)
    requires TrainFor(s.trains, parent, date) == Some(t) && Originals(s, t.id) == [] && mvts != []
    ensures var s' := CopyInto(s, t.id, Map(FromItps, mvts));
            && TrainFor(s'.trains, parent, date) == Some(Patched(t, Activated))
            && OriginalsAre(s', t.id, mvts)
  {
    PatchedTrainFor(s.trains, t.id, Activated, parent, date);
    CopyOriginals(s, t.id, mvts, t.id);
    CopiedRowsUnplaced(NextMvtId(s.mvts).number, t.id, mvts);
    HeldAreCopies(CopyInto(s, t.id, Map(FromItps, mvts)), t.id, mvts);
  }

  // ---- identity of trains ----

  predicate Associates(s: Live, e: Event, tsplId: Uuid) {
    e.TrustAssociated? && e.tsplId == tsplId && Accepted(s, e)
  }

  predicate AssignsRid(s: Live, e: Event, id: TrainId) {
    e.RidAssigned? && e.train == id && Accepted(s, e) && exists t :: t in s.trains && t.id == id
  }

  /** One transaction keeps every train: its ids and key stay, `activated` never goes back,
      the movements of an activated train stay, and the TRUST and Darwin ids change only
      when they are assigned. */
  ghost predicate KeepsTrain(s: Live, e: Event, t: Train, t': Train) {
    && t'.id == t.id && t'.tsplId == t.tsplId && t'.parent == t.parent && t'.date == t.date
    && (t.activated ==> t'.activated && Originals(Apply(s, e), t.id) == Originals(s, t.id))
    && t'.trustId == (if Associates(s, e, t.tsplId) then Some(e.trustId) else t.trustId)
    && t'.darwinRid == (if AssignsRid(s, e, t.id) then Some(e.rid) else t.darwinRid)
  }

  lemma StepKeepsTrain(s: Live, e: Event, t: Train)
    requires Consistent(s) && FreshId(s, e) && t in s.trains
    ensures TrainFor(Apply(s, e).trains, t.parent, t.date).Some?
    ensures KeepsTrain(s, e, t, TrainFor(Apply(s, e).trains, t.parent, t.date).value)
  {
    OnlyTrainFor(s.trains, t);
    if e.Activation? {
      ActivationKeepsTrain(s, e, t);
    } else if e.RidAssigned? {
      RidKeepsTrain(s, e, t);
    } else if e.DarwinMessage? || e.TrustMessage? {
      UpdatesKeepOriginals(s, e, t.id);
    } else {
      UpdateKeepsTrain(s, e, t);
    }
  }

  lemma RidKeepsTrain(s: Live, e: Event, t: Train)
    requires e.RidAssigned? && t in s.trains && TrainFor(s.trains, t.parent, t.date) == Some(t)
    ensures TrainFor(Apply(s, e).trains, t.parent, t.date).Some?
    ensures KeepsTrain(s, e, t, TrainFor(Apply(s, e).trains, t.parent, t.date).value)
  {
    PatchedTrainFor(s.trains, e.train, DarwinRid(e.rid), t.parent, t.date);
  }

  lemma UpdatedTrain(s: Live, tsplId: Uuid, p: Patch, t: Train)
    requires Consistent(s) && t in s.trains && UpdateByTspl(s, tsplId, p).Ok?
    ensures UpdateByTspl(s, tsplId, p).value.mvts == s.mvts
    ensures TrainFor(UpdateByTspl(s, tsplId, p).value.trains, t.parent, t.date) ==
            Some(if t.tsplId == tsplId then Patched(t, p) else t)
  {
    var named := TrainByTspl(s.trains, tsplId).value;
    OnlyTrainFor(s.trains, t);
    PatchedTrainFor(s.trains, named.id, p, t.parent, t.date);
    if named.id == t.id {
      IdsIdentify(s.trains, named, t);
    }
  }

  lemma UpdateKeepsTrain(s: Live, e: Event, t: Train)
    requires Consistent(s) && t in s.trains && TrainFor(s.trains, t.parent, t.date) == Some(t)
    requires e.TrustAssociated? || e.Termination? || e.Cancellation?
    ensures TrainFor(Apply(s, e).trains, t.parent, t.date).Some?
    ensures KeepsTrain(s, e, t, TrainFor(Apply(s, e).trains, t.parent, t.date).value)
  {
    assert Attempt(s, e) == UpdateByTspl(s, e.tsplId, UpdatePatch(e));
    if Accepted(s, e) {
      UpdatedTrain(s, e.tsplId, UpdatePatch(e), t);
    }
  }

  lemma ActivationKeepsTrain(s: Live, e: Event, t: Train)
    requires Consistent(s) && FreshId(s, e) && e.Activation? && t in s.trains
    requires TrainFor(s.trains, t.parent, t.date) == Some(t)
    ensures TrainFor(Apply(s, e).trains, t.parent, t.date).Some?
    ensures KeepsTrain(s, e, t, TrainFor(Apply(s, e).trains, t.parent, t.date).value)
  {
    match TrainFor(s.trains, e.parent, e.date)
    case Some(u) =>
      if !u.activated && e.mvts != [] {
        PatchedTrainFor(s.trains, u.id, Activated, t.parent, t.date);
        CopyKeepsTrain(s, u, e.mvts, t);
      }
    case None =>
      var u := NewTrain(NextTrainId(s.trains), e.newId, e.parent, e.date);
      var s' := s.(trains := s.trains + [u]);
      AppendedTrainFor(s.trains, u, t.parent, t.date);
      NextIdUnused(s.trains, t);
      if e.mvts != [] {
        PatchedTrainFor(s'.trains, u.id, Activated, t.parent, t.date);
        CopyOriginals(s', u.id, e.mvts, t.id);
      }
  }

  lemma NextIdUnused(trains: seq<Train>, t: Train)
    requires TrainsOk(trains) && t in trains
    ensures t.id != NextTrainId(trains)
  {
    var i :| 0 <= i < |trains| && trains[i] == t;
    assert i < |trains| - 1 ==> Apart(trains[i], trains[|trains| - 1]);
  }

  /** Copying into a train that is not activated leaves the movements of activated ones. */
  lemma CopyKeepsTrain(s: Live, u: Train, mvts: seq<ScheduleMvt>, t: Train)
    requires TrainsOk(s.trains) && u in s.trains && t in s.trains && !u.activated && mvts != []
    ensures u.id == t.id ==> u == t
    ensures t.activated ==> Originals(CopyInto(s, u.id, Map(FromItps, mvts)), t.id) == Originals(s, t.id)
  {
    if u.id == t.id {
      IdsIdentify(s.trains, u, t);
    } else {
      CopyOriginals(s, u.id, mvts, t.id);
    }
  }

  /** The TRUST id last assigned to a train, by UUID. */
  function LastTrust(s: Live, es: seq<Event>, tsplId: Uuid): Option<string> {
    if es == [] then None
    else if Associates(Run(s, es[..|es| - 1]), es[|es| - 1], tsplId) then Some(es[|es| - 1].trustId)
    else LastTrust(s, es[..|es| - 1], tsplId)
  }

  /** The Darwin id last assigned to a train, by rowid. */
  function LastRid(s: Live, es: seq<Event>, id: TrainId): Option<string> {
    if es == [] then None
    else if AssignsRid(Run(s, es[..|es| - 1]), es[|es| - 1], id) then Some(es[|es| - 1].rid)
    else LastRid(s, es[..|es| - 1], id)
  }

  /** Ids are only ever assigned to trains that exist, and trains are never removed. */
  lemma {:induction false} AssignedToExisting(es: seq<Event>, tsplId: Uuid, id: TrainId)
    requires Fresh(EMPTY, es)
    ensures LastTrust(EMPTY, es, tsplId).Some? ==> exists t :: t in Run(EMPTY, es).trains && t.tsplId == tsplId
    ensures LastRid(EMPTY, es, id).Some? ==> exists t :: t in Run(EMPTY, es).trains && t.id == id
    decreases |es|
  {
    if es != [] {
      var front, last := es[..|es| - 1], es[|es| - 1];
      var s := Run(EMPTY, front);
      AssignedToExisting(front, tsplId, id);
      RunConsistent(EMPTY, front);
      if LastTrust(EMPTY, es, tsplId).Some? {
        var t :| t in s.trains && t.tsplId == tsplId;
        StepKeepsTrain(s, last, t);
      }
      if LastRid(EMPTY, es, id).Some? {
        var t :| t in s.trains && t.id == id;
        StepKeepsTrain(s, last, t);
      }
    }
  }

  /** A train found after a transaction was there before it, or was just created. */
  lemma TrainBefore(s: Live, e: Event, t': Train)
    requires Consistent(s) && FreshId(s, e) && t' in Apply(s, e).trains
    ensures TrainFor(s.trains, t'.parent, t'.date).None? ==>
              (forall t :: t in s.trains ==> t.id != t'.id && t.tsplId != t'.tsplId) && t'.trustId == None
                  && t'.darwinRid == None && !t'.terminated && !t'.cancelled
  {
    StepKeepsConsistent(s, e);
    if TrainFor(s.trains, t'.parent, t'.date).None? {
      OnlyTrainFor(Apply(s, e).trains, t');
      forall t | t in s.trains ensures t.id != t'.id && t.tsplId != t'.tsplId {
        StepKeepsTrain(s, e, t);
        var u := TrainFor(Apply(s, e).trains, t.parent, t.date).value;
        if u.id == t'.id {
          IdsIdentify(Apply(s, e).trains, u, t');
        }
        if u.tsplId == t'.tsplId {
          OnlyTrainFor(Apply(s, e).trains, u);
        }
      }
      CreatedBlank(s, e, t');
    }
  }

  lemma CreatedBlank(s: Live, e: Event, t': Train)
    requires TrainFor(s.trains, t'.parent, t'.date).None?
    requires TrainFor(Apply(s, e).trains, t'.parent, t'.date) == Some(t')
    ensures t'.trustId == None && t'.darwinRid == None && !t'.terminated && !t'.cancelled
  {
    match e
    case Activation(parent, date, newId, mvts) =>
      match TrainFor(s.trains, parent, date) {
        case Some(u) => PatchedTrainFor(s.trains, u.id, Activated, t'.parent, t'.date);
        case None =>
          var u := NewTrain(NextTrainId(s.trains), newId, parent, date);
          AppendedTrainFor(s.trains, u, t'.parent, t'.date);
          PatchedTrainFor(s.trains + [u], u.id, Activated, t'.parent, t'.date);
      }
    case RidAssigned(train, rid) => PatchedTrainFor(s.trains, train, DarwinRid(rid), t'.parent, t'.date);
    case DarwinMessage(_, _) => UpdatesKeepOriginals(s, e, t'.id);
    case TrustMessage(_, _) => UpdatesKeepOriginals(s, e, t'.id);
    case TrustAssociated(tsplId, _) => UpdateCreatesNothing(s, e, t');
    case Termination(tsplId) => UpdateCreatesNothing(s, e, t');
    case Cancellation(tsplId) => UpdateCreatesNothing(s, e, t');
  }

  lemma UpdateCreatesNothing(s: Live, e: Event, t': Train)
    requires e.TrustAssociated? || e.Termination? || e.Cancellation?
    requires TrainFor(s.trains, t'.parent, t'.date).None?
    ensures TrainFor(Apply(s, e).trains, t'.parent, t'.date).None?
  {
    var named := TrainByTspl(s.trains, e.tsplId);
    if named.Some? {
      PatchedTrainFor(s.trains, named.value.id, UpdatePatch(e), t'.parent, t'.date);
    }
  }

  /** Over every run, each train carries exactly the ids last assigned to it: whichever of
      TRUST and Darwin comes first, both ids end up on the one train of the schedule and date. */
  lemma {:induction false} IdsByLastAssignment(es: seq<Event>, parent: ScheduleKey, date: int)
    requires Fresh(EMPTY, es) && TrainFor(Run(EMPTY, es).trains, parent, date).Some?
    ensures var t := TrainFor(Run(EMPTY, es).trains, parent, date).value;
            t.trustId == LastTrust(EMPTY, es, t.tsplId) && t.darwinRid == LastRid(EMPTY, es, t.id)
    decreases |es|
  {
    if es != [] {
      var front, last := es[..|es| - 1], es[|es| - 1];
      var s := Run(EMPTY, front);
      var t' := TrainFor(Run(EMPTY, es).trains, parent, date).value;
      RunConsistent(EMPTY, front);
      match TrainFor(s.trains, parent, date)
      case Some(t) =>
        IdsByLastAssignment(front, parent, date);
        StepKeepsTrain(s, last, t);
      case None =>
        TrainBefore(s, last, t');
        AssignedToExisting(front, t'.tsplId, t'.id);
    }
  }
  // ---- terminated and cancelled ----

  predicate Exists(trains: seq<Train>, tsplId: Uuid) {
    exists t :: t in trains && t.tsplId == tsplId
  }

  /** The event came at some point of the run, when the train was stored. */
  predicate Befell(s: Live, es: seq<Event>, tsplId: Uuid, e: Event) {
    es != []
    && (Befell(s, es[..|es| - 1], tsplId, e)
        || (es[|es| - 1] == e && Exists(Run(s, es[..|es| - 1]).trains, tsplId)))
  }

  /** The transaction terminates or cancels the train if it names it, and not otherwise. */
  predicate FlagsFollow(e: Event, t: Train, t': Train) {
    && t'.terminated == (t.terminated || e == Termination(t.tsplId))
    && t'.cancelled == (t.cancelled || e == Cancellation(t.tsplId))
  }

  lemma StepKeepsFlags(s: Live, e: Event, t: Train)
    requires Consistent(s) && t in s.trains
    ensures TrainFor(Apply(s, e).trains, t.parent, t.date).Some?
    ensures FlagsFollow(e, t, TrainFor(Apply(s, e).trains, t.parent, t.date).value)
  {
    OnlyTrainFor(s.trains, t);
    if e.Activation? {
      ActivationKeepsFlags(s, e, t);
    } else if e.RidAssigned? {
      RidKeepsFlags(s, e, t);
    } else if e.DarwinMessage? || e.TrustMessage? {
      UpdatesKeepOriginals(s, e, t.id);
    } else {
      UpdateKeepsFlags(s, e, t);
    }
  }

  lemma RidKeepsFlags(s: Live, e: Event, t: Train)
    requires e.RidAssigned? && TrainFor(s.trains, t.parent, t.date) == Some(t)
    ensures TrainFor(Apply(s, e).trains, t.parent, t.date).Some?
    ensures FlagsFollow(e, t, TrainFor(Apply(s, e).trains, t.parent, t.date).value)
  {
    PatchedTrainFor(s.trains, e.train, DarwinRid(e.rid), t.parent, t.date);
  }

  lemma UpdateKeepsFlags(s: Live, e: Event, t: Train)
    requires Consistent(s) && t in s.trains && TrainFor(s.trains, t.parent, t.date) == Some(t)
    requires e.TrustAssociated? || e.Termination? || e.Cancellation?
    ensures TrainFor(Apply(s, e).trains, t.parent, t.date).Some?
    ensures FlagsFollow(e, t, TrainFor(Apply(s, e).trains, t.parent, t.date).value)
  {
    assert Attempt(s, e) == UpdateByTspl(s, e.tsplId, UpdatePatch(e));
    if Accepted(s, e) {
      UpdatedTrain(s, e.tsplId, UpdatePatch(e), t);
    }
  }

  lemma ActivationKeepsFlags(s: Live, e: Event, t: Train)
    requires e.Activation? && TrainFor(s.trains, t.parent, t.date) == Some(t)
    ensures TrainFor(Apply(s, e).trains, t.parent, t.date).Some?
    ensures FlagsFollow(e, t, TrainFor(Apply(s, e).trains, t.parent, t.date).value)
  {
    match TrainFor(s.trains, e.parent, e.date)
    case Some(u) => PatchedTrainFor(s.trains, u.id, Activated, t.parent, t.date);
    case None =>
      var u := NewTrain(NextTrainId(s.trains), e.newId, e.parent, e.date);
      AppendedTrainFor(s.trains, u, t.parent, t.date);
      PatchedTrainFor(s.trains + [u], u.id, Activated, t.parent, t.date);
  }

  lemma {:induction false} BefellExisting(es: seq<Event>, tsplId: Uuid, e: Event)
    requires Fresh(EMPTY, es) && Befell(EMPTY, es, tsplId, e)
    ensures Exists(Run(EMPTY, es).trains, tsplId)
    decreases |es|
  {
    var front, last := es[..|es| - 1], es[|es| - 1];
    var s := Run(EMPTY, front);
    if Befell(EMPTY, front, tsplId, e) {
      BefellExisting(front, tsplId, e);
    }
    RunConsistent(EMPTY, front);
    var t :| t in s.trains && t.tsplId == tsplId;
    StepKeepsTrain(s, last, t);
  }

  /** Over every run a train is terminated, or cancelled, exactly when it was asked for by its
      UUID while the train was stored; a new train is neither. */
  lemma {:induction false} FlagsByEvents(es: seq<Event>, parent: ScheduleKey, date: int)
    requires Fresh(EMPTY, es) && TrainFor(Run(EMPTY, es).trains, parent, date).Some?
    ensures var t := TrainFor(Run(EMPTY, es).trains, parent, date).value;
            && (t.terminated <==> Befell(EMPTY, es, t.tsplId, Termination(t.tsplId)))
            && (t.cancelled <==> Befell(EMPTY, es, t.tsplId, Cancellation(t.tsplId)))
    decreases |es|
  {
    if es != [] {
      var front, last := es[..|es| - 1], es[|es| - 1];
      var s := Run(EMPTY, front);
      var t' := TrainFor(Run(EMPTY, es).trains, parent, date).value;
      RunConsistent(EMPTY, front);
      match TrainFor(s.trains, parent, date)
      case Some(t) =>
        FlagsByEvents(front, parent, date);
        StepKeepsTrain(s, last, t);
        StepKeepsFlags(s, last, t);
        assert Exists(s.trains, t.tsplId);
      case None =>
        TrainBefore(s, last, t');
        NotBefallen(front, t'.tsplId, Termination(t'.tsplId));
        NotBefallen(front, t'.tsplId, Cancellation(t'.tsplId));
    }
  }

  lemma NotBefallen(es: seq<Event>, tsplId: Uuid, e: Event)
    requires Fresh(EMPTY, es) && !Exists(Run(EMPTY, es).trains, tsplId)
    ensures !Befell(EMPTY, es, tsplId, e)
  {
    if Befell(EMPTY, es, tsplId, e) {
      BefellExisting(es, tsplId, e);
    }
  }
}
