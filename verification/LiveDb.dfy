/** The transactions of tspl-zugfuhrer as they run, against the tables in place. */
module LiveDb {
  import opened Options
  import opened Seqs
  import opened LiveTrains
  import opened LiveInvariants
  import opened LiveRuns
  import opened LiveUpdates

  /** Another train of the same day carries the TRUST id, or any other train the Darwin id. */
  predicate Clashes(trains: seq<Train>, t: Train, p: Patch) {
    || (p.TrustId? && exists u :: u in trains && u.id != t.id && u.date == t.date && u.trustId == Some(p.trustId))
    || (p.DarwinRid? && exists u :: u in trains && u.id != t.id && u.darwinRid == Some(p.rid))
  }

  lemma NamedOnce(trains: seq<Train>, t: Train)
    requires TrainsOk(trains) && t in trains
    ensures forall u :: u in trains && (u.tsplId == t.tsplId || u.id == t.id) ==> u == t
  {
    forall u | u in trains && (u.tsplId == t.tsplId || u.id == t.id) ensures u == t {
      OnlyTrainFor(trains, t);
      OnlyTrainFor(trains, u);
      if u.id == t.id {
        IdsIdentify(trains, u, t);
      }
    }
  }

  /** Patching by UUID is patching by id. */
  lemma SamePatch(trains: seq<Train>, after: seq<Train>, t: Train, p: Patch)
    requires TrainsOk(trains) && t in trains && |after| == |trains|
    requires forall k :: 0 <= k < |trains| ==>
               after[k] == if trains[k].tsplId == t.tsplId then Patched(trains[k], p) else trains[k]
    ensures after == PatchTrain(trains, t.id, p)
  {
    NamedOnce(trains, t);
    forall k | 0 <= k < |trains| ensures after[k] == PatchTrain(trains, t.id, p)[k] {
      assert trains[k] in trains;
    }
  }

  /** No train yet, or one without movements. */
  predicate NeedsMovements(trains: seq<Train>, parent: ScheduleKey, date: int) {
    TrainFor(trains, parent, date).Some? ==> !TrainFor(trains, parent, date).value.activated
  }

  /** The train's original movements are this list. */
  ghost predicate Given(s: Live, parent: ScheduleKey, date: int, list: seq<ScheduleMvt>) {
    TrainFor(s.trains, parent, date).Some? && OriginalsAre(s, TrainFor(s.trains, parent, date).value.id, list)
  }

  lemma RidKeepsGiven(s: Live, id: TrainId, rid: string, parent: ScheduleKey, date: int, list: seq<ScheduleMvt>)
    requires Given(s, parent, date, list)
    ensures Given(Apply(s, RidAssigned(id, rid)), parent, date, list)
  {
    var t, after := TrainFor(s.trains, parent, date).value, Apply(s, RidAssigned(id, rid));
    PatchedTrainFor(s.trains, id, DarwinRid(rid), parent, date);
    assert after.mvts == s.mvts && TrainFor(after.trains, parent, date).value.id == t.id;
    assert Originals(after, t.id) == Originals(s, t.id);
  }

  lemma GivesMovements(s: Live, e: Event, rid: string)
    requires e.Activation? && TrainFor(Apply(s, e).trains, e.parent, e.date).Some?
    ensures var id := TrainFor(Apply(s, e).trains, e.parent, e.date).value.id;
            Consistent(s) && e.mvts != [] && NeedsMovements(s.trains, e.parent, e.date) ==>
              Given(Apply(Apply(s, e), RidAssigned(id, rid)), e.parent, e.date, e.mvts)
  {
    if Consistent(s) && e.mvts != [] && NeedsMovements(s.trains, e.parent, e.date) {
      ActivationCopies(s, e);
      RidKeepsGiven(Apply(s, e), TrainFor(Apply(s, e).trains, e.parent, e.date).value.id, rid, e.parent, e.date,
          e.mvts);
    }
  }

  lemma DarwinMeans(s: Live, tsplId: Uuid, upd: DarwinUpdate)
    requires Consistent(s)
    ensures Accepted(s, DarwinMessage(tsplId, upd)) <==> exists o :: SoleDarwinOriginal(s, tsplId, upd, o)
    ensures var mvts := Apply(s, DarwinMessage(tsplId, upd)).mvts;
            Accepted(s, DarwinMessage(tsplId, upd)) && mvts != [] ==>
              exists o :: SoleDarwinOriginal(s, tsplId, upd, o) && ReportsDarwin(mvts[|mvts| - 1], o.id, upd)
  {
    DarwinAcceptedIff(s, tsplId, upd);
    if Accepted(s, DarwinMessage(tsplId, upd)) {
      var o :| SoleDarwinOriginal(s, tsplId, upd, o);
      DarwinStores(s, tsplId, upd, o);
    }
  }

  lemma TrustMeans(s: Live, tsplId: Uuid, upd: TrustUpdate)
    requires Consistent(s)
    ensures Accepted(s, TrustMessage(tsplId, upd)) <==>
            exists o :: SoleTrustOriginal(s, tsplId, upd, o) && !ReportedAlready(s, o, upd)
    ensures var mvts := Apply(s, TrustMessage(tsplId, upd)).mvts;
            Accepted(s, TrustMessage(tsplId, upd)) && mvts != [] ==>
              exists o :: SoleTrustOriginal(s, tsplId, upd, o) && ReportsTrust(mvts[|mvts| - 1], o.id, upd)
  {
    TrustAcceptedIff(s, tsplId, upd);
    if Accepted(s, TrustMessage(tsplId, upd)) {
      var o :| SoleTrustOriginal(s, tsplId, upd, o) && !ReportedAlready(s, o, upd);
      TrustStores(s, tsplId, upd, o);
    }
  }

  class TrainTables {
    var trains: seq<Train>
    var mvts: seq<TrainMvt>

    constructor ()
      ensures Contents() == EMPTY
    {
      trains, mvts := [], [];
    }

    function Contents(): Live
      reads this
    {
      Live(trains, mvts)
    }

    /** `activate_lowlevel`: idempotent, and atomic under the exclusive lock. */
    method ActivateLowlevel(parent: ScheduleKey, date: int, newId: Uuid, rows: seq<TrainMvt>) returns (train: Train)
      modifies this
      ensures Contents() == Activate(old(Contents()), parent, date, newId, rows)
      ensures TrainFor(trains, parent, date) == Some(train)
    {
      var possible := TrainFor(trains, parent, date);
      if possible.Some? {
        train := possible.value;
        if train.activated || rows == [] {
          return;
        }
      } else {
        train := NewTrain(NextTrainId(trains), newId, parent, date);
        AppendedTrainFor(trains, train, parent, date);
        trains := trains + [train];
      }
      if !train.activated && rows != [] {
        CopyMovements(train.id, rows);
        PatchedTrainFor(trains, train.id, Activated, parent, date);
        trains := PatchTrain(trains, train.id, Activated);
        train := train.(activated := true);
      }
    }

    method CopyMovements(train: TrainId, rows: seq<TrainMvt>)
      modifies this`mvts
      ensures mvts == old(mvts) + CopiedRows(NextMvtId(old(mvts)).number, train, rows)
    {
      ghost var first := NextMvtId(mvts).number;
      for i := 0 to |rows|
        invariant mvts == old(mvts) + CopiedRows(first, train, rows[..i])
        invariant NextMvtId(mvts) == MvtId(first + i)
      {
        var mvt := rows[i].(id := NextMvtId(mvts), parentTrain := train);
        assert CopiedRows(first, train, rows[..i + 1]) == CopiedRows(first, train, rows[..i]) + [mvt];
        mvts := mvts + [mvt];
      }
      assert rows[..|rows|] == rows;
    }

    /** `associate_trust_id`, `terminate_train` and `cancel_train`: the column is set in the
        row with the UUID and nowhere else. Refused when no row has it, or when a column that
        is unique would repeat. */
    method UpdateTrain(tsplId: Uuid, p: Patch) returns (r: Outcome<()>)
      requires TrainsOk(trains) && !p.Activated?
      modifies this`trains
      ensures TrainsOk(trains)
      ensures r == Err(NotFound) <==> forall t :: t in old(trains) ==> t.tsplId != tsplId
      ensures r == Err(ConstraintViolated) <==>
                exists t :: t in old(trains) && t.tsplId == tsplId && Clashes(old(trains), t, p)
      ensures r.Err? ==> (r.error == NotFound || r.error == ConstraintViolated) && trains == old(trains)
      ensures r.Ok? ==> |trains| == |old(trains)| && forall i :: 0 <= i < |trains| ==>
                trains[i] == if old(trains)[i].tsplId == tsplId then Patched(old(trains)[i], p) else old(trains)[i]
      ensures r.Ok? <==> UpdateByTspl(old(Contents()), tsplId, p) == Ok(Contents())
    {
      ghost var before := trains;
      var named := TrainByTspl(trains, tsplId);
      if named == None {
        return Err(NotFound);
      }
      NamedOnce(trains, named.value);
      if Clashes(trains, named.value, p) {
        return Err(ConstraintViolated);
      }
      var after := [];
      for i := 0 to |trains|
        invariant |after| == i
        invariant forall k :: 0 <= k < i ==>
                    after[k] == if trains[k].tsplId == tsplId then Patched(trains[k], p) else trains[k]
      {
        after := after + [if trains[i].tsplId == tsplId then Patched(trains[i], p) else trains[i]];
      }
      SamePatch(trains, after, named.value, p);
      PatchKeepsTrains(trains, named.value.id, p);
      trains := after;
      r := Ok(());
    }

    /** `activate_train_darwin`: two transactions, so the activation stays even when the
        Darwin id is refused. */
    method ActivateTrainDarwin(parent: ScheduleKey, date: int, newId: Uuid, list: seq<ScheduleMvt>, rid: string)
      returns (r: Outcome<Train>)
      modifies this
      ensures TrainFor(Apply(old(Contents()), Activation(parent, date, newId, list)).trains, parent, date).Some?
      ensures var activated := Apply(old(Contents()), Activation(parent, date, newId, list));
              var train := TrainFor(activated.trains, parent, date).value;
              && Contents() == Apply(activated, RidAssigned(train.id, rid))
              && r == if Accepted(activated, RidAssigned(train.id, rid)) then Ok(train.(darwinRid := Some(rid)))
                      else Err(ConstraintViolated)
      ensures var activated := Apply(old(Contents()), Activation(parent, date, newId, list));
              var train := TrainFor(activated.trains, parent, date).value;
              r.Ok? <==> forall u :: u in activated.trains && u.darwinRid == Some(rid) ==> u.id == train.id
      ensures Consistent(old(Contents())) && list != [] && NeedsMovements(old(trains), parent, date) ==>
                Given(Contents(), parent, date, list)
    {
      ghost var before := Contents();
      var train := ActivateLowlevel(parent, date, newId, Map(FromItps, list));
      GivesMovements(before, Activation(parent, date, newId, list), rid);
      match SetRid(Contents(), train.id, rid)
      case Err(e) => r := Err(e);
      case Ok(s) =>
        trains := s.trains;
        r := Ok(train.(darwinRid := Some(rid)));
    }

    method ProcessDarwinMvtUpdate(tsplId: Uuid, upd: DarwinUpdate) returns (r: Outcome<TrainMvt>)
      modifies this`mvts
      ensures Contents() == Apply(old(Contents()), DarwinMessage(tsplId, upd))
      ensures r.Ok? <==> Accepted(old(Contents()), DarwinMessage(tsplId, upd))
      ensures r.Ok? ==> mvts != [] && mvts[|mvts| - 1] == r.value && r.value.source == Darwin
      ensures r.Err? ==> ProcessDarwin(old(Contents()), tsplId, upd) == Err(r.error)
      ensures Consistent(old(Contents())) ==>
                (r.Ok? <==> exists o :: SoleDarwinOriginal(old(Contents()), tsplId, upd, o))
      ensures Consistent(old(Contents())) && r.Ok? ==>
                exists o :: SoleDarwinOriginal(old(Contents()), tsplId, upd, o) && ReportsDarwin(r.value, o.id, upd)
    {
      ghost var before := Contents();
      if Consistent(before) {
        DarwinMeans(before, tsplId, upd);
      }
      var train := TrainByTspl(trains, tsplId);
      if train == None {
        return Err(NotFound);
      }
      var found := Filter(DarwinMatches(train.value.id, upd), mvts);
      if |found| > 1 {
        return Err(MovementsAmbiguous);
      }
      if found == [] {
        return Err(MovementsNotFound);
      }
      var updates := found[0];
      mvts := Filter(NotDarwinFor(updates.id), mvts);
      var tmvt := TrainMvt(NextMvtId(mvts), train.value.id, Some(updates.id), upd.tiploc, upd.plannedAction,
                           upd.timeActual, upd.updatedTime, None, upd.plannedDayOffset, Darwin, upd.platform,
                           upd.platsup, upd.delayUnknown);
      assert updates in found;
      mvts := mvts + [tmvt];
      r := Ok(tmvt);
    }

    method ProcessTrustMvtUpdate(tsplId: Uuid, upd: TrustUpdate) returns (r: Outcome<TrainMvt>)
      modifies this`mvts
      ensures Contents() == Apply(old(Contents()), TrustMessage(tsplId, upd))
      ensures r.Ok? <==> Accepted(old(Contents()), TrustMessage(tsplId, upd))
      ensures r.Ok? ==> mvts != [] && mvts[|mvts| - 1] == r.value && r.value.source == Trust && r.value.actual
      ensures r.Err? ==> ProcessTrust(old(Contents()), tsplId, upd) == Err(r.error)
      ensures Consistent(old(Contents())) ==>
                (r.Ok? <==> exists o :: SoleTrustOriginal(old(Contents()), tsplId, upd, o)
                                        && !ReportedAlready(old(Contents()), o, upd))
      ensures Consistent(old(Contents())) && r.Ok? ==>
                exists o :: SoleTrustOriginal(old(Contents()), tsplId, upd, o) && ReportsTrust(r.value, o.id, upd)
    {
      ghost var before := Contents();
      if Consistent(before) {
        TrustMeans(before, tsplId, upd);
      }
      var train := TrainByTspl(trains, tsplId);
      if train == None {
        return Err(NotFound);
      }
      var found := Filter(TrustMatches(train.value.id, upd), mvts);
      if |found| > 1 {
        return Err(MovementsAmbiguous);
      }
      if found == [] {
        return Err(MovementsNotFound);
      }
      var updates := found[0];
      assert updates in found;
      var tmvt := TrainMvt(NextMvtId(mvts), train.value.id, Some(updates.id), updates.tiploc, upd.plannedAction,
                           true, upd.actualTime, upd.actualPublicTime, upd.plannedDayOffset, Trust, upd.platform,
                           false, false);
      if IndexHit(mvts, tmvt) {
        return Err(ConstraintViolated);
      }
      mvts := mvts + [tmvt];
      r := Ok(tmvt);
    }
  }
}
