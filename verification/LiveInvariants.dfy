/** The consistency of the two tables is kept by every transaction. */
module LiveInvariants {
  import opened Options
  import opened Seqs
  import opened LiveTrains

  // ---- trains ----

  lemma PatchKeepsTrains(trains: seq<Train>, id: TrainId, p: Patch)
    requires TrainsOk(trains)
    requires p.TrustId? ==> forall t :: t in trains && t.id == id ==> !TrustTaken(trains, t, p.trustId)
    requires p.DarwinRid? ==> !RidTaken(trains, id, p.rid)
    ensures TrainsOk(PatchTrain(trains, id, p))
  {
    var after := PatchTrain(trains, id, p);
    forall i, j | 0 <= i < j < |after| ensures Apart(after[i], after[j]) {
      assert trains[i] in trains && trains[j] in trains && Apart(trains[i], trains[j]);
    }
  }

  lemma NewTrainKeepsTrains(trains: seq<Train>, parent: ScheduleKey, date: int, tsplId: Uuid)
    requires TrainsOk(trains) && TrainFor(trains, parent, date).None?
    requires forall t :: t in trains ==> t.tsplId != tsplId
    ensures TrainsOk(trains + [NewTrain(NextTrainId(trains), tsplId, parent, date)])
  {
    var t := NewTrain(NextTrainId(trains), tsplId, parent, date);
    var after := trains + [t];
    forall i, j | 0 <= i < j < |after| ensures Apart(after[i], after[j]) {
      assert trains[i] in trains;
      assert j < |trains| ==> Apart(trains[i], trains[j]);
      assert i < |trains| - 1 ==> Apart(trains[i], trains[|trains| - 1]);
    }
  }

  lemma PatchKeepsActivated(trains: seq<Train>, id: TrainId, p: Patch, t: TrainId)
    requires IsActivated(trains, t)
    ensures IsActivated(PatchTrain(trains, id, p), t)
  {
    var i :| 0 <= i < |trains| && trains[i].id == t && trains[i].activated;
    assert PatchTrain(trains, id, p)[i].id == t;
  }

  // ---- movements ----

  lemma AllBelowNext(mvts: seq<TrainMvt>)
    requires IdsAscend(mvts)
    ensures forall m :: m in mvts ==> m.id.number < NextMvtId(mvts).number
  {
  }

  lemma MoreTrainsKeepMvts(trains: seq<Train>, trains': seq<Train>, mvts: seq<TrainMvt>)
    requires MvtsOk(trains, mvts)
    requires forall t :: IsActivated(trains, t) ==> IsActivated(trains', t)
    ensures MvtsOk(trains', mvts)
  {
  }

  /** Appending rows that are in order themselves. */
  lemma AppendKeepsMvts(trains: seq<Train>, mvts: seq<TrainMvt>, added: seq<TrainMvt>)
    requires MvtsOk(trains, mvts) && IdsAscend(added)
    requires forall m :: m in added ==> m.id.number >= NextMvtId(mvts).number
    requires forall m :: m in added ==> RowOk(trains, mvts + added, m)
    requires forall m, n :: m in mvts && n in added && m.source == Darwin && n.source == Darwin ==>
             m.updates != n.updates
    requires OneDarwinEach(added)
    ensures MvtsOk(trains, mvts + added)
  {
    var after := mvts + added;
    AllBelowNext(mvts);
    forall i, j | 0 <= i < j < |after|
      ensures after[i].id.number < after[j].id.number
      ensures after[i].source == Darwin && after[j].source == Darwin ==> after[i].updates != after[j].updates
    {
      if i < |mvts| {
        assert after[i] in mvts;
        assert j >= |mvts| ==> after[j] == added[j - |mvts|];
      } else {
        assert after[i] == added[i - |mvts|] && after[j] == added[j - |mvts|];
      }
    }
    forall m | m in after ensures RowOk(trains, after, m) {
      if m in mvts {
        assert RowOk(trains, mvts, m);
      }
    }
  }

  /** Deleting the Darwin rows of an original leaves no row without its original. */
  lemma DropKeepsMvts(trains: seq<Train>, mvts: seq<TrainMvt>, original: MvtId)
    requires MvtsOk(trains, mvts)
    ensures MvtsOk(trains, Filter(NotDarwinFor(original), mvts))
  {
    var rest := Filter(NotDarwinFor(original), mvts);
    var index := FilterOrder(NotDarwinFor(original), mvts);
    forall m | m in rest ensures RowOk(trains, rest, m) {
      assert RowOk(trains, mvts, m);
      if m.updates != None {
        var o :| o in mvts && m.updates == Some(o.id) && o.updates == None
                 && o.parentTrain == m.parentTrain && o.tiploc == m.tiploc && o.dayOffset == m.dayOffset;
        assert o in rest;
      }
    }
  }

  // ---- each transaction ----

  lemma CopyKeepsConsistent(s: Live, t: Train, mvts: seq<ScheduleMvt>)
    requires Consistent(s) && t in s.trains
    ensures Consistent(CopyInto(s, t.id, Map(FromItps, mvts)))
  {
    var rows := Map(FromItps, mvts);
    if rows != [] {
      var s' := CopyInto(s, t.id, rows);
      PatchKeepsTrains(s.trains, t.id, Activated);
      forall u | IsActivated(s.trains, u) ensures IsActivated(s'.trains, u) {
        PatchKeepsActivated(s.trains, t.id, Activated, u);
      }
      MoreTrainsKeepMvts(s.trains, s'.trains, s.mvts);
      var i :| 0 <= i < |s.trains| && s.trains[i] == t;
      assert s'.trains[i].activated && s'.trains[i].id == t.id;
      AppendKeepsMvts(s'.trains, s.mvts, CopiedRows(NextMvtId(s.mvts).number, t.id, rows));
    }
  }

  lemma ActivationKeepsConsistent(s: Live, e: Event)
    requires Consistent(s) && e.Activation? && FreshId(s, e)
    ensures Consistent(Apply(s, e))
  {
    match TrainFor(s.trains, e.parent, e.date)
    case Some(t) => CopyKeepsConsistent(s, t, e.mvts);
    case None =>
      var t := NewTrain(NextTrainId(s.trains), e.newId, e.parent, e.date);
      var trains' := s.trains + [t];
      NewTrainKeepsTrains(s.trains, e.parent, e.date, e.newId);
      forall u | IsActivated(s.trains, u) ensures IsActivated(trains', u) {
        var v :| v in s.trains && v.id == u && v.activated;
        assert v in trains';
      }
      MoreTrainsKeepMvts(s.trains, trains', s.mvts);
      CopyKeepsConsistent(s.(trains := trains'), t, e.mvts);
  }

  lemma PatchKeepsConsistent(s: Live, id: TrainId, p: Patch)
    requires Consistent(s)
    requires p.TrustId? ==> forall t :: t in s.trains && t.id == id ==> !TrustTaken(s.trains, t, p.trustId)
    requires p.DarwinRid? ==> !RidTaken(s.trains, id, p.rid)
    ensures Consistent(s.(trains := PatchTrain(s.trains, id, p)))
  {
    PatchKeepsTrains(s.trains, id, p);
    var trains' := PatchTrain(s.trains, id, p);
    forall u | IsActivated(s.trains, u) ensures IsActivated(trains', u) {
      PatchKeepsActivated(s.trains, id, p, u);
    }
    MoreTrainsKeepMvts(s.trains, trains', s.mvts);
  }

  lemma TargetFacts(s: Live, original: TrainMvt, keep: TrainMvt -> bool)
    requires Consistent(s) && TheOnly(Filter(keep, s.mvts)) == Ok(original)
    ensures original in s.mvts && keep(original) && RowOk(s.trains, s.mvts, original)
  {
    assert original in Filter(keep, s.mvts);
  }

  lemma DarwinKeepsConsistent(s: Live, tsplId: Uuid, upd: DarwinUpdate)
    requires Consistent(s) && ProcessDarwin(s, tsplId, upd).Ok?
    ensures Consistent(ProcessDarwin(s, tsplId, upd).value)
  {
    var t := TrainByTspl(s.trains, tsplId).value;
    var original := DarwinTarget(s, tsplId, upd).value;
    TargetFacts(s, original, DarwinMatches(t.id, upd));
    var rest := Filter(NotDarwinFor(original.id), s.mvts);
    DropKeepsMvts(s.trains, s.mvts, original.id);
    NoneLeft(s.mvts, original.id);
    assert RowOk(s.trains, rest, original);
    UpdateRowKeepsMvts(s.trains, rest, original, DarwinRow(NextMvtId(rest), original, upd));
  }

  lemma NoneLeft(mvts: seq<TrainMvt>, original: MvtId)
    ensures forall m :: m in Filter(NotDarwinFor(original), mvts) ==> !IsDarwinFor(m, original)
  {
  }

  lemma TrustKeepsConsistent(s: Live, tsplId: Uuid, upd: TrustUpdate)
    requires Consistent(s) && ProcessTrust(s, tsplId, upd).Ok?
    ensures Consistent(ProcessTrust(s, tsplId, upd).value)
  {
    var t := TrainByTspl(s.trains, tsplId).value;
    var original := TrustTarget(s, tsplId, upd).value;
    TargetFacts(s, original, TrustMatches(t.id, upd));
    UpdateRowKeepsMvts(s.trains, s.mvts, original, TrustRow(NextMvtId(s.mvts), original, upd));
  }

  /** Appending a row that updates a stored original, the only Darwin row if it is one. */
  lemma UpdateRowKeepsMvts(trains: seq<Train>, mvts: seq<TrainMvt>, original: TrainMvt, row: TrainMvt)
    requires MvtsOk(trains, mvts) && original in mvts && original.updates == None && RowOk(trains, mvts, original)
    requires row.id == NextMvtId(mvts) && row.updates == Some(original.id)
    requires row.source == Trust || (row.source == Darwin && forall m :: m in mvts ==> !IsDarwinFor(m, original.id))
    requires row.parentTrain == original.parentTrain && row.tiploc == original.tiploc
    requires row.dayOffset == original.dayOffset
    ensures MvtsOk(trains, mvts + [row])
  {
    assert original in mvts + [row];
    AppendKeepsMvts(trains, mvts, [row]);
  }

  lemma IdsIdentify(trains: seq<Train>, t: Train, u: Train)
    requires TrainsOk(trains) && t in trains && u in trains && t.id == u.id
    ensures t == u
  {
    var i :| 0 <= i < |trains| && trains[i] == t;
    var j :| 0 <= j < |trains| && trains[j] == u;
  }

  lemma StepKeepsConsistent(s: Live, e: Event)
    requires Consistent(s) && FreshId(s, e)
    ensures Consistent(Apply(s, e))
  {
    match e
    case Activation(_, _, _, _) => ActivationKeepsConsistent(s, e);
    case RidAssigned(train, rid) =>
      if Accepted(s, e) {
        if RidTaken(s.trains, train, rid) {
          assert PatchTrain(s.trains, train, DarwinRid(rid)) == s.trains;
        } else {
          PatchKeepsConsistent(s, train, DarwinRid(rid));
        }
      }
    case TrustAssociated(tsplId, trustId) => UpdateKeepsConsistent(s, tsplId, TrustId(trustId));
    case Termination(tsplId) => UpdateKeepsConsistent(s, tsplId, Terminated);
    case Cancellation(tsplId) => UpdateKeepsConsistent(s, tsplId, Cancelled);
    case DarwinMessage(tsplId, upd) =>
      if Accepted(s, e) {
        DarwinKeepsConsistent(s, tsplId, upd);
      }
    case TrustMessage(tsplId, upd) =>
      if Accepted(s, e) {
        TrustKeepsConsistent(s, tsplId, upd);
      }
  }

  lemma UpdateKeepsConsistent(s: Live, tsplId: Uuid, p: Patch)
    requires Consistent(s)
    ensures UpdateByTspl(s, tsplId, p).Ok? ==> Consistent(UpdateByTspl(s, tsplId, p).value)
  {
    var t := TrainByTspl(s.trains, tsplId);
    if UpdateByTspl(s, tsplId, p).Ok? {
      forall u | u in s.trains && u.id == t.value.id ensures u == t.value {
        IdsIdentify(s.trains, u, t.value);
      }
      PatchKeepsConsistent(s, t.value.id, p);
    }
  }

  /** One row per id, so a row of each kind can be named by its id. */
  lemma MvtIdsIdentify(mvts: seq<TrainMvt>, m: TrainMvt, n: TrainMvt)
    requires IdsAscend(mvts) && m in mvts && n in mvts && m.id == n.id
    ensures m == n
  {
    var i :| 0 <= i < |mvts| && mvts[i] == m;
    var j :| 0 <= j < |mvts| && mvts[j] == n;
  }

  lemma OnlyTrainFor(trains: seq<Train>, t: Train)
    requires TrainsOk(trains) && t in trains
    ensures TrainFor(trains, t.parent, t.date) == Some(t)
    ensures TrainByTspl(trains, t.tsplId) == Some(t)
  {
    var u, v := TrainFor(trains, t.parent, t.date).value, TrainByTspl(trains, t.tsplId).value;
    var i :| 0 <= i < |trains| && trains[i] == t;
    var j :| 0 <= j < |trains| && trains[j] == u;
    var k :| 0 <= k < |trains| && trains[k] == v;
  }
}
