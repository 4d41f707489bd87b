/** What live messages do to the movements of a train, over every run. */
module LiveUpdates {
  import opened Options
  import opened Seqs
  import opened LiveTrains
  import opened LiveInvariants
  import opened LiveRuns

  function Lasting(): TrainMvt -> bool {
    (m: TrainMvt) => m.source != Darwin
  }

  function DarwinFor(original: MvtId): TrainMvt -> bool {
    (m: TrainMvt) => IsDarwinFor(m, original)
  }

  // ---- what a message is about, and what it stores ----

  /** An original of the train, as the Darwin message plans it. */
  predicate DarwinOriginal(s: Live, t: Train, upd: DarwinUpdate, o: TrainMvt) {
    && o in s.mvts && o.parentTrain == t.id && o.updates == None && o.source == SchedItps
    && o.tiploc == upd.tiploc && o.action == upd.plannedAction
    && o.time == upd.plannedTime && o.dayOffset == upd.plannedDayOffset
  }

  /** An original of the train, as the TRUST message plans it, at one of its STANOX's places;
      a pass (action 2) will do for any action. */
  predicate TrustOriginal(s: Live, t: Train, upd: TrustUpdate, o: TrainMvt) {
    && o in s.mvts && o.parentTrain == t.id && o.updates == None && o.source == SchedItps
    && o.tiploc in upd.tiplocs && (o.action == upd.plannedAction || o.action == 2)
    && o.time == upd.plannedTime && o.dayOffset == upd.plannedDayOffset
  }

  /** `o` is the only such original of the train named. */
  ghost predicate SoleDarwinOriginal(s: Live, tsplId: Uuid, upd: DarwinUpdate, o: TrainMvt) {
    exists t :: t in s.trains && t.tsplId == tsplId && DarwinOriginal(s, t, upd, o)
                && forall p :: DarwinOriginal(s, t, upd, p) ==> p == o
  }

  ghost predicate SoleTrustOriginal(s: Live, tsplId: Uuid, upd: TrustUpdate, o: TrainMvt) {
    exists t :: t in s.trains && t.tsplId == tsplId && TrustOriginal(s, t, upd, o)
                && forall p :: TrustOriginal(s, t, upd, p) ==> p == o
  }

  /** What Darwin reports of a movement. */
  predicate ReportsDarwin(m: TrainMvt, original: MvtId, upd: DarwinUpdate) {
    && m.updates == Some(original) && m.source == Darwin && m.tiploc == upd.tiploc
    && m.time == upd.updatedTime && m.actual == upd.timeActual && m.publicTime == None
    && m.action == upd.plannedAction && m.dayOffset == upd.plannedDayOffset
    && m.platform == upd.platform && m.pfmSuppr == upd.platsup && m.unknownDelay == upd.delayUnknown
  }

  /** What TRUST reports of a movement. */
  predicate ReportsTrust(m: TrainMvt, original: MvtId, upd: TrustUpdate) {
    && m.updates == Some(original) && m.source == Trust && m.actual
    && m.time == upd.actualTime && m.publicTime == upd.actualPublicTime
    && m.action == upd.plannedAction && m.dayOffset == upd.plannedDayOffset
    && m.platform == upd.platform && !m.pfmSuppr && !m.unknownDelay
  }

  /** The unique index already holds what TRUST reports. */
  ghost predicate ReportedAlready(s: Live, o: TrainMvt, upd: TrustUpdate) {
    exists m :: m in s.mvts && m.updates == Some(o.id) && m.source == Trust && m.parentTrain == o.parentTrain
                && m.tiploc == o.tiploc && m.action == upd.plannedAction && m.time == upd.actualTime
                && m.dayOffset == upd.plannedDayOffset
  }

  lemma TheOnlyIff(keep: TrainMvt -> bool, mvts: seq<TrainMvt>, o: TrainMvt)
    requires IdsAscend(mvts)
    ensures TheOnly(Filter(keep, mvts)) == Ok(o) <==>
            o in mvts && keep(o) && forall p :: p in mvts && keep(p) ==> p == o
  {
    var found := Filter(keep, mvts);
    var index := FilterOrder(keep, mvts);
    if |found| > 1 {
      assert mvts[index[0]].id != mvts[index[1]].id;
      assert found[0] in found && found[1] in found && found[0] != found[1];
    }
    assert |found| == 1 ==> found[0] in found && forall p :: p in found ==> p == found[0];
  }

  /** The target of a Darwin message is the sole original it plans. */
  lemma DarwinTargetIff(s: Live, tsplId: Uuid, upd: DarwinUpdate, o: TrainMvt)
    requires Consistent(s)
    ensures DarwinTarget(s, tsplId, upd) == Ok(o) <==> SoleDarwinOriginal(s, tsplId, upd, o)
  {
    var named := TrainByTspl(s.trains, tsplId);
    if named.Some? {
      var t := named.value;
      TheOnlyIff(DarwinMatches(t.id, upd), s.mvts, o);
      assert forall p :: DarwinOriginal(s, t, upd, p) <==> p in s.mvts && DarwinMatches(t.id, upd)(p);
      forall u | u in s.trains && u.tsplId == tsplId ensures u == t {
        OnlyTrainFor(s.trains, u);
      }
    }
  }

  lemma TrustTargetIff(s: Live, tsplId: Uuid, upd: TrustUpdate, o: TrainMvt)
    requires Consistent(s)
    ensures TrustTarget(s, tsplId, upd) == Ok(o) <==> SoleTrustOriginal(s, tsplId, upd, o)
  {
    var named := TrainByTspl(s.trains, tsplId);
    if named.Some? {
      var t := named.value;
      TheOnlyIff(TrustMatches(t.id, upd), s.mvts, o);
      assert forall p :: TrustOriginal(s, t, upd, p) <==> p in s.mvts && TrustMatches(t.id, upd)(p);
      forall u | u in s.trains && u.tsplId == tsplId ensures u == t {
        OnlyTrainFor(s.trains, u);
      }
    }
  }

  /** A Darwin message is accepted exactly when one original of the train named is as it plans. */
  lemma DarwinAcceptedIff(s: Live, tsplId: Uuid, upd: DarwinUpdate)
    requires Consistent(s)
    ensures Accepted(s, DarwinMessage(tsplId, upd)) <==> exists o :: SoleDarwinOriginal(s, tsplId, upd, o)
  {
    var target := DarwinTarget(s, tsplId, upd);
    if target.Ok? {
      DarwinTargetIff(s, tsplId, upd, target.value);
    }
    if o :| SoleDarwinOriginal(s, tsplId, upd, o) {
      DarwinTargetIff(s, tsplId, upd, o);
    }
  }

  /** It stores, last, what Darwin reports of that original; of the rows before, those go that
      reported what Darwin said of it earlier. */
  lemma DarwinStores(s: Live, tsplId: Uuid, upd: DarwinUpdate, o: TrainMvt)
    requires Consistent(s) && SoleDarwinOriginal(s, tsplId, upd, o)
    ensures var after := Apply(s, DarwinMessage(tsplId, upd));
            && after.trains == s.trains && after.mvts != []
            && ReportsDarwin(after.mvts[|after.mvts| - 1], o.id, upd)
            && after.mvts[|after.mvts| - 1].parentTrain == o.parentTrain
            && forall m :: m in after.mvts[..|after.mvts| - 1] <==>
                             m in s.mvts && !(m.updates == Some(o.id) && m.source == Darwin)
  {
    DarwinTargetIff(s, tsplId, upd, o);
    var target, rest, row := DarwinEffect(s, DarwinMessage(tsplId, upd));
    assert (rest + [row])[..|rest|] == rest;
  }

  /** A TRUST message is accepted exactly when one original of the train named is as it plans
      and the same report is not stored yet. */
  lemma TrustAcceptedIff(s: Live, tsplId: Uuid, upd: TrustUpdate)
    requires Consistent(s)
    ensures Accepted(s, TrustMessage(tsplId, upd)) <==>
            exists o :: SoleTrustOriginal(s, tsplId, upd, o) && !ReportedAlready(s, o, upd)
  {
    var target := TrustTarget(s, tsplId, upd);
    if target.Ok? {
      TrustTargetIff(s, tsplId, upd, target.value);
      IndexHitIff(s, target.value, upd);
    }
    if o :| SoleTrustOriginal(s, tsplId, upd, o) && !ReportedAlready(s, o, upd) {
      TrustTargetIff(s, tsplId, upd, o);
    }
  }

  lemma IndexHitIff(s: Live, o: TrainMvt, upd: TrustUpdate)
    ensures IndexHit(s.mvts, TrustRow(NextMvtId(s.mvts), o, upd)) <==> ReportedAlready(s, o, upd)
  {
    var row := TrustRow(NextMvtId(s.mvts), o, upd);
    if m :| m in s.mvts && SameIndexKey(m, row) {
      assert ReportedAlready(s, o, upd);
    }
    if m :| m in s.mvts && m.updates == Some(o.id) && m.source == Trust && m.parentTrain == o.parentTrain
            && m.tiploc == o.tiploc && m.action == upd.plannedAction && m.time == upd.actualTime
            && m.dayOffset == upd.plannedDayOffset {
      assert SameIndexKey(m, row);
    }
  }

  /** It stores, last, what TRUST reports of that original, at the original's place. */
  lemma TrustStores(s: Live, tsplId: Uuid, upd: TrustUpdate, o: TrainMvt)
    requires Consistent(s) && SoleTrustOriginal(s, tsplId, upd, o) && !ReportedAlready(s, o, upd)
    ensures var after := Apply(s, TrustMessage(tsplId, upd));
            && after.trains == s.trains && |after.mvts| == |s.mvts| + 1 && after.mvts[..|s.mvts|] == s.mvts
            && ReportsTrust(after.mvts[|s.mvts|], o.id, upd)
            && after.mvts[|s.mvts|].parentTrain == o.parentTrain && after.mvts[|s.mvts|].tiploc == o.tiploc
  {
    TrustTargetIff(s, tsplId, upd, o);
    IndexHitIff(s, o, upd);
    var target, row := TrustEffect(s, TrustMessage(tsplId, upd));
  }

  // ---- how each kind of transaction changes the movement table ----

  lemma ActivationEffect(s: Live, e: Event) returns (added: seq<TrainMvt>)
    requires e.Activation?
    ensures Apply(s, e).mvts == s.mvts + added
    ensures forall m :: m in added ==> m.updates == None && m.source == SchedItps
  {
    var rows := Map(FromItps, e.mvts);
    match TrainFor(s.trains, e.parent, e.date)
    case Some(t) =>
      added := if t.activated then [] else CopiedRows(NextMvtId(s.mvts).number, t.id, rows);
    case None =>
      added := CopiedRows(NextMvtId(s.mvts).number, NextTrainId(s.trains), rows);
  }

  lemma DarwinEffect(s: Live, e: Event) returns (target: TrainMvt, rest: seq<TrainMvt>, row: TrainMvt)
    requires e.DarwinMessage? && Accepted(s, e)
    ensures DarwinTarget(s, e.tsplId, e.darwin) == Ok(target)
    ensures rest == Filter(NotDarwinFor(target.id), s.mvts)
    ensures Apply(s, e) == Live(s.trains, rest + [row])
    ensures row == DarwinRow(NextMvtId(rest), target, e.darwin)
  {
    target := DarwinTarget(s, e.tsplId, e.darwin).value;
    rest := Filter(NotDarwinFor(target.id), s.mvts);
    row := DarwinRow(NextMvtId(rest), target, e.darwin);
  }

  lemma TrustEffect(s: Live, e: Event) returns (target: TrainMvt, row: TrainMvt)
    requires e.TrustMessage? && Accepted(s, e)
    ensures TrustTarget(s, e.tsplId, e.trust) == Ok(target)
    ensures Apply(s, e) == Live(s.trains, s.mvts + [row])
    ensures row == TrustRow(NextMvtId(s.mvts), target, e.trust)
  {
    target := TrustTarget(s, e.tsplId, e.trust).value;
    row := TrustRow(NextMvtId(s.mvts), target, e.trust);
  }

  lemma OtherEffect(s: Live, e: Event)
    requires !e.Activation? && !(e.DarwinMessage? && Accepted(s, e)) && !(e.TrustMessage? && Accepted(s, e))
    ensures Apply(s, e).mvts == s.mvts
  {
  }

  /** Originals and TRUST rows are never altered, reordered or removed: new ones join the end. */
  lemma StepKeepsLasting(s: Live, e: Event)
    ensures Filter(Lasting(), s.mvts) <= Filter(Lasting(), Apply(s, e).mvts)
  {
    if e.Activation? {
      var added := ActivationEffect(s, e);
      FilterAppend(Lasting(), s.mvts, added);
    } else if e.DarwinMessage? && Accepted(s, e) {
      var target, rest, row := DarwinEffect(s, e);
      FilterAppend(Lasting(), rest, [row]);
      FilterFilter(NotDarwinFor(target.id), Lasting(), s.mvts);
    } else if e.TrustMessage? && Accepted(s, e) {
      var target, row := TrustEffect(s, e);
      FilterAppend(Lasting(), s.mvts, [row]);
    } else {
      OtherEffect(s, e);
    }
  }

  lemma {:induction false} RunKeepsLasting(s: Live, es: seq<Event>)
    ensures Filter(Lasting(), s.mvts) <= Filter(Lasting(), Run(s, es).mvts)
    decreases |es|
  {
    if es != [] {
      RunKeepsLasting(s, es[..|es| - 1]);
      StepKeepsLasting(Run(s, es[..|es| - 1]), es[|es| - 1]);
    }
  }

  /** The message is accepted as news of the original with this id. */
  predicate Reports(s: Live, e: Event, original: MvtId) {
    e.DarwinMessage? && DarwinTarget(s, e.tsplId, e.darwin).Ok?
        && DarwinTarget(s, e.tsplId, e.darwin).value.id == original
  }

  /** A row without the rowid given to it. */
  function Unnumbered(m: TrainMvt): TrainMvt {
    m.(id := MvtId(-1))
  }

  /** The latest accepted Darwin message about an original. */
  function LatestDarwin(s: Live, es: seq<Event>, original: MvtId): Option<DarwinUpdate> {
    if es == [] then None
    else if Reports(Run(s, es[..|es| - 1]), es[|es| - 1], original) then Some(es[|es| - 1].darwin)
    else LatestDarwin(s, es[..|es| - 1], original)
  }

  lemma ReportStep(s: Live, e: Event, original: MvtId)
    requires Reports(s, e, original)
    ensures var rows := Filter(DarwinFor(original), Apply(s, e).mvts);
            |rows| == 1 && ReportsDarwin(rows[0], original, e.darwin)
  {
    var target, rest, row := DarwinEffect(s, e);
    NoneLeftFor(rest, s, target);
    FilterAppend(DarwinFor(original), rest, [row]);
    FilterNone(DarwinFor(original), rest);
    FilterAll(DarwinFor(original), [row]);
    assert Filter(DarwinFor(original), Apply(s, e).mvts) == [] + [row] == [row];
    TargetPlace(s, e, target);
  }

  lemma NoneLeftFor(rest: seq<TrainMvt>, s: Live, target: TrainMvt)
    requires rest == Filter(NotDarwinFor(target.id), s.mvts)
    ensures forall m :: m in rest ==> !DarwinFor(target.id)(m)
  {
  }

  lemma TargetPlace(s: Live, e: Event, target: TrainMvt)
    requires e.DarwinMessage? && DarwinTarget(s, e.tsplId, e.darwin) == Ok(target)
    ensures target.tiploc == e.darwin.tiploc
  {
    var t := TrainByTspl(s.trains, e.tsplId).value;
    assert target in Filter(DarwinMatches(t.id, e.darwin), s.mvts);
  }

  lemma NoReportStep(s: Live, e: Event, original: MvtId)
    requires !Reports(s, e, original)
    ensures Filter(DarwinFor(original), Apply(s, e).mvts) == Filter(DarwinFor(original), s.mvts)
  {
    if e.Activation? {
      var added := ActivationEffect(s, e);
      FilterAppend(DarwinFor(original), s.mvts, added);
      FilterNone(DarwinFor(original), added);
    } else if e.DarwinMessage? && Accepted(s, e) {
      var target, rest, row := DarwinEffect(s, e);
      FilterAppend(DarwinFor(original), rest, [row]);
      FilterFilter(NotDarwinFor(target.id), DarwinFor(original), s.mvts);
      FilterNone(DarwinFor(original), [row]);
    } else if e.TrustMessage? && Accepted(s, e) {
      var target, row := TrustEffect(s, e);
      FilterAppend(DarwinFor(original), s.mvts, [row]);
      FilterNone(DarwinFor(original), [row]);
    } else {
      OtherEffect(s, e);
    }
  }

  /** Over every run, once Darwin has reported an original it has one Darwin row, with what the
      latest accepted message reported, whatever else happened before or after. */
  lemma {:induction false} DarwinByLatestMessage(s: Live, es: seq<Event>, original: MvtId)
    ensures var rows := Filter(DarwinFor(original), Run(s, es).mvts);
            match LatestDarwin(s, es, original)
            case None => rows == Filter(DarwinFor(original), s.mvts)
            case Some(upd) => |rows| == 1 && ReportsDarwin(rows[0], original, upd)
    decreases |es|
  {
    if es != [] {
      DarwinByLatestMessage(s, es[..|es| - 1], original);
      var before, e := Run(s, es[..|es| - 1]), es[|es| - 1];
      if Reports(before, e, original) {
        ReportStep(before, e, original);
      } else {
        NoReportStep(before, e, original);
      }
    }
  }

  // ---- Darwin and TRUST messages commute ----

  function IsOriginal(): TrainMvt -> bool {
    (m: TrainMvt) => m.updates == None
  }

  /** Equal up to the rowids of the update rows. */
  ghost predicate SameUpToRowids(s: Live, u: Live) {
    && s.trains == u.trains
    && Filter(IsOriginal(), s.mvts) == Filter(IsOriginal(), u.mvts)
    && multiset(Map(Unnumbered, s.mvts)) == multiset(Map(Unnumbered, u.mvts))
  }

  lemma DarwinKeepsTrustTarget(s: Live, d: Event, tsplId: Uuid, upd: TrustUpdate)
    requires d.DarwinMessage? && Accepted(s, d)
    ensures TrustTarget(Apply(s, d), tsplId, upd) == TrustTarget(s, tsplId, upd)
  {
    var target, rest, row := DarwinEffect(s, d);
    if TrainByTspl(s.trains, tsplId).Some? {
      var t := TrainByTspl(s.trains, tsplId).value;
      FilterAppend(TrustMatches(t.id, upd), rest, [row]);
      FilterNone(TrustMatches(t.id, upd), [row]);
      FilterFilter(NotDarwinFor(target.id), TrustMatches(t.id, upd), s.mvts);
    }
  }

  lemma TrustKeepsDarwinTarget(s: Live, t: Event, tsplId: Uuid, upd: DarwinUpdate)
    requires t.TrustMessage? && Accepted(s, t)
    ensures DarwinTarget(Apply(s, t), tsplId, upd) == DarwinTarget(s, tsplId, upd)
  {
    var target, row := TrustEffect(s, t);
    if TrainByTspl(s.trains, tsplId).Some? {
      var train := TrainByTspl(s.trains, tsplId).value;
      FilterAppend(DarwinMatches(train.id, upd), s.mvts, [row]);
      FilterNone(DarwinMatches(train.id, upd), [row]);
    }
  }

  /** Darwin rows never stand in the way of a TRUST row in the unique index. */
  lemma IndexHitIgnoresDarwin(mvts: seq<TrainMvt>, original: MvtId, darwin: TrainMvt, row: TrainMvt, row': TrainMvt)
    requires darwin.source == Darwin && row.source == Trust && Unnumbered(row) == Unnumbered(row')
    ensures IndexHit(Filter(NotDarwinFor(original), mvts) + [darwin], row') <==> IndexHit(mvts, row)
  {
    var after := Filter(NotDarwinFor(original), mvts) + [darwin];
    if IndexHit(mvts, row) {
      var m :| m in mvts && SameIndexKey(m, row);
      assert m in after && SameIndexKey(m, row');
    }
    if IndexHit(after, row') {
      var m :| m in after && SameIndexKey(m, row');
      assert m in mvts && SameIndexKey(m, row);
    }
  }

  lemma DarwinKeepsTrustAccepted(s: Live, d: Event, t: Event)
    requires d.DarwinMessage? && t.TrustMessage?
    ensures Accepted(Apply(s, d), t) <==> Accepted(s, t)
  {
    if Accepted(s, d) {
      DarwinKeepsTrustTarget(s, d, t.tsplId, t.trust);
      var original, rest, row := DarwinEffect(s, d);
      if TrustTarget(s, t.tsplId, t.trust).Ok? {
        var target := TrustTarget(s, t.tsplId, t.trust).value;
        IndexHitIgnoresDarwin(s.mvts, original.id, row, TrustRow(NextMvtId(s.mvts), target, t.trust),
                              TrustRow(NextMvtId(rest + [row]), target, t.trust));
      }
    }
  }

  lemma MapAppend(f: TrainMvt -> TrainMvt, a: seq<TrainMvt>, b: seq<TrainMvt>)
    ensures Map(f, a + b) == Map(f, a) + Map(f, b)
  {
  }

  /** A Darwin and a TRUST message, about whatever movements, may arrive in either order:
      each is accepted or refused alike, and the tables end up the same up to rowids. */
  lemma DarwinTrustCommute(s: Live, d: Event, t: Event)
    requires d.DarwinMessage? && t.TrustMessage?
    ensures Accepted(Apply(s, d), t) <==> Accepted(s, t)
    ensures Accepted(Apply(s, t), d) <==> Accepted(s, d)
    ensures SameUpToRowids(Apply(Apply(s, d), t), Apply(Apply(s, t), d))
  {
    DarwinKeepsTrustAccepted(s, d, t);
    if Accepted(s, t) {
      TrustKeepsDarwinTarget(s, t, d.tsplId, d.darwin);
      if Accepted(s, d) {
        BothAccepted(s, d, t);
      }
    }
  }

  lemma BothAccepted(s: Live, d: Event, t: Event)
    requires d.DarwinMessage? && t.TrustMessage? && Accepted(s, d) && Accepted(s, t)
    requires Accepted(Apply(s, d), t) && Accepted(Apply(s, t), d)
    ensures SameUpToRowids(Apply(Apply(s, d), t), Apply(Apply(s, t), d))
  {
    DarwinKeepsTrustTarget(s, d, t.tsplId, t.trust);
    TrustKeepsDarwinTarget(s, t, d.tsplId, d.darwin);
    var original, rest, d1 := DarwinEffect(s, d);
    var target, t2 := TrustEffect(s, t);
    var target', t1 := TrustEffect(Apply(s, d), t);
    var original', rest', d2 := DarwinEffect(Apply(s, t), d);
    FilterAppend(NotDarwinFor(original.id), s.mvts, [t2]);
    FilterAll(NotDarwinFor(original.id), [t2]);
    SwapLastTwo(rest, d1, t1, t2, d2);
  }

  lemma SwapLastTwo(rest: seq<TrainMvt>, d1: TrainMvt, t1: TrainMvt, t2: TrainMvt, d2: TrainMvt)
    requires Unnumbered(d1) == Unnumbered(d2) && Unnumbered(t1) == Unnumbered(t2)
    requires d1.updates != None && t1.updates != None
    ensures multiset(Map(Unnumbered, (rest + [d1]) + [t1])) == multiset(Map(Unnumbered, (rest + [t2]) + [d2]))
    ensures Filter(IsOriginal(), (rest + [d1]) + [t1]) == Filter(IsOriginal(), (rest + [t2]) + [d2])
  {
    MapAppend(Unnumbered, rest + [d1], [t1]);
    MapAppend(Unnumbered, rest, [d1]);
    MapAppend(Unnumbered, rest + [t2], [d2]);
    MapAppend(Unnumbered, rest, [t2]);
    assert Map(Unnumbered, [d1]) == [Unnumbered(d1)] && Map(Unnumbered, [t1]) == [Unnumbered(t1)];
    assert Map(Unnumbered, [d2]) == [Unnumbered(d1)] && Map(Unnumbered, [t2]) == [Unnumbered(t1)];
    FilterAppend(IsOriginal(), rest + [d1], [t1]);
    FilterAppend(IsOriginal(), rest, [d1]);
    FilterAppend(IsOriginal(), rest + [t2], [d2]);
    FilterAppend(IsOriginal(), rest, [t2]);
  }
}
