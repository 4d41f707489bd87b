/** Live broadcasting: callers commit and then send, a broadcaster registers subscribers and
    fans updates out, and every subscriber first reads a snapshot of the database. */
module Broadcast {
  import opened Options
  import opened Seqs

  datatype TrainId = TrainId(number: int)
  datatype SubId = SubId(number: int)

  datatype Train = Train(date: int, terminated: bool)

  /** The trains the handler read, and the date it asked for. */
  datatype Snapshot = Snapshot(date: int, trains: set<TrainId>)

  /** A handler thread: what it has read, what waits in its channel, what it has written.
      `since` is the number of updates fanned out before it registered. */
  datatype Subscriber = Subscriber(
    alive: bool, snapshot: Option<Snapshot>, queue: seq<TrainId>, output: seq<TrainId>, since: nat)

  /** `pending` holds the calls that have committed a train and not sent it yet, `updates`
      the broadcaster's incoming channel, `streams` its list of subscribers. Three records of
      the past: `calls` counts the calls that have committed each train, `dropped` those that
      failed before sending, and `fanned` lists every update fanned out. */
  datatype State = State(
    today: int,
    trains: map<TrainId, Train>,
    pending: multiset<TrainId>,
    updates: seq<TrainId>,
    streams: seq<SubId>,
    subs: map<SubId, Subscriber>,
    calls: multiset<TrainId>,
    dropped: multiset<TrainId>,
    fanned: seq<TrainId>)

  datatype Action =
    | Commit(id: TrainId, date: int)
    | CommitAgain(id: TrainId)
    | Send(id: TrainId)
    | FailBeforeSend(id: TrainId)
    | Terminate(id: TrainId)
    | Register(sub: SubId)
    | TakeSnapshot(sub: SubId)
    | FanOut
    | Deliver(sub: SubId)
    | Die(sub: SubId)
    | Midnight

  function Running(trains: map<TrainId, Train>, date: int): set<TrainId> {
    set id | id in trains && trains[id].date == date && !trains[id].terminated
  }

  function Living(subs: map<SubId, Subscriber>): SubId -> bool {
    (s: SubId) => s in subs && subs[s].alive
  }

  predicate Enabled(s: State, a: Action) {
    match a
    case Commit(id, _) => id !in s.trains
    case CommitAgain(id) => id in s.trains
    case Send(id) => id in s.pending
    case FailBeforeSend(id) => id in s.pending
    case Terminate(id) => id in s.trains
    case Register(sub) => sub !in s.subs
    case TakeSnapshot(sub) => sub in s.subs && s.subs[sub].alive && s.subs[sub].snapshot == None
    case FanOut => s.updates != []
    case Deliver(sub) => sub in s.subs && s.subs[sub].alive && s.subs[sub].snapshot.Some? && s.subs[sub].queue != []
    case Die(sub) => sub in s.subs
    case Midnight => true
  }

  /** The message reaches every stream whose handler still lives. */
  function Enqueue(subs: map<SubId, Subscriber>, streams: seq<SubId>, msg: TrainId): map<SubId, Subscriber> {
    map sub | sub in subs ::
      if sub in streams && subs[sub].alive then subs[sub].(queue := subs[sub].queue + [msg]) else subs[sub]
  }

  function Step(s: State, a: Action): State
    requires Enabled(s, a)
  {
    match a
    case Commit(id, date) =>
      s.(trains := s.trains[id := Train(date, false)],
         pending := s.pending + multiset{id}, calls := s.calls + multiset{id})
    case CommitAgain(id) => s.(pending := s.pending + multiset{id}, calls := s.calls + multiset{id})
    case Send(id) => s.(pending := s.pending - multiset{id}, updates := s.updates + [id])
    case FailBeforeSend(id) => s.(pending := s.pending - multiset{id}, dropped := s.dropped + multiset{id})
    case Terminate(id) => s.(trains := s.trains[id := s.trains[id].(terminated := true)])
    case Register(sub) =>
      s.(streams := s.streams + [sub], subs := s.subs[sub := Subscriber(true, None, [], [], |s.fanned|)])
    case TakeSnapshot(sub) =>
      s.(subs := s.subs[sub := s.subs[sub].(snapshot := Some(Snapshot(s.today, Running(s.trains, s.today))))])
    case FanOut =>
      s.(updates := s.updates[1..], streams := Filter(Living(s.subs), s.streams),
         subs := Enqueue(s.subs, s.streams, s.updates[0]), fanned := s.fanned + [s.updates[0]])
    case Deliver(sub) =>
      var h := s.subs[sub];
      s.(subs := s.subs[sub := h.(queue := h.queue[1..], output := h.output + [h.queue[0]])])
    case Die(sub) => s.(subs := s.subs[sub := s.subs[sub].(alive := false)])
    case Midnight => s.(today := s.today + 1)
  }

  ghost predicate Initial(s: State) {
    && s.pending == multiset{} && s.updates == [] && s.streams == [] && s.subs == map[]
    && s.calls == multiset{} && s.dropped == multiset{} && s.fanned == []
  }

  // ---- what a subscriber knows ----

  /** The subscriber has the train, is about to read it, or will be sent it. */
  predicate WillKnow(s: State, sub: Subscriber, id: TrainId) {
    || sub.snapshot == None || id in sub.snapshot.value.trains
    || id in sub.queue || id in sub.output
    || id in s.pending || id in s.updates
  }

  predicate IsRunning(s: State, id: TrainId) {
    id in s.trains && !s.trains[id].terminated
  }

  predicate GotOut(s: State, id: TrainId) {
    id in s.updates || id in s.fanned
  }

  /** A living subscriber has been handed, in order and once each, exactly the updates
      fanned out since it registered. */
  ghost predicate HandedInOrder(s: State) {
    forall sub :: sub in s.subs && s.subs[sub].alive ==>
      sub in s.streams && s.subs[sub].since <= |s.fanned|
      && s.subs[sub].output + s.subs[sub].queue == s.fanned[s.subs[sub].since..]
  }

  lemma StepKeepsOrder(s: State, a: Action)
    requires HandedInOrder(s) && Enabled(s, a)
    ensures HandedInOrder(Step(s, a))
  {
    var s' := Step(s, a);
    match a
    case FanOut =>
      forall sub | sub in s'.subs && s'.subs[sub].alive
        ensures sub in s'.streams
        ensures s'.subs[sub].output + s'.subs[sub].queue == s'.fanned[s'.subs[sub].since..]
      {
        var h, h' := s.subs[sub], s'.subs[sub];
        assert h'.output + h'.queue == (h.output + h.queue) + [s.updates[0]];
        assert s'.fanned[h.since..] == s.fanned[h.since..] + [s.updates[0]];
      }
    case Deliver(sub) =>
      var h, h' := s.subs[sub], s'.subs[sub];
      assert h'.output + h'.queue == h.output + h.queue;
    case _ =>
  }

  /** Every stream is a handler's, listed once. */
  ghost predicate StreamsListed(s: State) {
    && (forall sub :: sub in s.streams ==> sub in s.subs)
    && (forall i, j :: 0 <= i < j < |s.streams| ==> s.streams[i] != s.streams[j])
  }

  lemma StepKeepsListed(s: State, a: Action)
    requires StreamsListed(s) && Enabled(s, a)
    ensures StreamsListed(Step(s, a))
  {
    if a.FanOut? {
      var index := FilterOrder(Living(s.subs), s.streams);
      var left := Filter(Living(s.subs), s.streams);
      forall i, j | 0 <= i < j < |left| ensures left[i] != left[j] {
        assert s.streams[index[i]] != s.streams[index[j]];
      }
    }
  }

  // ---- no call is lost ----

  /** Every call that committed a train is about to send, waits in the channel, has been
      fanned out or has failed. */
  ghost predicate CallsKept(s: State) {
    forall id :: Accounted(s, id)
  }

  predicate Accounted(s: State, id: TrainId) {
    s.calls[id] == s.pending[id] + s.dropped[id] + multiset(s.updates)[id] + multiset(s.fanned)[id]
  }

  lemma AppendCounts(sent: seq<TrainId>, last: TrainId, id: TrainId)
    ensures multiset(sent + [last])[id] == multiset(sent)[id] + if id == last then 1 else 0
  {
  }

  lemma HeadCounts(sent: seq<TrainId>, id: TrainId)
    requires sent != []
    ensures multiset(sent)[id] == multiset(sent[1..])[id] + if id == sent[0] then 1 else 0
  {
    assert sent == [sent[0]] + sent[1..];
  }

  lemma StepKeepsAccount(s: State, a: Action, id: TrainId)
    requires Accounted(s, id) && Enabled(s, a)
    ensures Accounted(Step(s, a), id)
  {
    match a
    case Send(sent) => AppendCounts(s.updates, sent, id);
    case FanOut =>
      HeadCounts(s.updates, id);
      AppendCounts(s.fanned, s.updates[0], id);
    case _ =>
  }

  lemma StepKeepsCalls(s: State, a: Action)
    requires CallsKept(s) && Enabled(s, a)
    ensures CallsKept(Step(s, a))
  {
    forall id ensures Accounted(Step(s, a), id) {
      StepKeepsAccount(s, a, id);
    }
  }

  // ---- no activation is lost ----

  /** A snapshot holds no running train of another day, and a running train of its own day
      that it does not hold was committed later, so nothing about it had been fanned out
      before the subscriber registered. */
  ghost predicate SnapshotCovers(s: State) {
    forall sub, id ::
      sub in s.subs && s.subs[sub].snapshot.Some? && s.subs[sub].since <= |s.fanned| && IsRunning(s, id) ==>
        CoveredBySnapshot(s, s.subs[sub], s.subs[sub].snapshot.value, id)
  }

  predicate CoveredBySnapshot(s: State, h: Subscriber, snapshot: Snapshot, id: TrainId)
    requires h.since <= |s.fanned| && id in s.trains
  {
    if s.trains[id].date != snapshot.date then id !in snapshot.trains
    else id in snapshot.trains || id !in s.fanned[..h.since]
  }

  /** What has been sent, or may be, is about a stored train. */
  predicate StoredIfSent(s: State, id: TrainId) {
    id in s.pending || GotOut(s, id) ==> id in s.trains
  }

  predicate ReadFromStore(s: State, h: Subscriber) {
    h.since <= |s.fanned| && (h.snapshot.Some? ==> h.snapshot.value.trains <= s.trains.Keys)
  }

  ghost predicate SentIsStored(s: State) {
    && (forall id :: StoredIfSent(s, id))
    && (forall sub :: sub in s.subs ==> ReadFromStore(s, s.subs[sub]))
  }

  lemma StepKeepsSent(s: State, a: Action, id: TrainId)
    requires StoredIfSent(s, id) && Enabled(s, a)
    requires a.FanOut? ==> StoredIfSent(s, s.updates[0])
    ensures StoredIfSent(Step(s, a), id)
  {
  }

  lemma StepKeepsRead(s: State, a: Action, sub: SubId)
    requires sub in s.subs ==> ReadFromStore(s, s.subs[sub])
    requires Enabled(s, a) && sub in Step(s, a).subs
    ensures ReadFromStore(Step(s, a), Step(s, a).subs[sub])
  {
  }

  lemma StepKeepsStored(s: State, a: Action)
    requires SentIsStored(s) && Enabled(s, a)
    ensures SentIsStored(Step(s, a))
  {
    forall id ensures StoredIfSent(Step(s, a), id) {
      StepKeepsSent(s, a, id);
    }
    forall sub | sub in Step(s, a).subs ensures ReadFromStore(Step(s, a), Step(s, a).subs[sub]) {
      StepKeepsRead(s, a, sub);
    }
  }

  lemma StepKeepsCovers(s: State, a: Action)
    requires SnapshotCovers(s) && SentIsStored(s) && Enabled(s, a)
    ensures SnapshotCovers(Step(s, a))
  {
    var s' := Step(s, a);
    forall sub, id | sub in s'.subs && s'.subs[sub].snapshot.Some? && IsRunning(s', id)
      ensures s'.subs[sub].since <= |s'.fanned|
      ensures CoveredBySnapshot(s', s'.subs[sub], s'.subs[sub].snapshot.value, id)
    {
      var h := s'.subs[sub];
      assert sub in s.subs && s.subs[sub].since == h.since && ReadFromStore(s, s.subs[sub]);
      assert a.Commit? ==> StoredIfSent(s, a.id);
      assert s'.fanned[..h.since] == s.fanned[..h.since];
      if !(a.TakeSnapshot? && a.sub == sub) && !(a.Commit? && a.id == id) {
        assert s.subs[sub].snapshot == h.snapshot && IsRunning(s, id) && s.trains[id].date == s'.trains[id].date;
        assert CoveredBySnapshot(s, s.subs[sub], h.snapshot.value, id);
      }
    }
  }

  /** A run: each action is enabled where it happens. */
  ghost predicate Possible(s: State, acts: seq<Action>)
    decreases |acts|
  {
    acts == [] || (Enabled(s, acts[0]) && Possible(Step(s, acts[0]), acts[1..]))
  }

  function After(s: State, acts: seq<Action>): State
    requires Possible(s, acts)
    decreases |acts|
  {
    if acts == [] then s else After(Step(s, acts[0]), acts[1..])
  }

  // ---- what a snapshot holds ----

  /** A snapshot is of the day it is taken, and holds a train exactly when it is stored, dated
      that day and not terminated. */
  lemma SnapshotRead(s: State, sub: SubId, id: TrainId)
    requires Enabled(s, TakeSnapshot(sub))
    ensures var snapshot := Step(s, TakeSnapshot(sub)).subs[sub].snapshot;
            && snapshot.Some? && snapshot.value.date == s.today
            && (id in snapshot.value.trains <==>
                id in s.trains && s.trains[id].date == s.today && !s.trains[id].terminated)
  {
  }

  ghost predicate NeverReads(s: State, sub: SubId, id: TrainId) {
    && id in s.trains && s.trains[id].terminated
    && (sub in s.subs && s.subs[sub].snapshot.Some? ==> id !in s.subs[sub].snapshot.value.trains)
  }

  lemma StepNeverReads(s: State, a: Action, sub: SubId, id: TrainId)
    requires Enabled(s, a) && NeverReads(s, sub, id)
    ensures NeverReads(Step(s, a), sub, id)
  {
    if a == TakeSnapshot(sub) {
      SnapshotRead(s, sub, id);
    }
  }

  lemma {:induction false} RunNeverReads(s: State, acts: seq<Action>, sub: SubId, id: TrainId)
    requires Possible(s, acts) && NeverReads(s, sub, id)
    ensures NeverReads(After(s, acts), sub, id)
    decreases |acts|
  {
    if acts != [] {
      StepNeverReads(s, acts[0], sub, id);
      RunNeverReads(Step(s, acts[0]), acts[1..], sub, id);
    }
  }

  /** Over every run, a train terminated before a subscriber takes its snapshot is never in it. */
  lemma TerminatedNeverRead(s: State, id: TrainId, acts: seq<Action>, sub: SubId)
    requires Enabled(s, Terminate(id)) && Possible(Step(s, Terminate(id)), acts)
    requires sub in s.subs ==> s.subs[sub].snapshot == None
    ensures var t := After(Step(s, Terminate(id)), acts);
            sub in t.subs && t.subs[sub].snapshot.Some? ==> id !in t.subs[sub].snapshot.value.trains
  {
    RunNeverReads(Step(s, Terminate(id)), acts, sub, id);
  }

  /** The stream of a handler that died is gone after the next fan-out, and only such streams. */
  lemma DeadLeave(s: State, sub: SubId)
    requires Enabled(s, Die(sub)) && s.updates != []
    ensures sub !in Step(Step(s, Die(sub)), FanOut).streams
    ensures forall other :: other != sub && other in s.streams && other in s.subs && s.subs[other].alive ==>
              other in Step(Step(s, Die(sub)), FanOut).streams
  {
  }

  /** What every step keeps. */
  ghost predicate ProtocolOk(s: State) {
    CallsKept(s) && SentIsStored(s) && SnapshotCovers(s) && HandedInOrder(s) && StreamsListed(s)
  }

  lemma StepKeeps(s: State, a: Action)
    requires ProtocolOk(s) && Enabled(s, a)
    ensures ProtocolOk(Step(s, a))
  {
    StepKeepsCalls(s, a);
    StepKeepsStored(s, a);
    StepKeepsCovers(s, a);
    StepKeepsOrder(s, a);
    StepKeepsListed(s, a);
  }

  lemma {:induction false} RunKeeps(s: State, acts: seq<Action>)
    requires ProtocolOk(s) && Possible(s, acts)
    ensures ProtocolOk(After(s, acts))
    decreases |acts|
  {
    if acts != [] {
      StepKeeps(s, acts[0]);
      RunKeeps(Step(s, acts[0]), acts[1..]);
    }
  }

  lemma SentByCounts(s: State, id: TrainId)
    requires CallsKept(s)
    ensures s.dropped[id] <= s.calls[id]
    ensures s.dropped[id] == s.calls[id] <==> id !in s.pending && !GotOut(s, id)
  {
    assert Accounted(s, id);
    assert id in s.updates <==> multiset(s.updates)[id] > 0;
    assert id in s.fanned <==> multiset(s.fanned)[id] > 0;
  }

  lemma UnknownInState(s: State, sub: SubId, id: TrainId)
    requires ProtocolOk(s)
    requires sub in s.subs && s.subs[sub].alive && s.subs[sub].snapshot.Some? && IsRunning(s, id)
    ensures Unknown(s, s.subs[sub], id) <==> !WillKnow(s, s.subs[sub], id)
  {
    var h := s.subs[sub];
    SentByCounts(s, id);
    assert CoveredBySnapshot(s, h, h.snapshot.value, id);
    assert id in h.queue || id in h.output <==> id in s.fanned[h.since..] by {
      assert h.output + h.queue == s.fanned[h.since..];
      assert id in h.queue || id in h.output <==> id in h.output + h.queue;
    }
    SplitCounts(s.fanned, h.since, id);
    assert Accounted(s, id);
    assert id in s.updates <==> multiset(s.updates)[id] > 0;
  }

  lemma SplitCounts(sent: seq<TrainId>, n: nat, id: TrainId)
    requires n <= |sent|
    ensures multiset(sent)[id] == multiset(sent[..n])[id] + multiset(sent[n..])[id]
    ensures id in sent[n..] <==> multiset(sent[n..])[id] > 0
    ensures id in sent <==> id in sent[..n] || id in sent[n..]
  {
    assert sent == sent[..n] + sent[n..];
  }

  /** A running train of the snapshot's day is unknown when the snapshot lacks it and every
      call that committed it failed before sending; one of another day, when every call
      that did not fail was fanned out before the subscriber registered. */
  predicate Unknown(s: State, h: Subscriber, id: TrainId)
    requires h.snapshot.Some? && h.since <= |s.fanned| && id in s.trains
  {
    if s.trains[id].date == h.snapshot.value.date then id !in h.snapshot.value.trains && s.dropped[id] == s.calls[id]
    else s.calls[id] == s.dropped[id] + multiset(s.fanned[..h.since])[id]
  }

  /** Over every interleaving of committing, sending, failing, registering, reading, fanning
      out, delivering and dying: exactly when a living subscriber neither knows a running
      train nor is going to. */
  lemma UnknownIff(s: State, acts: seq<Action>, sub: SubId, id: TrainId)
    requires Initial(s) && Possible(s, acts)
    requires var t := After(s, acts);
             sub in t.subs && t.subs[sub].alive && t.subs[sub].snapshot.Some? && IsRunning(t, id)
    ensures var t := After(s, acts);
            t.subs[sub].since <= |t.fanned| && (!WillKnow(t, t.subs[sub], id) <==> Unknown(t, t.subs[sub], id))
  {
    RunKeeps(s, acts);
    UnknownInState(After(s, acts), sub, id);
  }

  /** A running train of the subscriber's day of which one call at least has not failed is
      known or on its way, whatever became of the other calls. */
  lemma NoActivationLost(s: State, acts: seq<Action>, sub: SubId, id: TrainId)
    requires Initial(s) && Possible(s, acts)
    requires var t := After(s, acts);
             && sub in t.subs && t.subs[sub].alive && IsRunning(t, id)
             && (t.subs[sub].snapshot.Some? ==> t.trains[id].date == t.subs[sub].snapshot.value.date)
             && t.dropped[id] < t.calls[id]
    ensures WillKnow(After(s, acts), After(s, acts).subs[sub], id)
    ensures HandedInOrder(After(s, acts)) && StreamsListed(After(s, acts))
  {
    RunKeeps(s, acts);
    if After(s, acts).subs[sub].snapshot.Some? {
      UnknownInState(After(s, acts), sub, id);
    }
  }

  /** Once the channels are drained, a subscriber has a train of its day that its snapshot
      lacks exactly when one of the train's calls did not fail. */
  lemma DrainedMeansKnown(s: State, acts: seq<Action>, sub: SubId, id: TrainId)
    requires Initial(s) && Possible(s, acts)
    requires var t := After(s, acts);
             && t.pending == multiset{} && t.updates == []
             && sub in t.subs && t.subs[sub].alive && t.subs[sub].snapshot.Some? && t.subs[sub].queue == []
             && IsRunning(t, id) && t.trains[id].date == t.subs[sub].snapshot.value.date
             && id !in t.subs[sub].snapshot.value.trains
    ensures var t := After(s, acts); id in t.subs[sub].output <==> t.dropped[id] < t.calls[id]
  {
    RunKeeps(s, acts);
    var t := After(s, acts);
    UnknownInState(t, sub, id);
    SentByCounts(t, id);
  }

  // ---- what can be lost ----

  predicate Lost(s: State, sub: SubId, id: TrainId) {
    && sub in s.subs && s.subs[sub].alive
    && id in s.trains && s.trains[id].date == s.today && !s.trains[id].terminated
    && !WillKnow(s, s.subs[sub], id)
  }

  lemma PossibleStep(s: State, a: Action, rest: seq<Action>)
    requires Enabled(s, a) && Possible(Step(s, a), rest)
    ensures Possible(s, [a] + rest) && After(s, [a] + rest) == After(Step(s, a), rest)
  {
    assert ([a] + rest)[1..] == rest;
  }

  /** A caller whose second transaction fails after the activation has committed sends
      nothing, and a subscriber that has read its snapshot never learns of the train. */
  lemma FailedCallerLosesActivation(s: State, sub: SubId, id: TrainId) returns (acts: seq<Action>)
    requires Initial(s) && id !in s.trains
    ensures Possible(s, acts) && Lost(After(s, acts), sub, id)
  {
    var a, b, c, d := Register(sub), TakeSnapshot(sub), Commit(id, s.today), FailBeforeSend(id);
    var s1 := Step(s, a);
    var s2 := Step(s1, b);
    var s3 := Step(s2, c);
    PossibleStep(s3, d, []);
    PossibleStep(s2, c, [d]);
    PossibleStep(s1, b, [c] + [d]);
    PossibleStep(s, a, [b] + ([c] + [d]));
    acts := [a] + ([b] + ([c] + [d]));
  }

  /** A train activated for tomorrow before the subscriber connects is in nobody's snapshot
      of today, so a subscriber that stays connected past midnight does not have it. */
  lemma MidnightLosesTomorrow(s: State, sub: SubId, id: TrainId) returns (acts: seq<Action>)
    requires Initial(s) && id !in s.trains
    ensures Possible(s, acts) && Lost(After(s, acts), sub, id)
  {
    var a, b, c, d, e, f := Commit(id, s.today + 1), Send(id), FanOut, Register(sub), TakeSnapshot(sub), Midnight;
    var s1 := Step(s, a);
    var s2 := Step(s1, b);
    var s3 := Step(s2, c);
    var s4 := Step(s3, d);
    var s5 := Step(s4, e);
    PossibleStep(s5, f, []);
    PossibleStep(s4, e, [f]);
    PossibleStep(s3, d, [e] + [f]);
    PossibleStep(s2, c, [d] + ([e] + [f]));
    PossibleStep(s1, b, [c] + ([d] + ([e] + [f])));
    PossibleStep(s, a, [b] + ([c] + ([d] + ([e] + [f]))));
    acts := [a] + ([b] + ([c] + ([d] + ([e] + [f]))));
  }

  /** While the broadcaster runs, those are the only ways: a train of today is lost on a
      subscriber exactly when its snapshot is of today, lacks it, and every call for it failed;
      or its snapshot is of another day and every call that did not fail was fanned out before
      it registered. */
  lemma OnlyThoseAreLost(s: State, acts: seq<Action>, sub: SubId, id: TrainId)
    requires Initial(s) && Possible(s, acts)
    requires var t := After(s, acts); sub in t.subs && t.subs[sub].alive
    requires var t := After(s, acts); IsRunning(t, id) && t.trains[id].date == t.today
    ensures var t, h := After(s, acts), After(s, acts).subs[sub];
            Lost(t, sub, id) <==>
            && h.snapshot.Some? && h.since <= |t.fanned|
            && (h.snapshot.value.date == t.today ==> id !in h.snapshot.value.trains && t.dropped[id] == t.calls[id])
            && (h.snapshot.value.date != t.today ==>
                  t.calls[id] == t.dropped[id] + multiset(t.fanned[..h.since])[id])
  {
    RunKeeps(s, acts);
    if After(s, acts).subs[sub].snapshot.Some? {
      UnknownInState(After(s, acts), sub, id);
    }
  }

  // ---- the broadcaster's fan-out, in place ----

  function In(living: set<SubId>): SubId -> bool {
    (sub: SubId) => sub in living
  }

  /** The positions below `n` of streams whose handler is dead, in ascending order. */
  function DeadPositions(streams: seq<SubId>, living: set<SubId>, n: nat): seq<nat>
    requires n <= |streams|
  {
    if n == 0 then []
    else if streams[n - 1] in living then DeadPositions(streams, living, n - 1)
    else DeadPositions(streams, living, n - 1) + [n - 1]
  }

  lemma {:induction false} LastDead(streams: seq<SubId>, living: set<SubId>, n: nat)
    requires n <= |streams| && DeadPositions(streams, living, n) != []
    ensures var dead := DeadPositions(streams, living, n);
            var idx := dead[|dead| - 1];
            && idx < n && streams[idx] !in living
            && DeadPositions(streams, living, idx) == dead[..|dead| - 1]
            && forall k :: idx < k < n ==> streams[k] in living
    decreases n
  {
    if streams[n - 1] in living {
      LastDead(streams, living, n - 1);
      assert DeadPositions(streams, living, n) == DeadPositions(streams, living, n - 1);
    } else {
      assert DeadPositions(streams, living, n)[..|DeadPositions(streams, living, n)| - 1] ==
          DeadPositions(streams, living, n - 1);
    }
  }

  lemma {:induction false} NoneDead(streams: seq<SubId>, living: set<SubId>, n: nat)
    requires n <= |streams| && DeadPositions(streams, living, n) == []
    ensures forall k :: 0 <= k < n ==> streams[k] in living
    decreases n
  {
    if n > 0 {
      NoneDead(streams, living, n - 1);
    }
  }

  /** A stretch of living streams is kept whole. */
  lemma LivingStretch(keep: SubId -> bool, all: seq<SubId>, from: nat, low: nat)
    requires from <= low <= |all| && forall k :: from <= k < low ==> keep(all[k])
    ensures Filter(keep, all[from..]) == all[from..low] + Filter(keep, all[low..])
  {
    assert all[from..] == all[from..low] + all[low..];
    FilterAppend(keep, all[from..low], all[low..]);
    FilterAll(keep, all[from..low]);
  }

  lemma DeadHead(keep: SubId -> bool, all: seq<SubId>, idx: nat)
    requires idx < |all| && !keep(all[idx])
    ensures Filter(keep, all[idx..]) == Filter(keep, all[idx + 1..])
  {
    assert all[idx..] == [all[idx]] + all[idx + 1..];
    FilterAppend(keep, [all[idx]], all[idx + 1..]);
    FilterNone(keep, [all[idx]]);
    assert [] + Filter(keep, all[idx + 1..]) == Filter(keep, all[idx + 1..]);
  }

  lemma TakeOut(all: seq<SubId>, idx: nat, low: nat, tail: seq<SubId>)
    requires idx < low <= |all|
    ensures var now := all[..low] + tail; now[..idx] + now[idx + 1..] == all[..idx] + (all[idx + 1..low] + tail)
  {
  }

  /** Taking out the last dead stream below `low`. */
  lemma RemoveOne(keep: SubId -> bool, all: seq<SubId>, idx: nat, low: nat)
    requires idx < low <= |all| && !keep(all[idx]) && forall k :: idx < k < low ==> keep(all[k])
    ensures var now := all[..low] + Filter(keep, all[low..]);
            now[..idx] + now[idx + 1..] == all[..idx] + Filter(keep, all[idx..])
  {
    LivingStretch(keep, all, idx + 1, low);
    DeadHead(keep, all, idx);
    TakeOut(all, idx, low, Filter(keep, all[low..]));
  }

  type Queues = map<SubId, seq<TrainId>>

  /** The queues once the message has been sent to each of `streams` that lives. */
  function Delivered(queues: Queues, streams: seq<SubId>, living: set<SubId>, msg: TrainId): (r: Queues)
    ensures r.Keys == queues.Keys
  {
    if streams == [] then queues
    else
      var r, last := Delivered(queues, streams[..|streams| - 1], living, msg), streams[|streams| - 1];
      if last in living && last in r then r[last := r[last] + [msg]] else r
  }

  lemma DeliveredNext(queues: Queues, streams: seq<SubId>, living: set<SubId>, msg: TrainId, i: nat)
    requires i < |streams| && streams[i] in queues
    ensures var r := Delivered(queues, streams[..i], living, msg);
            Delivered(queues, streams[..i + 1], living, msg) ==
            if streams[i] in living then r[streams[i] := r[streams[i]] + [msg]] else r
  {
    assert streams[..i + 1][..i] == streams[..i];
  }

  /** Each stream being listed once, each living handler gets the message once. */
  lemma {:induction false} SentOnce(queues: Queues, streams: seq<SubId>, living: set<SubId>, msg: TrainId, sub: SubId)
    requires forall i, j :: 0 <= i < j < |streams| ==> streams[i] != streams[j]
    requires sub in queues
    ensures Delivered(queues, streams, living, msg)[sub] ==
            if sub in streams && sub in living then queues[sub] + [msg] else queues[sub]
    decreases |streams|
  {
    if streams != [] {
      NextStream(streams, |streams| - 1);
      assert streams[..|streams|] == streams;
      SentOnce(queues, streams[..|streams| - 1], living, msg, sub);
    }
  }

  lemma NextStream(streams: seq<SubId>, i: nat)
    requires i < |streams| && forall j, k :: 0 <= j < k < |streams| ==> streams[j] != streams[k]
    ensures streams[..i + 1] == streams[..i] + [streams[i]] && streams[i] !in streams[..i]
  {
  }

  /** Removal by position, from the last one collected to the first: the positions still to
      come stay right, and exactly the living streams remain, in order. */
  method RemoveDead(all: seq<SubId>, living: set<SubId>, toRemove: seq<nat>) returns (streams: seq<SubId>)
    requires toRemove == DeadPositions(all, living, |all|)
    ensures streams == Filter(In(living), all)
  {
    streams := all;
    var n := |toRemove|;
    ghost var low := |all|;
    assert all[..low] + Filter(In(living), all[low..]) == all;
    while n > 0
      invariant 0 <= n <= |toRemove| && low <= |all|
      invariant toRemove[..n] == DeadPositions(all, living, low)
      invariant streams == all[..low] + Filter(In(living), all[low..])
      decreases n
    {
      n := n - 1;
      var idx := toRemove[n];
      LastDead(all, living, low);
      assert idx == toRemove[..n + 1][n] && toRemove[..n + 1][..n] == toRemove[..n];
      RemoveOne(In(living), all, idx, low);
      streams := streams[..idx] + streams[idx + 1..];
      low := idx;
    }
    NoneDead(all, living, low);
    LivingStretch(In(living), all, 0, low);
    assert all[0..] == all && all[0..low] == all[..low];
  }

  /** The sending half of the fan-out; the positions of dead streams are collected. */
  method SendToAll(queues: Queues, streams: seq<SubId>, living: set<SubId>, msg: TrainId)
    returns (queues': Queues, toRemove: seq<nat>)
    requires forall sub :: sub in streams ==> sub in queues
    ensures toRemove == DeadPositions(streams, living, |streams|)
    ensures queues' == Delivered(queues, streams, living, msg)
  {
    queues', toRemove := queues, [];
    for i := 0 to |streams|
      invariant toRemove == DeadPositions(streams, living, i)
      invariant queues' == Delivered(queues, streams[..i], living, msg)
    {
      assert streams[i] in streams;
      DeliveredNext(queues, streams, living, msg, i);
      if streams[i] in living {
        queues' := queues'[streams[i] := queues'[streams[i]] + [msg]];
      } else {
        toRemove := toRemove + [i];
      }
    }
    assert streams[..|streams|] == streams;
  }

  // ---- the class is the protocol's broadcaster ----

  function QueuesOf(subs: map<SubId, Subscriber>): Queues {
    map sub | sub in subs :: subs[sub].queue
  }

  lemma {:induction false} FilterSame(f: SubId -> bool, g: SubId -> bool, all: seq<SubId>)
    requires forall x :: x in all ==> f(x) == g(x)
    ensures Filter(f, all) == Filter(g, all)
    decreases |all|
  {
    if all != [] {
      FilterSame(f, g, all[..|all| - 1]);
    }
  }

  /** The next message of the channel is `msg`, and `living` are the handlers that live. */
  ghost predicate FansOut(s: State, msg: TrainId, living: set<SubId>) {
    s.updates != [] && s.updates[0] == msg && forall sub :: sub in living <==> sub in s.subs && s.subs[sub].alive
  }

  /** Sending to all and dropping the dead is the fan-out step of the protocol. */
  lemma FanOutMessageIsStep(s: State, living: set<SubId>, streams: seq<SubId>, queues: Queues)
    requires StreamsListed(s) && s.updates != []
    requires forall sub :: sub in living <==> sub in s.subs && s.subs[sub].alive
    requires streams == Filter(In(living), s.streams)
    requires queues.Keys == s.subs.Keys
    requires forall sub :: sub in queues ==>
               queues[sub] == if sub in s.streams && sub in living then s.subs[sub].queue + [s.updates[0]]
                              else s.subs[sub].queue
    ensures Step(s, FanOut).streams == streams && QueuesOf(Step(s, FanOut).subs) == queues
  {
    FilterSame(In(living), Living(s.subs), s.streams);
  }

  class LiveBroadcaster {
    var streams: seq<SubId>
    var queues: Queues

    /** Every stream has a channel and is listed once. */
    ghost predicate Valid()
      reads this
    {
      && (forall sub :: sub in streams ==> sub in queues)
      && (forall i, j :: 0 <= i < j < |streams| ==> streams[i] != streams[j])
    }

    /** The broadcaster and its channels are those of this state of the protocol. */
    ghost predicate Shows(s: State)
      reads this
    {
      streams == s.streams && queues == QueuesOf(s.subs)
    }

    constructor ()
      ensures Valid() && forall s :: Initial(s) ==> Shows(s)
    {
      streams, queues := [], map[];
    }

    /** The `new_streams` branch of `run`. The new handler is sent every later message, and
        nothing else: its channel starts empty. */
    method Register(sub: SubId)
      requires Valid() && sub !in queues
      modifies this
      ensures Valid()
      ensures sub in streams && queues[sub] == [] && forall s :: old(Shows(s)) ==> Shows(Step(s, Action.Register(sub)))
      ensures forall other :: other != sub ==> (other in streams <==> other in old(streams))
    {
      streams, queues := streams + [sub], queues[sub := []];
      forall s | old(Shows(s)) ensures Shows(Step(s, Action.Register(sub))) {
        assert QueuesOf(Step(s, Action.Register(sub)).subs) == QueuesOf(s.subs)[sub := []];
      }
    }

    /** The `updates` branch of `run`: every living handler gets the message once, and exactly
        the streams of dead ones disappear. */
    method FanOutMessage(msg: TrainId, living: set<SubId>)
      requires Valid()
      modifies this
      ensures Valid()
      ensures streams == Filter(In(living), old(streams))
      ensures queues.Keys == old(queues).Keys
      ensures forall sub :: sub in queues ==>
                queues[sub] == if sub in old(streams) && sub in living then old(queues)[sub] + [msg]
                               else old(queues)[sub]
      ensures forall s :: old(Shows(s)) && FansOut(s, msg, living) ==> Shows(Step(s, FanOut))
    {
      forall sub | sub in queues
        ensures Delivered(queues, streams, living, msg)[sub] ==
                if sub in streams && sub in living then queues[sub] + [msg] else queues[sub]
      {
        SentOnce(queues, streams, living, msg, sub);
      }
      var toRemove;
      ghost var index := FilterOrder(In(living), streams);
      queues, toRemove := SendToAll(queues, streams, living, msg);
      ghost var all := streams;
      streams := RemoveDead(streams, living, toRemove);
      forall i, j | 0 <= i < j < |streams| ensures streams[i] != streams[j] {
        assert all[index[i]] != all[index[j]];
      }
      forall s: State | old(Shows(s)) && FansOut(s, msg, living) ensures Shows(Step(s, FanOut)) {
        FanOutMessageIsStep(s, living, streams, queues);
      }
    }
  }
}
