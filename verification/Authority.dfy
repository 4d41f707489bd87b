/** Which of a train's schedules counts on a day: the scan of tspl-fahrplan, the older scan
    of osms-db with the opposite order, and the fold over a self-join. */
module Authority {
  import opened Options
  import opened Seqs

  datatype SchedId = SchedId(number: int)

  datatype Stp = NoIndicator | Permanent | Overlay | NewSchedule | Cancellation
  {
    function AsChar(): char {
      match this
      case NoIndicator => ' '
      case Permanent => 'P'
      case Overlay => 'O'
      case NewSchedule => 'N'
      case Cancellation => 'C'
    }

    /** Position in the enumeration, which orders it. */
    function Rank(): int {
      match this
      case NoIndicator => 0
      case Permanent => 1
      case Overlay => 2
      case NewSchedule => 3
      case Cancellation => 4
    }
  }

  datatype Weekday = Monday | Tuesday | Wednesday | Thursday | Friday | Saturday | Sunday

  datatype Day = Day(date: int, weekday: Weekday)

  datatype Sched = Sched(
    id: SchedId, uid: string, startDate: int, endDate: int, days: set<Weekday>, stp: Stp, source: int)

  /** `sched.stp_indicator < other.stp_indicator`, as strings of one letter. */
  predicate Supersedes(s: Sched, other: Sched) {
    s.stp.AsChar() < other.stp.AsChar()
  }

  function Dated(uid: string, day: Day, source: int): Sched -> bool {
    (s: Sched) => s.uid == uid && s.startDate <= day.date <= s.endDate && s.source == source
  }

  function OnWeekday(day: Day): Sched -> bool {
    (s: Sched) => day.weekday in s.days
  }

  /** The rows both scans consider, in row order. */
  function RunningRows(table: seq<Sched>, uid: string, day: Day, source: int): seq<Sched> {
    Filter(OnWeekday(day), Filter(Dated(uid, day, source), table))
  }

  // ---- the scan of tspl-fahrplan ----

  datatype ScanResult = Chosen(sched: Option<Sched>) | StpIndicatorsEqual

  function ScanStep(r: ScanResult, s: Sched): ScanResult {
    match r
    case StpIndicatorsEqual => r
    case Chosen(None) => Chosen(Some(s))
    case Chosen(Some(other)) =>
      if Supersedes(s, other) then Chosen(Some(s))
      else if s.stp == other.stp && s.stp != Cancellation then StpIndicatorsEqual
      else r
  }

  function Scan(rows: seq<Sched>): ScanResult {
    if rows == [] then Chosen(None) else ScanStep(Scan(rows[..|rows| - 1]), rows[|rows| - 1])
  }

  /** Row k supersedes every earlier row, and no later row supersedes it. */
  ghost predicate FirstLeast(rows: seq<Sched>, k: int) {
    && 0 <= k < |rows|
    && (forall i :: 0 <= i < k ==> Supersedes(rows[k], rows[i]))
    && (forall i :: k < i < |rows| ==> !Supersedes(rows[i], rows[k]))
  }

  /** Row j repeats the indicator that is least so far, and it is not a cancellation. */
  ghost predicate Clash(rows: seq<Sched>, j: int) {
    && 0 <= j < |rows| && rows[j].stp != Cancellation
    && (exists i :: 0 <= i < j && rows[i].stp == rows[j].stp)
    && (forall i :: 0 <= i < j ==> !Supersedes(rows[i], rows[j]))
  }

  ghost predicate HasClash(rows: seq<Sched>) {
    exists j :: Clash(rows, j)
  }

  lemma ClashPrefix(rows: seq<Sched>, s: Sched)
    ensures HasClash(rows + [s]) <==> HasClash(rows) || Clash(rows + [s], |rows|)
  {
    if HasClash(rows) {
      var j :| Clash(rows, j);
      assert Clash(rows + [s], j) by {
        var i :| 0 <= i < j && rows[i].stp == rows[j].stp;
        assert (rows + [s])[i].stp == (rows + [s])[j].stp;
      }
    }
    if HasClash(rows + [s]) {
      var j :| Clash(rows + [s], j);
      if j < |rows| {
        var i :| 0 <= i < j && (rows + [s])[i].stp == (rows + [s])[j].stp;
        assert rows[i].stp == rows[j].stp;
        assert forall k :: 0 <= k < j ==> rows[k] == (rows + [s])[k];
        assert Clash(rows, j);
      }
    }
  }

  /** The scan fails exactly when some row repeats the least indicator so far, and otherwise
      returns the first row with the least indicator. */
  lemma {:induction false} ScanMeans(rows: seq<Sched>)
    ensures Scan(rows) == StpIndicatorsEqual <==> HasClash(rows)
    ensures Scan(rows) == Chosen(None) <==> rows == []
    ensures Scan(rows).Chosen? && rows != [] ==> exists k :: FirstLeast(rows, k) && Scan(rows) == Chosen(Some(rows[k]))
    decreases |rows|
  {
    if rows != [] {
      var front, last := rows[..|rows| - 1], rows[|rows| - 1];
      assert rows == front + [last];
      ScanMeans(front);
      ClashPrefix(front, last);
      if Scan(front).Chosen? {
        if front == [] {
          assert FirstLeast(rows, 0);
        } else {
          var k :| FirstLeast(front, k) && Scan(front) == Chosen(Some(front[k]));
          LastRow(front, last, k);
        }
      }
    }
  }

  lemma LastRow(front: seq<Sched>, last: Sched, k: int)
    requires FirstLeast(front, k)
    ensures Clash(front + [last], |front|) <==> last.stp == front[k].stp && last.stp != Cancellation
    ensures Supersedes(last, front[k]) ==> FirstLeast(front + [last], |front|)
    ensures !Supersedes(last, front[k]) ==> FirstLeast(front + [last], k)
  {
    var rows := front + [last];
    assert forall i :: 0 <= i < |front| ==> rows[i] == front[i] && !Supersedes(front[i], front[k]);
    if last.stp == front[k].stp {
      assert rows[k].stp == rows[|front|].stp;
    }
    if Clash(rows, |front|) {
      var i :| 0 <= i < |front| && rows[i].stp == last.stp;
      assert !Supersedes(rows[k], last);
    }
  }

  /** The scan as the loop runs it, passing over rows for other weekdays. */
  function ScanOn(rows: seq<Sched>, day: Day): ScanResult {
    if rows == [] then Chosen(None)
    else
      var r, last := ScanOn(rows[..|rows| - 1], day), rows[|rows| - 1];
      if day.weekday in last.days then ScanStep(r, last) else r
  }

  lemma {:induction false} ScanOnIsScan(rows: seq<Sched>, day: Day)
    ensures ScanOn(rows, day) == Scan(Filter(OnWeekday(day), rows))
    decreases |rows|
  {
    if rows != [] {
      var front, last := rows[..|rows| - 1], rows[|rows| - 1];
      ScanOnIsScan(front, day);
      var kept := Filter(OnWeekday(day), front);
      if day.weekday in last.days {
        assert (kept + [last])[..|kept|] == kept;
      } else {
        assert kept + [] == kept;
      }
    }
  }

  lemma {:induction false} ErrorStays(rows: seq<Sched>, day: Day, i: nat)
    requires i <= |rows| && ScanOn(rows[..i], day) == StpIndicatorsEqual
    ensures ScanOn(rows, day) == StpIndicatorsEqual
    decreases |rows|
  {
    if i == |rows| {
      assert rows[..i] == rows;
    } else {
      assert rows[..|rows| - 1][..i] == rows[..i];
      ErrorStays(rows[..|rows| - 1], day, i);
    }
  }

  lemma NextScanned(rows: seq<Sched>, day: Day, i: nat)
    requires i < |rows|
    ensures ScanOn(rows[..i + 1], day) ==
            if day.weekday in rows[i].days then ScanStep(ScanOn(rows[..i], day), rows[i]) else ScanOn(rows[..i], day)
  {
    assert rows[..i + 1][..i] == rows[..i];
  }

  /** `get_auth_schedule`. */
  method GetAuthSchedule(table: seq<Sched>, uid: string, day: Day, source: int) returns (r: ScanResult)
    ensures r == Scan(RunningRows(table, uid, day, source))
  {
    var scheds := Filter(Dated(uid, day, source), table);
    ScanOnIsScan(scheds, day);
    var ret: Option<Sched> := None;
    for i := 0 to |scheds|
      invariant ScanOn(scheds[..i], day) == Chosen(ret)
    {
      var sched := scheds[i];
      NextScanned(scheds, day, i);
      if day.weekday !in sched.days {
        continue;
      }
      if ret.None? {
        ret := Some(sched);
        continue;
      }
      var other := ret.value;
      if Supersedes(sched, other) {
        ret := Some(sched);
      } else if sched.stp == other.stp && sched.stp != Cancellation {
        ErrorStays(scheds, day, i + 1);
        return StpIndicatorsEqual;
      }
    }
    assert scheds[..|scheds|] == scheds;
    r := Chosen(ret);
  }

  // ---- the older scan ----

  /** The best id and indicator so far, starting from (0, None). */
  datatype LegacyResult = Highest(id: SchedId, stp: Stp) | Inconsistent

  function LegacyStep(r: LegacyResult, s: Sched): LegacyResult {
    match r
    case Inconsistent => r
    case Highest(id, stp) =>
      if s.stp.Rank() > stp.Rank() then Highest(s.id, s.stp)
      else if s.stp == stp && s.stp != Cancellation then Inconsistent
      else r
  }

  function LegacyScan(rows: seq<Sched>): LegacyResult {
    if rows == [] then Highest(SchedId(0), NoIndicator)
    else LegacyStep(LegacyScan(rows[..|rows| - 1]), rows[|rows| - 1])
  }

  datatype AuthorityOutcome = Verdict(authoritative: bool) | DatabaseInconsistency

  predicate RunsOn(s: Sched, day: Day) {
    s.startDate <= day.date <= s.endDate && day.weekday in s.days
  }

  function LegacyVerdict(table: seq<Sched>, self: Sched, day: Day): AuthorityOutcome {
    if !RunsOn(self, day) then Verdict(false)
    else
      match LegacyScan(RunningRows(table, self.uid, day, self.source))
      case Inconsistent => DatabaseInconsistency
      case Highest(id, _) => Verdict(id == self.id)
  }

  function LegacyScanOn(rows: seq<Sched>, day: Day): LegacyResult {
    if rows == [] then Highest(SchedId(0), NoIndicator)
    else
      var r, last := LegacyScanOn(rows[..|rows| - 1], day), rows[|rows| - 1];
      if day.weekday in last.days then LegacyStep(r, last) else r
  }

  lemma {:induction false} LegacyScanOnIsScan(rows: seq<Sched>, day: Day)
    ensures LegacyScanOn(rows, day) == LegacyScan(Filter(OnWeekday(day), rows))
    decreases |rows|
  {
    if rows != [] {
      var front, last := rows[..|rows| - 1], rows[|rows| - 1];
      LegacyScanOnIsScan(front, day);
      var kept := Filter(OnWeekday(day), front);
      if day.weekday in last.days {
        assert (kept + [last])[..|kept|] == kept;
      } else {
        assert kept + [] == kept;
      }
    }
  }

  lemma {:induction false} LegacyErrorStays(rows: seq<Sched>, day: Day, i: nat)
    requires i <= |rows| && LegacyScanOn(rows[..i], day) == Inconsistent
    ensures LegacyScanOn(rows, day) == Inconsistent
    decreases |rows|
  {
    if i == |rows| {
      assert rows[..i] == rows;
    } else {
      assert rows[..|rows| - 1][..i] == rows[..i];
      LegacyErrorStays(rows[..|rows| - 1], day, i);
    }
  }

  lemma NextScannedLegacy(rows: seq<Sched>, day: Day, i: nat)
    requires i < |rows|
    ensures LegacyScanOn(rows[..i + 1], day) ==
            if day.weekday in rows[i].days then LegacyStep(LegacyScanOn(rows[..i], day), rows[i])
            else LegacyScanOn(rows[..i], day)
  {
    assert rows[..i + 1][..i] == rows[..i];
  }

  /** `Schedule::is_authoritative`. */
  method IsAuthoritative(table: seq<Sched>, self: Sched, day: Day) returns (r: AuthorityOutcome)
    ensures r == LegacyVerdict(table, self, day)
  {
    if day.weekday !in self.days {
      return Verdict(false);
    }
    if day.date > self.endDate || day.date < self.startDate {
      return Verdict(false);
    }
    var scheds := Filter(Dated(self.uid, day, self.source), table);
    LegacyScanOnIsScan(scheds, day);
    var highest := (SchedId(0), NoIndicator);
    for i := 0 to |scheds|
      invariant LegacyScanOn(scheds[..i], day) == Highest(highest.0, highest.1)
    {
      var sched := scheds[i];
      NextScannedLegacy(scheds, day, i);
      if day.weekday !in sched.days {
        continue;
      }
      if sched.stp.Rank() > highest.1.Rank() {
        highest := (sched.id, sched.stp);
      } else if sched.stp == highest.1 && sched.stp != Cancellation {
        LegacyErrorStays(scheds, day, i + 1);
        return DatabaseInconsistency;
      }
    }
    assert scheds[..|scheds|] == scheds;
    r := Verdict(highest.0 == self.id);
  }

  // ---- the scans agree ----

  ghost predicate Indicated(rows: seq<Sched>) {
    forall s :: s in rows ==> s.stp != NoIndicator && s.id.number > 0
  }

  lemma {:induction false} ScansInStep(rows: seq<Sched>)
    requires Indicated(rows)
    ensures match Scan(rows)
            case StpIndicatorsEqual => LegacyScan(rows) == Inconsistent
            case Chosen(None) => LegacyScan(rows) == Highest(SchedId(0), NoIndicator) && rows == []
            case Chosen(Some(s)) => LegacyScan(rows) == Highest(s.id, s.stp) && s in rows
    decreases |rows|
  {
    if rows != [] {
      ScansInStep(rows[..|rows| - 1]);
    }
  }

  ghost predicate UniqueIds(table: seq<Sched>) {
    forall s, t :: s in table && t in table && s.id == t.id ==> s == t
  }

  /** Least string and greatest enumeration value mean the same: for a stored schedule that
      runs on the day, one scan fails exactly when the other does, and otherwise the new
      scan picks it exactly when the old one calls it authoritative. */
  lemma ScansAgree(table: seq<Sched>, self: Sched, day: Day)
    requires UniqueIds(table) && self in table && RunsOn(self, day)
    requires Indicated(RunningRows(table, self.uid, day, self.source))
    ensures LegacyVerdict(table, self, day) ==
            match Scan(RunningRows(table, self.uid, day, self.source))
            case StpIndicatorsEqual => DatabaseInconsistency
            case Chosen(s) => Verdict(s == Some(self))
  {
    var rows := RunningRows(table, self.uid, day, self.source);
    ScansInStep(rows);
    ScanMeans(rows);
    assert self in rows;
  }

  // ---- rows without an indicator ----

  function HasIndicator(): Sched -> bool {
    (s: Sched) => s.stp != NoIndicator
  }

  ghost predicate AllIndicated(rows: seq<Sched>) {
    forall s :: s in rows ==> s.stp != NoIndicator
  }

  /** Once a row with an indicator came first, the older scan passes over those without. */
  lemma {:induction false} LegacySkips(rows: seq<Sched>)
    requires rows != [] && rows[0].stp != NoIndicator
    ensures LegacyScan(rows) == LegacyScan(Filter(HasIndicator(), rows))
    ensures LegacyScan(rows).Highest? ==> LegacyScan(rows).stp != NoIndicator
    decreases |rows|
  {
    var front, last := rows[..|rows| - 1], rows[|rows| - 1];
    LastKept(rows);
    if front == [] {
      assert last == rows[0] && Filter(HasIndicator(), front) == [];
      assert LegacyScan(rows) == LegacyStep(Highest(SchedId(0), NoIndicator), last);
    } else {
      LegacySkips(front);
      StepSkips(LegacyScan(front), last);
    }
  }

  lemma StepSkips(r: LegacyResult, s: Sched)
    requires r.Highest? ==> r.stp != NoIndicator
    ensures s.stp == NoIndicator ==> LegacyStep(r, s) == r
    ensures LegacyStep(r, s).Highest? ==> LegacyStep(r, s).stp != NoIndicator
  {
  }

  lemma LastKept(rows: seq<Sched>)
    requires rows != []
    ensures var front, last := rows[..|rows| - 1], rows[|rows| - 1];
            LegacyScan(Filter(HasIndicator(), rows)) ==
            if last.stp != NoIndicator then LegacyStep(LegacyScan(Filter(HasIndicator(), front)), last)
            else LegacyScan(Filter(HasIndicator(), front))
  {
    var front, last := rows[..|rows| - 1], rows[|rows| - 1];
    var kept := Filter(HasIndicator(), front);
    if last.stp != NoIndicator {
      assert Filter(HasIndicator(), rows) == kept + [last] && (kept + [last])[..|kept|] == kept;
    } else {
      assert Filter(HasIndicator(), rows) == kept + [] == kept;
    }
  }

  lemma {:induction false} LegacyStartsWrong(rows: seq<Sched>)
    requires rows != [] && rows[0].stp == NoIndicator
    ensures LegacyScan(rows) == Inconsistent
    decreases |rows|
  {
    if |rows| > 1 {
      LegacyStartsWrong(rows[..|rows| - 1]);
    }
  }

  /** The first row lacks an indicator, or the rows that have one clash. */
  ghost predicate OldFails(rows: seq<Sched>) {
    (rows != [] && rows[0].stp == NoIndicator) || HasClash(Filter(HasIndicator(), rows))
  }

  /** That is exactly when the older scan fails. */
  lemma LegacyFailsIff(rows: seq<Sched>)
    requires forall s :: s in rows ==> s.id.number > 0
    ensures LegacyScan(rows) == Inconsistent <==> OldFails(rows)
  {
    if rows != [] {
      if rows[0].stp == NoIndicator {
        LegacyStartsWrong(rows);
      } else {
        LegacySkips(rows);
        ScansInStep(Filter(HasIndicator(), rows));
        ScanMeans(Filter(HasIndicator(), rows));
      }
    }
  }

  /** Two rows lack an indicator, or a clash comes before the first that does. */
  ghost predicate NewFails(rows: seq<Sched>) {
    var n := FirstLacking(rows);
    HasClash(rows[..n]) || exists j :: n < j < |rows| && rows[j].stp == NoIndicator
  }

  /** The position of the first row without an indicator, or the number of rows. */
  function FirstLacking(rows: seq<Sched>): (n: nat)
    ensures n <= |rows| && AllIndicated(rows[..n]) && (n < |rows| ==> rows[n].stp == NoIndicator)
  {
    if rows == [] then 0
    else
      var front, last := rows[..|rows| - 1], rows[|rows| - 1];
      var n := FirstLacking(front);
      assert rows == front + [last] && rows[..n] == front[..n];
      if n < |front| || last.stp == NoIndicator then n else
        assert front[..n] == front;
        |rows|
  }

  /** That is exactly when the newer scan fails. */
  lemma ScanFailsIff(rows: seq<Sched>)
    ensures Scan(rows) == StpIndicatorsEqual <==> NewFails(rows)
  {
    var n := FirstLacking(rows);
    if n == |rows| {
      assert rows[..n] == rows;
    }
    ScanMeans(rows);
    if j :| Clash(rows, j) {
      if j < n {
        ClashBefore(rows, n, j);
      } else {
        ClashFrom(rows, n, j);
      }
    }
    if j :| Clash(rows[..n], j) {
      ClashBefore(rows, n, j);
    }
    if j :| n < j < |rows| && rows[j].stp == NoIndicator {
      ClashFrom(rows, n, j);
    }
  }

  lemma ClashBefore(rows: seq<Sched>, n: nat, j: int)
    requires n <= |rows| && j < n
    ensures Clash(rows, j) <==> Clash(rows[..n], j)
  {
    if Clash(rows, j) {
      var i :| 0 <= i < j && rows[i].stp == rows[j].stp;
      assert rows[..n][i].stp == rows[..n][j].stp;
    }
    if Clash(rows[..n], j) {
      var i :| 0 <= i < j && rows[..n][i].stp == rows[..n][j].stp;
      assert rows[i].stp == rows[j].stp;
    }
  }

  lemma ClashFrom(rows: seq<Sched>, n: nat, j: int)
    requires n <= j < |rows| && AllIndicated(rows[..n]) && rows[n].stp == NoIndicator
    ensures Clash(rows, j) <==> n < j && rows[j].stp == NoIndicator
  {
    assert forall i :: 0 <= i < n ==> rows[i] == rows[..n][i] && rows[i].stp != NoIndicator;
    if n < j && rows[j].stp == NoIndicator {
      assert rows[n].stp == rows[j].stp;
    }
  }

  /** What the newer scan says of one schedule. */
  function NewVerdict(table: seq<Sched>, self: Sched, day: Day): AuthorityOutcome {
    match Scan(RunningRows(table, self.uid, day, self.source))
    case StpIndicatorsEqual => DatabaseInconsistency
    case Chosen(s) => Verdict(s == Some(self))
  }

  ghost predicate VerdictsAgree(table: seq<Sched>, uid: string, day: Day, source: int) {
    forall s :: s in RunningRows(table, uid, day, source) ==> LegacyVerdict(table, s, day) == NewVerdict(table, s, day)
  }

  lemma IndicatedAgree(table: seq<Sched>, uid: string, day: Day, source: int)
    requires UniqueIds(table) && forall s :: s in table ==> s.id.number > 0
    requires AllIndicated(RunningRows(table, uid, day, source))
    ensures VerdictsAgree(table, uid, day, source)
  {
    forall s | s in RunningRows(table, uid, day, source)
      ensures LegacyVerdict(table, s, day) == NewVerdict(table, s, day)
    {
      RunningRowIs(table, uid, day, source, s);
      ScansAgree(table, s, day);
    }
  }

  lemma FailedAgree(table: seq<Sched>, uid: string, day: Day, source: int)
    requires Scan(RunningRows(table, uid, day, source)) == StpIndicatorsEqual
    requires LegacyScan(RunningRows(table, uid, day, source)) == Inconsistent
    ensures VerdictsAgree(table, uid, day, source)
  {
    forall s | s in RunningRows(table, uid, day, source)
      ensures LegacyVerdict(table, s, day) == NewVerdict(table, s, day)
    {
      RunningRowIs(table, uid, day, source, s);
    }
  }

  lemma AgreeUnlessOneFails(table: seq<Sched>, uid: string, day: Day, source: int)
    requires UniqueIds(table) && forall s :: s in table ==> s.id.number > 0
    ensures var rows := RunningRows(table, uid, day, source);
            VerdictsAgree(table, uid, day, source) <==>
            AllIndicated(rows) || (Scan(rows) == StpIndicatorsEqual && LegacyScan(rows) == Inconsistent)
  {
    var rows := RunningRows(table, uid, day, source);
    if AllIndicated(rows) {
      IndicatedAgree(table, uid, day, source);
    } else if Scan(rows) == StpIndicatorsEqual && LegacyScan(rows) == Inconsistent {
      FailedAgree(table, uid, day, source);
    } else {
      var lacking :| lacking in rows && lacking.stp == NoIndicator;
      LackingDisagrees(table, uid, day, source, lacking);
    }
  }

  /** The scans agree on every schedule of a uid that runs on the day exactly when none of
      them lacks an indicator, or both scans fail. */
  lemma ScansAgreeIff(table: seq<Sched>, uid: string, day: Day, source: int)
    requires UniqueIds(table) && forall s :: s in table ==> s.id.number > 0
    ensures var rows := RunningRows(table, uid, day, source);
            VerdictsAgree(table, uid, day, source) <==> AllIndicated(rows) || (OldFails(rows) && NewFails(rows))
  {
    var rows := RunningRows(table, uid, day, source);
    AgreeUnlessOneFails(table, uid, day, source);
    assert forall s :: s in rows ==> s in table;
    LegacyFailsIff(rows);
    ScanFailsIff(rows);
  }

  lemma RunningRowIs(table: seq<Sched>, uid: string, day: Day, source: int, s: Sched)
    requires s in RunningRows(table, uid, day, source)
    ensures s in table && s.uid == uid && s.source == source && RunsOn(s, day)
  {
  }

  /** Some row without an indicator: the newer scan chooses such a row, the older never does. */
  lemma LackingDisagrees(table: seq<Sched>, uid: string, day: Day, source: int, lacking: Sched)
    requires UniqueIds(table) && forall s :: s in table ==> s.id.number > 0
    requires lacking in RunningRows(table, uid, day, source) && lacking.stp == NoIndicator
    requires var rows := RunningRows(table, uid, day, source);
             !(Scan(rows) == StpIndicatorsEqual && LegacyScan(rows) == Inconsistent)
    ensures !VerdictsAgree(table, uid, day, source)
  {
    var rows := RunningRows(table, uid, day, source);
    var s := lacking;
    if Scan(rows).Chosen? && LegacyScan(rows).Highest? {
      s := ChosenDiffers(table, uid, day, source, lacking);
    }
    RunningRowIs(table, uid, day, source, s);
    assert LegacyVerdict(table, s, day) != NewVerdict(table, s, day);
  }

  lemma ChosenDiffers(table: seq<Sched>, uid: string, day: Day, source: int, lacking: Sched) returns (s: Sched)
    requires UniqueIds(table) && forall s :: s in table ==> s.id.number > 0
    requires lacking in RunningRows(table, uid, day, source) && lacking.stp == NoIndicator
    requires Scan(RunningRows(table, uid, day, source)).Chosen?
    requires LegacyScan(RunningRows(table, uid, day, source)).Highest?
    ensures s in RunningRows(table, uid, day, source)
    ensures Scan(RunningRows(table, uid, day, source)) == Chosen(Some(s))
    ensures LegacyScan(RunningRows(table, uid, day, source)).id != s.id
  {
    var rows := RunningRows(table, uid, day, source);
    ScanMeans(rows);
    var k :| FirstLeast(rows, k) && Scan(rows) == Chosen(Some(rows[k]));
    s := rows[k];
    LeastLacks(rows, k, lacking);
    forall t | t in rows ensures t.id.number > 0 {
      RunningRowIs(table, uid, day, source, t);
    }
    LegacyHighest(rows);
    var t :| t in rows && t.stp != NoIndicator && LegacyScan(rows).id == t.id;
    RunningRowIs(table, uid, day, source, t);
    RunningRowIs(table, uid, day, source, s);
  }

  lemma LeastLacks(rows: seq<Sched>, k: int, lacking: Sched)
    requires FirstLeast(rows, k) && lacking in rows && lacking.stp == NoIndicator
    ensures rows[k].stp == NoIndicator
  {
    var i :| 0 <= i < |rows| && rows[i] == lacking;
  }

  /** The schedule the older scan ends with has an indicator. */
  lemma LegacyHighest(rows: seq<Sched>)
    requires rows != [] && LegacyScan(rows).Highest? && forall s :: s in rows ==> s.id.number > 0
    ensures exists s :: s in rows && s.stp != NoIndicator && LegacyScan(rows).id == s.id
  {
    if rows[0].stp == NoIndicator {
      LegacyStartsWrong(rows);
    } else {
      LegacySkips(rows);
      var kept := Filter(HasIndicator(), rows);
      ScansInStep(kept);
      assert rows[0] in kept;
      ScanMeans(kept);
      var s := Scan(kept).sched.value;
      assert s in kept;
    }
  }

  /** For example, a lone schedule without an indicator is chosen by the new scan and an
      inconsistency to the old one. */
  lemma NoIndicatorDisagrees(s: Sched)
    requires s.stp == NoIndicator
    ensures Scan([s]) == Chosen(Some(s)) && LegacyScan([s]) == Inconsistent
  {
    assert [s][..0] == [];
  }

  // ---- row order does not matter when no indicator repeats ----

  ghost predicate DistinctStps(rows: seq<Sched>) {
    forall i, j :: 0 <= i < j < |rows| ==> rows[i].stp != rows[j].stp
  }

  /** The schedule no other in the collection supersedes. */
  ghost predicate Least(rows: seq<Sched>, s: Sched) {
    s in rows && forall t :: t in rows && t != s ==> Supersedes(s, t)
  }

  lemma FirstLeastIsLeast(rows: seq<Sched>, k: int)
    requires DistinctStps(rows) && FirstLeast(rows, k)
    ensures Least(rows, rows[k])
  {
    forall t | t in rows && t != rows[k] ensures Supersedes(rows[k], t) {
      var i :| 0 <= i < |rows| && rows[i] == t;
      if i > k {
        assert rows[k].stp != rows[i].stp && !Supersedes(rows[i], rows[k]);
      }
    }
  }

  lemma LeastUnique(rows: seq<Sched>, s: Sched, t: Sched)
    requires Least(rows, s) && Least(rows, t)
    ensures s == t
  {
  }

  lemma DistinctHasNoClash(rows: seq<Sched>)
    requires DistinctStps(rows)
    ensures !HasClash(rows)
  {
  }

  /** With no indicator repeated the scan succeeds and finds the least. */
  lemma DistinctScan(rows: seq<Sched>, s: Sched)
    requires DistinctStps(rows)
    ensures Scan(rows).Chosen?
    ensures Scan(rows) == Chosen(Some(s)) <==> Least(rows, s)
  {
    ScanMeans(rows);
    DistinctHasNoClash(rows);
    if rows != [] {
      var k :| FirstLeast(rows, k) && Scan(rows) == Chosen(Some(rows[k]));
      FirstLeastIsLeast(rows, k);
      if Least(rows, s) {
        LeastUnique(rows, s, rows[k]);
      }
    }
  }

  lemma PermutationKeepsChoice(rows: seq<Sched>, other: seq<Sched>)
    requires DistinctStps(rows) && DistinctStps(other)
    requires multiset(rows) == multiset(other)
    ensures Scan(rows) == Scan(other)
  {
    assert |multiset(rows)| == |multiset(other)|;
    assert forall s :: s in rows <==> s in multiset(other);
    if rows != [] {
      DistinctScan(rows, rows[0]);
      ScanMeans(rows);
      var s := Scan(rows).sched.value;
      DistinctScan(rows, s);
      DistinctScan(other, s);
    }
  }
}
