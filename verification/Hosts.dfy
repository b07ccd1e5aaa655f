/** Any number of hosts that make a schedule, publish it and install it, and of hosts that fetch
    a published one and install it (command/schedule.go:58-107, command/fetchschedule.go:29-44). */
module Hosts {
  import opened Domain
  import opened WorkCalendar
  import opened Entries
  import opened MySql
  import opened Serializable
  import opened Scheduling
  import CronText

  /** A host that publishes the entries at the instant; `path` and `account` go into its crontab. */
  datatype Scheduler = Scheduler(instant: int, zone: Zone, entries: seq<Entry>, path: string, account: string) {
    function Date(): int { zone.dayOf(instant) }
  }

  /** A host that asks for the schedule at the instant. */
  datatype Fetcher = Fetcher(instant: int, zone: Zone, path: string, account: string) {
    function Date(): int { zone.dayOf(instant) }
  }

  /** A publish counts the rows of one date and, finding none, inserts its own. */
  ghost predicate IsScriptOf(script: Script<int, ScheduleRow>, h: Scheduler) {
    IsUtcDay(h.instant, script.query) && script.rows == RowsOfEntries(h.Date(), h.entries)
  }

  /** A publish that is alone does what its transaction does at once. */
  lemma PublishIsTestAndSet(sys: System<int, ScheduleRow>, script: Script<int, ScheduleRow>, h: Scheduler, rows: seq<ScheduleRow>)
    requires sys.selects == HasDate && IsScriptOf(script, h)
    ensures TestAndSet(sys, rows, script)
         == if AnyOnUtcDay(h.instant, rows) then rows else rows + RowsOfEntries(h.zone.dayOf(h.instant), h.entries)
  {
    AnyOnUtcDayIff(h.instant, rows);
    SqlDateIff(h.instant, script.query);
    SelectsNoneIsNoneOn(sys, SqlDate(h.instant), rows);
    EntriesOnNone(SqlDate(h.instant), rows);
  }

  predicate HasDate(date: int, row: ScheduleRow) {
    row.date == date
  }

  datatype Fleet = Fleet(sys: System<int, ScheduleRow>, schedulers: seq<Scheduler>, fetchers: seq<Fetcher>)

  ghost predicate Runs(fleet: Fleet) {
    && fleet.sys.selects == HasDate
    && |fleet.sys.scripts| == |fleet.schedulers|
    && (forall c :: 0 <= c < |fleet.schedulers| ==> IsScriptOf(fleet.sys.scripts[c], fleet.schedulers[c]))
  }

  /** The store and the crontab that each host has installed, if it has. */
  datatype Crons = Crons(db: State, scheduled: seq<Option<string>>, fetched: seq<Option<string>>)

  /** The sorted entries of an installed crontab are part of the step. */
  datatype Move = Store(step: Step) | Install(host: nat, sorted: seq<Entry>) | Fetch(host: nat, sorted: seq<Entry>)

  ghost predicate Sorts(sorted: seq<Entry>, es: seq<Entry>) {
    multiset(sorted) == multiset(es) && InTimeOrder(sorted)
  }

  ghost predicate Fits(fleet: Fleet, s: Crons) {
    && Runs(fleet) && WellFormed(fleet.sys, s.db)
    && |s.scheduled| == |fleet.schedulers| && |s.fetched| == |fleet.fetchers|
  }

  /** The schedule that the store has for a date. */
  ghost function Stored(fleet: Fleet, s: Crons, date: int): seq<Entry>
    requires Fits(fleet, s)
  {
    EntriesOn(date, Table(fleet.sys, s.db.log))
  }

  /** A host installs its own schedule once it is published, and a fetched one as it is stored. */
  ghost predicate May(fleet: Fleet, s: Crons, move: Move)
    requires Fits(fleet, s)
  {
    match move
    case Store(step) => Enabled(fleet.sys, s.db, step)
    case Install(h, sorted) =>
      h < |fleet.schedulers| && s.db.phases[h].Committed? && Sorts(sorted, fleet.schedulers[h].entries)
    case Fetch(h, sorted) =>
      h < |fleet.fetchers| && Sorts(sorted, Stored(fleet, s, fleet.fetchers[h].Date()))
  }

  ghost function Do(fleet: Fleet, s: Crons, move: Move): Crons
    requires Fits(fleet, s) && May(fleet, s, move)
  {
    match move
    case Store(step) => s.(db := Apply(s.db, step))
    case Install(h, sorted) =>
      s.(scheduled := s.scheduled[h := Some(CronText.Table(sorted, fleet.schedulers[h].path, fleet.schedulers[h].account))])
    case Fetch(h, sorted) =>
      s.(fetched := s.fetched[h := Some(CronText.Table(sorted, fleet.fetchers[h].path, fleet.fetchers[h].account))])
  }

  ghost predicate Begins(fleet: Fleet, s: Crons) {
    && Fits(fleet, s) && Start(fleet.sys, s.db)
    && (forall h :: 0 <= h < |s.scheduled| ==> s.scheduled[h].None?)
    && (forall h :: 0 <= h < |s.fetched| ==> s.fetched[h].None?)
  }

  ghost predicate Comes(fleet: Fleet, moves: seq<Move>, s: Crons)
    decreases |moves|
  {
    if moves == [] then Begins(fleet, s)
    else
      exists before: Crons ::
        && Comes(fleet, moves[..|moves| - 1], before)
        && Fits(fleet, before) && May(fleet, before, moves[|moves| - 1])
        && s == Do(fleet, before, moves[|moves| - 1])
  }

  // ---------------------------------------------------------------- the invariant

  /** The publish happens while the local date and the UTC date are the same. */
  predicate OnOneDate(h: Scheduler) {
    IsUtcDay(h.instant, h.Date())
  }

  ghost predicate AllOnOneDate(fleet: Fleet) {
    forall h :: 0 <= h < |fleet.schedulers| ==> OnOneDate(fleet.schedulers[h])
  }

  /** A published schedule is empty or is the one that is stored for its date. */
  ghost predicate PublishedIsStored(fleet: Fleet, s: Crons)
    requires Fits(fleet, s)
  {
    forall h :: 0 <= h < |fleet.schedulers| && s.db.phases[h].Committed? ==>
      fleet.schedulers[h].entries in {[], Stored(fleet, s, fleet.schedulers[h].Date())}
  }

  /** The text is the crontab of no entries or of the given ones. */
  ghost predicate Shows(text: string, es: seq<Entry>, path: string, account: string) {
    exists sorted :: (Sorts(sorted, es) || sorted == []) && text == CronText.Table(sorted, path, account)
  }

  ghost predicate ScheduledShow(fleet: Fleet, s: Crons)
    requires Fits(fleet, s)
  {
    forall h :: 0 <= h < |s.scheduled| && s.scheduled[h].Some? ==>
      var host := fleet.schedulers[h]; Shows(s.scheduled[h].value, Stored(fleet, s, host.Date()), host.path, host.account)
  }

  ghost predicate FetchedShow(fleet: Fleet, s: Crons)
    requires Fits(fleet, s)
  {
    forall h :: 0 <= h < |s.fetched| && s.fetched[h].Some? ==>
      var host := fleet.fetchers[h]; Shows(s.fetched[h].value, Stored(fleet, s, host.Date()), host.path, host.account)
  }

  ghost predicate Good(fleet: Fleet, s: Crons) {
    Fits(fleet, s) && Inv(fleet.sys, s.db) && PublishedIsStored(fleet, s) && ScheduledShow(fleet, s) && FetchedShow(fleet, s)
  }

  lemma SelectsNoneIsNoneOn(sys: System<int, ScheduleRow>, date: int, rows: seq<ScheduleRow>)
    requires sys.selects == HasDate
    ensures SelectsNone(sys, date, rows) <==> EntriesOn(date, rows) == []
  {
    EntriesOnNone(date, rows);
    if AnyOn(date, rows) {
      var i :| 0 <= i < |rows| && rows[i].date == date;
      assert sys.selects(date, rows[i]);
    }
    if !SelectsNone(sys, date, rows) {
      var i :| 0 <= i < |rows| && sys.selects(date, rows[i]);
      assert rows[i].date == date;
    }
  }

  lemma AsksForItsDate(script: Script<int, ScheduleRow>, h: Scheduler)
    requires IsScriptOf(script, h) && OnOneDate(h)
    ensures script.query == h.Date()
  {
    SqlDateIff(h.instant, script.query);
    SqlDateIff(h.instant, h.Date());
  }

  /** A commit fills the date of its host, which had nothing, and leaves every other date alone. */
  lemma CommitFillsOneDate(fleet: Fleet, s: Crons, c: nat, date: int)
    requires Fits(fleet, s) && AllOnOneDate(fleet) && Inv(fleet.sys, s.db) && Enabled(fleet.sys, s.db, Commit(c))
    ensures var t := s.(db := Apply(s.db, Commit(c)));
            && Fits(fleet, t) && Inv(fleet.sys, t.db)
            && Stored(fleet, t, date) == (if date == fleet.schedulers[c].Date() then fleet.schedulers[c].entries else Stored(fleet, s, date))
            && (date == fleet.schedulers[c].Date() ==> Stored(fleet, s, date) == [])
  {
    var host := fleet.schedulers[c];
    CommitKeepsInv(fleet.sys, s.db, c);
    CommitAddsRows(fleet.sys, s.db, c);
    AsksForItsDate(fleet.sys.scripts[c], host);
    PublishAddsToItsDateOnly(Table(fleet.sys, s.db.log), host.Date(), host.entries, date);
    SelectsNoneIsNoneOn(fleet.sys, host.Date(), Table(fleet.sys, s.db.log));
  }

  /** What was shown of a date is still shown when the date keeps its schedule or had none. */
  lemma ShowsStays(text: string, es: seq<Entry>, later: seq<Entry>, path: string, account: string)
    requires Shows(text, es, path, account) && (es == [] || es == later)
    ensures Shows(text, later, path, account)
  {
    var sorted :| (Sorts(sorted, es) || sorted == []) && text == CronText.Table(sorted, path, account);
    if es == [] && Sorts(sorted, es) { NothingSorts(sorted); }
  }

  lemma NothingSorts(sorted: seq<Entry>)
    requires Sorts(sorted, [])
    ensures sorted == []
  {
    assert |multiset(sorted)| == |sorted|;
  }

  lemma CommitKeepsPublished(fleet: Fleet, s: Crons, c: nat)
    requires Good(fleet, s) && AllOnOneDate(fleet) && Enabled(fleet.sys, s.db, Commit(c))
    ensures var t := s.(db := Apply(s.db, Commit(c))); Fits(fleet, t) && PublishedIsStored(fleet, t)
  {
    var t := s.(db := Apply(s.db, Commit(c)));
    CommitFillsOneDate(fleet, s, c, 0);
    forall h | 0 <= h < |fleet.schedulers| && t.db.phases[h].Committed?
      ensures fleet.schedulers[h].entries in {[], Stored(fleet, t, fleet.schedulers[h].Date())}
    {
      CommitFillsOneDate(fleet, s, c, fleet.schedulers[h].Date());
    }
  }

  lemma CommitKeepsShown(fleet: Fleet, s: Crons, c: nat)
    requires Good(fleet, s) && AllOnOneDate(fleet) && Enabled(fleet.sys, s.db, Commit(c))
    ensures var t := s.(db := Apply(s.db, Commit(c))); Fits(fleet, t) && ScheduledShow(fleet, t) && FetchedShow(fleet, t)
  {
    var t := s.(db := Apply(s.db, Commit(c)));
    CommitFillsOneDate(fleet, s, c, 0);
    forall h | 0 <= h < |t.scheduled| && t.scheduled[h].Some?
      ensures var host := fleet.schedulers[h]; Shows(t.scheduled[h].value, Stored(fleet, t, host.Date()), host.path, host.account)
    {
      var host := fleet.schedulers[h];
      CommitFillsOneDate(fleet, s, c, host.Date());
      ShowsStays(t.scheduled[h].value, Stored(fleet, s, host.Date()), Stored(fleet, t, host.Date()), host.path, host.account);
    }
    forall h | 0 <= h < |t.fetched| && t.fetched[h].Some?
      ensures var host := fleet.fetchers[h]; Shows(t.fetched[h].value, Stored(fleet, t, host.Date()), host.path, host.account)
    {
      var host := fleet.fetchers[h];
      CommitFillsOneDate(fleet, s, c, host.Date());
      ShowsStays(t.fetched[h].value, Stored(fleet, s, host.Date()), Stored(fleet, t, host.Date()), host.path, host.account);
    }
  }

  lemma StoreKeepsGood(fleet: Fleet, s: Crons, step: Step)
    requires Good(fleet, s) && AllOnOneDate(fleet) && Enabled(fleet.sys, s.db, step)
    ensures Good(fleet, Do(fleet, s, Store(step)))
  {
    match step
    case Commit(c) =>
      CommitKeepsInv(fleet.sys, s.db, c);
      CommitKeepsPublished(fleet, s, c);
      CommitKeepsShown(fleet, s, c);
    case _ => OtherStepKeepsGood(fleet, s, step);
  }

  lemma OtherStepKeepsGood(fleet: Fleet, s: Crons, step: Step)
    requires Good(fleet, s) && Enabled(fleet.sys, s.db, step) && !step.Commit?
    ensures Good(fleet, Do(fleet, s, Store(step)))
  {
    NoCommitKeepsLog(fleet.sys, s.db, step);
    StepKeepsInv(fleet.sys, s.db, step);
    var t := Do(fleet, s, Store(step));
    assert t.db.log == s.db.log;
    assert forall h :: 0 <= h < |s.db.phases| && t.db.phases[h].Committed? ==> s.db.phases[h].Committed?;
  }

  lemma InstallKeepsGood(fleet: Fleet, s: Crons, h: nat, sorted: seq<Entry>)
    requires Good(fleet, s) && May(fleet, s, Install(h, sorted))
    ensures Good(fleet, Do(fleet, s, Install(h, sorted)))
  {
    var t, host := Do(fleet, s, Install(h, sorted)), fleet.schedulers[h];
    if host.entries == [] { NothingSorts(sorted); }
    assert Shows(t.scheduled[h].value, Stored(fleet, s, host.Date()), host.path, host.account);
    forall k | 0 <= k < |t.scheduled| && t.scheduled[k].Some?
      ensures Shows(t.scheduled[k].value, Stored(fleet, t, fleet.schedulers[k].Date()), fleet.schedulers[k].path, fleet.schedulers[k].account)
    {
      if k != h { assert t.scheduled[k] == s.scheduled[k]; }
    }
  }

  lemma FetchKeepsGood(fleet: Fleet, s: Crons, h: nat, sorted: seq<Entry>)
    requires Good(fleet, s) && May(fleet, s, Fetch(h, sorted))
    ensures Good(fleet, Do(fleet, s, Fetch(h, sorted)))
  {
    var t, host := Do(fleet, s, Fetch(h, sorted)), fleet.fetchers[h];
    assert Shows(t.fetched[h].value, Stored(fleet, s, host.Date()), host.path, host.account);
    assert forall k :: 0 <= k < |s.fetched| && k != h ==> t.fetched[k] == s.fetched[k];
  }

  lemma {:induction false} ComesKeepsGood(fleet: Fleet, moves: seq<Move>, s: Crons)
    requires Comes(fleet, moves, s) && AllOnOneDate(fleet)
    ensures Good(fleet, s)
    decreases |moves|
  {
    if moves == [] {
      assert Reaches(fleet.sys, [], s.db);
      ReachesKeepsInv(fleet.sys, [], s.db);
    } else {
      var last := moves[|moves| - 1];
      var before: Crons :|
        && Comes(fleet, moves[..|moves| - 1], before)
        && Fits(fleet, before) && May(fleet, before, last) && s == Do(fleet, before, last);
      ComesKeepsGood(fleet, moves[..|moves| - 1], before);
      match last
      case Store(step) => StoreKeepsGood(fleet, before, step);
      case Install(h, sorted) => InstallKeepsGood(fleet, before, h, sorted);
      case Fetch(h, sorted) => FetchKeepsGood(fleet, before, h, sorted);
    }
  }

  // ---------------------------------------------------------------- main results

  /** While every publish falls on one date locally and in UTC, of the schedules published for a
      date at most one is not empty, and every crontab that a host has installed is empty or
      shows what is stored for the host's date. */
  lemma OneScheduleADay(fleet: Fleet, moves: seq<Move>, s: Crons)
    requires Comes(fleet, moves, s) && AllOnOneDate(fleet)
    ensures Fits(fleet, s)
    ensures forall a, b :: 0 <= a < |fleet.schedulers| && 0 <= b < |fleet.schedulers| && a != b
              && s.db.phases[a].Committed? && s.db.phases[b].Committed?
              && fleet.schedulers[a].Date() == fleet.schedulers[b].Date()
              ==> fleet.schedulers[a].entries == [] || fleet.schedulers[b].entries == []
    ensures PublishedIsStored(fleet, s) && ScheduledShow(fleet, s) && FetchedShow(fleet, s)
  {
    ComesKeepsGood(fleet, moves, s);
    forall a, b | 0 <= a < |fleet.schedulers| && 0 <= b < |fleet.schedulers| && a != b
        && s.db.phases[a].Committed? && s.db.phases[b].Committed?
        && fleet.schedulers[a].Date() == fleet.schedulers[b].Date()
      ensures fleet.schedulers[a].entries == [] || fleet.schedulers[b].entries == []
    {
      NotBothNonempty(fleet, s, a, b);
    }
  }

  lemma NotBothNonempty(fleet: Fleet, s: Crons, a: nat, b: nat)
    requires Good(fleet, s) && AllOnOneDate(fleet)
    requires a < |fleet.schedulers| && b < |fleet.schedulers| && a != b
    requires s.db.phases[a].Committed? && s.db.phases[b].Committed?
    requires fleet.schedulers[a].Date() == fleet.schedulers[b].Date()
    ensures fleet.schedulers[a].entries == [] || fleet.schedulers[b].entries == []
  {
    var i :| 0 <= i < |s.db.log| && s.db.log[i] == a;
    var j :| 0 <= j < |s.db.log| && s.db.log[j] == b;
    if i < j {
      LaterFindsNothing(fleet, s.db, i, j);
    } else {
      LaterFindsNothing(fleet, s.db, j, i);
    }
  }

  /** A publish finds nothing of another exactly when that is empty or stored for another date than
      the one of the publish in UTC. */
  lemma AsksForUtcDay(fleet: Fleet, stored: nat, asking: nat)
    requires Runs(fleet) && stored < |fleet.schedulers| && asking < |fleet.schedulers|
    ensures var x, y := fleet.schedulers[stored], fleet.schedulers[asking];
            SelectsNone(fleet.sys, fleet.sys.scripts[asking].query, fleet.sys.scripts[stored].rows)
            <==> x.entries == [] || !IsUtcDay(y.instant, x.Date())
  {
    var x, y := fleet.schedulers[stored], fleet.schedulers[asking];
    var asked := fleet.sys.scripts[asking].query;
    assert IsScriptOf(fleet.sys.scripts[stored], x) && IsScriptOf(fleet.sys.scripts[asking], y);
    SelectsNoneIsNoneOn(fleet.sys, asked, fleet.sys.scripts[stored].rows);
    EntriesOnRows(x.Date(), asked, x.entries);
    SqlDateIff(y.instant, asked);
    SqlDateIff(y.instant, x.Date());
  }

  /** Of two publishes in the order of their commits the later one's date had no rows. */
  lemma LaterFindsNothing(fleet: Fleet, db: State, i: nat, j: nat)
    requires Runs(fleet) && Inv(fleet.sys, db) && i < j < |db.log|
    ensures fleet.schedulers[db.log[i]].entries == []
         || !IsUtcDay(fleet.schedulers[db.log[j]].instant, fleet.schedulers[db.log[i]].Date())
  {
    var x, y := fleet.schedulers[db.log[i]], fleet.schedulers[db.log[j]];
    assert IsScriptOf(fleet.sys.scripts[db.log[i]], x) && IsScriptOf(fleet.sys.scripts[db.log[j]], y);
    LogPairIsOrdered(fleet.sys, db.log, i, j);
    AsksForUtcDay(fleet, db.log[i], db.log[j]);
  }

  lemma PairIsSerial(fleet: Fleet, first: nat, second: nat)
    requires Runs(fleet) && fleet.sys.initial == []
    requires first < |fleet.schedulers| && second < |fleet.schedulers| && first != second
    ensures IsSerialRun(fleet.sys, [first, second])
       <==> fleet.schedulers[first].entries == [] || !IsUtcDay(fleet.schedulers[second].instant, fleet.schedulers[first].Date())
  {
    var x, y := fleet.schedulers[first], fleet.schedulers[second];
    assert IsScriptOf(fleet.sys.scripts[first], x) && IsScriptOf(fleet.sys.scripts[second], y);
    TwoRunIff(fleet.sys, first, second);
    AsksForUtcDay(fleet, first, second);
  }

  /** Two nonempty schedules for one local date can both be published exactly when one of the
      two publishes falls on another date in UTC. */
  lemma BothPublishedIff(fleet: Fleet, a: nat, b: nat)
    requires Runs(fleet) && fleet.sys.initial == []
    requires a < |fleet.schedulers| && b < |fleet.schedulers| && a != b
    requires fleet.schedulers[a].entries != [] && fleet.schedulers[b].entries != []
    requires fleet.schedulers[a].Date() == fleet.schedulers[b].Date()
    ensures (exists s :: Reachable(fleet.sys, s) && a in s.log && b in s.log)
       <==> var x, y := fleet.schedulers[a], fleet.schedulers[b];
            !IsUtcDay(x.instant, x.zone.dayOf(x.instant)) || !IsUtcDay(y.instant, y.zone.dayOf(y.instant))
  {
    PairIsSerial(fleet, a, b);
    PairIsSerial(fleet, b, a);
    if exists s :: Reachable(fleet.sys, s) && a in s.log && b in s.log {
      var s :| Reachable(fleet.sys, s) && a in s.log && b in s.log;
      OneAfterTheOther(fleet, s, a, b);
    }
    if !OnOneDate(fleet.schedulers[b]) { BothInLog(fleet, a, b); }
    if !OnOneDate(fleet.schedulers[a]) { BothInLog(fleet, b, a); }
  }

  lemma BothInLog(fleet: Fleet, first: nat, second: nat)
    requires IsSerialRun(fleet.sys, [first, second])
    ensures exists s :: Reachable(fleet.sys, s) && first in s.log && second in s.log
  {
    CommitOrdersAreSerialRuns(fleet.sys, [first, second]);
    var s :| Reachable(fleet.sys, s) && s.log == [first, second];
    assert s.log[0] == first && s.log[1] == second;
  }

  lemma OneAfterTheOther(fleet: Fleet, s: State, a: nat, b: nat)
    requires Runs(fleet) && a < |fleet.schedulers| && b < |fleet.schedulers| && a != b
    requires fleet.schedulers[a].entries != [] && fleet.schedulers[b].entries != []
    requires fleet.schedulers[a].Date() == fleet.schedulers[b].Date()
    requires Reachable(fleet.sys, s) && a in s.log && b in s.log
    ensures !OnOneDate(fleet.schedulers[a]) || !OnOneDate(fleet.schedulers[b])
  {
    EveryInterleavingIsSerial(fleet.sys, s);
    CommittedPairIsOrdered(fleet.sys, s, a, b);
    var x, y := fleet.schedulers[a], fleet.schedulers[b];
    assert IsScriptOf(fleet.sys.scripts[a], x) && IsScriptOf(fleet.sys.scripts[b], y);
    AsksForUtcDay(fleet, b, a);
    AsksForUtcDay(fleet, a, b);
  }
}
