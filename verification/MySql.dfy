/** The store of terminations and schedules (mysql/mysql.go). */
module MySql {
  import opened Domain
  import opened WorkCalendar
  import opened MinTime
  import opened Groups
  import opened Entries

  /** A row of the schedules table; date is a calendar date, time an instant. A blank region,
      stack or cluster stands for one that is not present. */
  datatype ScheduleRow = ScheduleRow(
    date: int, time: int, app: string, account: string, region: string, stack: string, cluster: string)

  /** The steps of a call of Check that fail. A cursor that fails while it is read looks like
      one without rows, because its error is never asked for. */
  datatype CheckFaults = CheckFaults(begin: bool, query: bool, fetch: bool, close: bool, insert: bool, commit: bool)

  /** The steps of a call of Publish that fail; `insert` is the number of rows inserted before
      the one that fails. */
  datatype PublishFaults = PublishFaults(begin: bool, query: bool, fetch: bool, prepare: bool, insert: Option<nat>, commit: bool)

  /** utcDate: noon UTC on the date that the instant has in its own zone. */
  function UtcNoon(z: Zone, instant: int): int {
    z.dayOf(instant) * DAY + 12 * HOUR
  }

  /** DATE(?) on a connection whose time zone is UTC. */
  function SqlDate(instant: int): int {
    instant / DAY
  }

  /** Day d of UTC lasts from 24 * d hours after 1970-01-01 00:00 UTC for 24 hours. */
  predicate IsUtcDay(instant: int, day: int) {
    day * 86_400 <= instant < day * 86_400 + 86_400
  }

  lemma SqlDateIff(instant: int, day: int)
    ensures SqlDate(instant) == day <==> IsUtcDay(instant, day)
  {
  }

  lemma NoonKeepsDate(z: Zone, instant: int)
    ensures SqlDate(UtcNoon(z, instant)) == z.dayOf(instant) && IsUtcDay(UtcNoon(z, instant), z.dayOf(instant))
  {
  }

  function PresentOrBlank(name: Option<string>): string {
    if name.Some? then name.value else ""
  }

  function RowOfEntry(date: int, e: Entry): ScheduleRow {
    ScheduleRow(date, e.time, e.group.app, e.group.account,
                PresentOrBlank(e.group.Region()), PresentOrBlank(e.group.Stack()), PresentOrBlank(e.group.Cluster()))
  }

  function EntryOfRow(r: ScheduleRow): Entry {
    Entry(Group(r.app, r.account, r.region, r.stack, r.cluster), r.time)
  }

  function RowsOfEntries(date: int, es: seq<Entry>): (rows: seq<ScheduleRow>)
    ensures |rows| == |es|
  {
    if es == [] then [] else RowsOfEntries(date, es[..|es| - 1]) + [RowOfEntry(date, es[|es| - 1])]
  }

  /** The entries of the rows with the given date, in the order of the rows. */
  function EntriesOn(date: int, rows: seq<ScheduleRow>): seq<Entry> {
    if rows == [] then []
    else
      var last := rows[|rows| - 1];
      EntriesOn(date, rows[..|rows| - 1]) + if last.date == date then [EntryOfRow(last)] else []
  }

  predicate AnyOn(date: int, rows: seq<ScheduleRow>) {
    exists i :: 0 <= i < |rows| && rows[i].date == date
  }

  /** A row has the date that the instant has in UTC. */
  predicate AnyOnUtcDay(instant: int, rows: seq<ScheduleRow>) {
    exists i :: 0 <= i < |rows| && IsUtcDay(instant, rows[i].date)
  }

  lemma AnyOnUtcDayIff(instant: int, rows: seq<ScheduleRow>)
    ensures AnyOnUtcDay(instant, rows) <==> AnyOn(SqlDate(instant), rows)
  {
    if AnyOnUtcDay(instant, rows) {
      var i :| 0 <= i < |rows| && IsUtcDay(instant, rows[i].date);
      SqlDateIff(instant, rows[i].date);
    }
    if AnyOn(SqlDate(instant), rows) {
      var i :| 0 <= i < |rows| && rows[i].date == SqlDate(instant);
      SqlDateIff(instant, rows[i].date);
    }
  }

  predicate NoneSelected(q: Query, rows: seq<Row>) {
    forall i :: 0 <= i < |rows| ==> !Selects(q, rows[i])
  }

  /** When Check returns without an error. */
  ghost predicate Accepts(rows: seq<Row>, term: Termination, cfg: AppConfig, endHour: int, z: Zone, f: CheckFaults)
    requires Sane(z)
  {
    var q := QueryFor(term, cfg, endHour, z);
    && !f.begin && q.Ok? && !f.query
    && (f.fetch || NoneSelected(q.value, rows))
    && !f.close && !f.insert
  }

  /** When Check reports that the minimum time would be violated. */
  ghost predicate Violates(rows: seq<Row>, term: Termination, cfg: AppConfig, endHour: int, z: Zone, f: CheckFaults)
    requires Sane(z)
  {
    var q := QueryFor(term, cfg, endHour, z);
    !f.begin && q.Ok? && !f.query && !f.fetch && !NoneSelected(q.value, rows)
  }

  class Store {
    var terminations: seq<Row>
    var schedules: seq<ScheduleRow>

    constructor ()
      ensures terminations == [] && schedules == []
    {
      terminations, schedules := [], [];
    }

    /** The first row of the answer, if there is one. */
    method QueryOne(q: Query) returns (row: Option<Row>)
      ensures row.None? <==> NoneSelected(q, terminations)
      ensures row.Some? ==> row.value in terminations && Selects(q, row.value)
    {
      row := None;
      for i := 0 to |terminations|
        invariant NoneSelected(q, terminations[..i])
      {
        if Selects(q, terminations[i]) {
          return Some(terminations[i]);
        }
      }
    }

    /** Reads, and when nothing stands in the way records the termination, in one transaction. A
        failing commit leaves the table as it was but is not returned to the caller. */
    method Check(term: Termination, cfg: AppConfig, endHour: int, z: Zone, f: CheckFaults) returns (r: Result<()>)
      requires Sane(z)
      modifies this`terminations
      ensures r.Ok? <==> Accepts(old(terminations), term, cfg, endHour, z, f)
      ensures terminations == if r.Ok? && !f.commit then old(terminations) + [RowOf(term)] else old(terminations)
      ensures (r.Err? && r.error.ViolatesMinTime?) <==> Violates(old(terminations), term, cfg, endHour, z, f)
      ensures r.Err? && r.error.ViolatesMinTime? ==>
                exists row :: row in terminations && Selects(QueryFor(term, cfg, endHour, z).value, row)
                  && r.error == ViolatesMinTime(row.instanceId, row.killedAt)
    {
      if f.begin { return Err(BeginFailed); }
      var tx := terminations;
      r := RespectsMinTime(term, cfg, endHour, z, f);
      if r.Err? { return; }
      if f.insert { return Err(InsertFailed); }
      tx := tx + [RowOf(term)];
      if !f.commit { terminations := tx; }
      return Ok(());
    }

    method RespectsMinTime(term: Termination, cfg: AppConfig, endHour: int, z: Zone, f: CheckFaults) returns (r: Result<()>)
      requires Sane(z)
      ensures r.Ok? <==>
                var q := QueryFor(term, cfg, endHour, z);
                q.Ok? && !f.query && (f.fetch || NoneSelected(q.value, terminations)) && !f.close
      ensures (r.Err? && r.error.ViolatesMinTime?) <==>
                var q := QueryFor(term, cfg, endHour, z);
                q.Ok? && !f.query && !f.fetch && !NoneSelected(q.value, terminations)
      ensures r.Err? && r.error.ViolatesMinTime? ==>
                exists row :: row in terminations && Selects(QueryFor(term, cfg, endHour, z).value, row)
                  && r.error == ViolatesMinTime(row.instanceId, row.killedAt)
    {
      var query := QueryFor(term, cfg, endHour, z);
      if query.Err? { return Err(query.error); }
      if f.query { return Err(QueryFailed); }
      if !f.fetch {
        var row := QueryOne(query.value);
        if row.Some? { return Err(ViolatesMinTime(row.value.instanceId, row.value.killedAt)); }
      }
      if f.close { return Err(CloseFailed); }
      return Ok(());
    }

    /** COUNT(*) > 0 for the date that the instant has in UTC, not in its own zone. */
    method SchedExists(date: int, f: PublishFaults) returns (found: Result<bool>)
      ensures if f.query then found == Err(QueryFailed) else found.Ok?
      ensures found.Ok? ==> (found.value <==> !f.fetch && AnyOnUtcDay(date, schedules))
    {
      AnyOnUtcDayIff(date, schedules);
      if f.query { return Err(QueryFailed); }
      var count := 0;
      if !f.fetch {
        for i := 0 to |schedules|
          invariant count >= 0
          invariant count > 0 <==> AnyOn(SqlDate(date), schedules[..i])
        {
          assert schedules[..i + 1] == schedules[..i] + [schedules[i]];
          if schedules[i].date == SqlDate(date) {
            assert schedules[..i + 1][i].date == SqlDate(date);
            count := count + 1;
          }
        }
        assert schedules[..|schedules|] == schedules;
      }
      return Ok(count > 0);
    }

    /** Stores the entries under the local date of the instant, all of them or none, unless the
        table has rows for its UTC date. */
    method Publish(date: int, z: Zone, es: seq<Entry>, f: PublishFaults) returns (r: Result<()>)
      modifies this`schedules
      ensures r.Ok? ==> schedules == old(schedules) + RowsOfEntries(z.dayOf(date), es)
      ensures r.Err? ==> schedules == old(schedules)
      ensures r.Ok? <==> && !f.begin && !f.query
                         && (f.fetch || !AnyOnUtcDay(date, old(schedules)))
                         && !f.prepare && (f.insert.Some? ==> |es| <= f.insert.value) && !f.commit
      ensures r == Err(AlreadyExists) <==> !f.begin && !f.query && !f.fetch && AnyOnUtcDay(date, old(schedules))
    {
      if f.begin { return Err(BeginFailed); }
      var tx := schedules;
      var found := SchedExists(date, f);
      if found.Err? { return Err(found.error); }
      if found.value { return Err(AlreadyExists); }
      if f.prepare { return Err(QueryFailed); }
      for i := 0 to |es|
        invariant schedules == old(schedules)
        invariant tx == old(schedules) + RowsOfEntries(z.dayOf(date), es[..i])
        invariant f.insert.Some? ==> i <= f.insert.value
      {
        if f.insert.Some? && f.insert.value == i { return Err(InsertFailed); }
        NoonKeepsDate(z, date);
        assert es[..i + 1][..i] == es[..i];
        tx := tx + [RowOfEntry(SqlDate(UtcNoon(z, date)), es[i])];
      }
      assert es[..|es|] == es;
      if f.commit { return Err(CommitFailed); }
      schedules := tx;
      return Ok(());
    }

    /** The entries stored under the local date of the instant. */
    method Retrieve(date: int, z: Zone, queryFails: bool) returns (r: Result<seq<Entry>>)
      ensures r.Err? <==> queryFails
      ensures r.Ok? ==> multiset(r.value) == multiset(EntriesOn(z.dayOf(date), schedules))
    {
      if queryFails { return Err(QueryFailed); }
      var es: seq<Entry> := [];
      for i := 0 to |schedules|
        invariant es == EntriesOn(z.dayOf(date), schedules[..i])
      {
        NoonKeepsDate(z, date);
        assert schedules[..i + 1][..i] == schedules[..i];
        if schedules[i].date == SqlDate(UtcNoon(z, date)) {
          es := es + [EntryOfRow(schedules[i])];
        }
      }
      assert schedules[..|schedules|] == schedules;
      return Ok(es);
    }
  }

  // ---------------------------------------------------------------- publish, then retrieve

  lemma {:induction false} EntriesOnConcat(date: int, a: seq<ScheduleRow>, b: seq<ScheduleRow>)
    ensures EntriesOn(date, a + b) == EntriesOn(date, a) + EntriesOn(date, b)
    decreases |b|
  {
    if b == [] {
      assert a + b == a;
    } else {
      assert (a + b)[..|a + b| - 1] == a + b[..|b| - 1];
      EntriesOnConcat(date, a, b[..|b| - 1]);
    }
  }

  /** An entry survives the table: a blank field and an absent field are the same. */
  lemma RowKeepsEntry(date: int, e: Entry)
    ensures EntryOfRow(RowOfEntry(date, e)) == e
  {
  }

  lemma {:induction false} EntriesOnRows(date: int, wanted: int, es: seq<Entry>)
    ensures EntriesOn(wanted, RowsOfEntries(date, es)) == if wanted == date then es else []
    decreases |es|
  {
    if es != [] {
      EntriesOnRows(date, wanted, es[..|es| - 1]);
      RowKeepsEntry(date, es[|es| - 1]);
    }
  }

  lemma {:induction false} EntriesOnNone(date: int, rows: seq<ScheduleRow>)
    ensures EntriesOn(date, rows) == [] <==> !AnyOn(date, rows)
    decreases |rows|
  {
    if rows != [] {
      var front := rows[..|rows| - 1];
      EntriesOnNone(date, front);
      if AnyOn(date, rows) {
        var i :| 0 <= i < |rows| && rows[i].date == date;
        if i < |front| { assert front[i].date == date; }
      }
      if AnyOn(date, front) {
        var i :| 0 <= i < |front| && front[i].date == date;
        assert rows[i].date == date;
      }
    }
  }

  /** After a publish the rows of its local date are those that were there before and the
      published entries, and the rows of every other date are what they were. */
  lemma PublishAddsToItsDateOnly(rows: seq<ScheduleRow>, date: int, es: seq<Entry>, wanted: int)
    ensures EntriesOn(wanted, rows + RowsOfEntries(date, es)) == EntriesOn(wanted, rows) + if wanted == date then es else []
  {
    EntriesOnConcat(wanted, rows, RowsOfEntries(date, es));
    EntriesOnRows(date, wanted, es);
  }

  /** At any instant of the same local date what is retrieved is what was stored for that date and,
      when the publish goes through, what was published. */
  method PublishThenRetrieve(store: Store, published: int, retrieved: int, z: Zone, es: seq<Entry>, f: PublishFaults)
    returns (p: Result<()>, r: Result<seq<Entry>>)
    requires z.dayOf(published) == z.dayOf(retrieved)
    modifies store`schedules
    ensures r.Ok?
    ensures multiset(r.value)
         == multiset(EntriesOn(z.dayOf(published), old(store.schedules))) + if p.Ok? then multiset(es) else multiset{}
    ensures forall other :: other != z.dayOf(published) ==> EntriesOn(other, store.schedules) == EntriesOn(other, old(store.schedules))
  {
    p := store.Publish(published, z, es, f);
    if p.Ok? {
      forall wanted ensures EntriesOn(wanted, store.schedules)
          == EntriesOn(wanted, old(store.schedules)) + if wanted == z.dayOf(published) then es else []
      {
        PublishAddsToItsDateOnly(old(store.schedules), z.dayOf(published), es, wanted);
      }
    }
    r := store.Retrieve(retrieved, z, false);
  }

  lemma RowsHaveDate(date: int, es: seq<Entry>, wanted: int)
    ensures AnyOn(wanted, RowsOfEntries(date, es)) <==> wanted == date && es != []
  {
    EntriesOnRows(date, wanted, es);
    EntriesOnNone(wanted, RowsOfEntries(date, es));
  }

  /** A second schedule for a date is refused exactly when the first, nonempty one was stored under
      a local date that is also the date of the second publish in UTC. */
  lemma SecondPublishIsRefusedIff(first: int, second: int, z: Zone, es: seq<Entry>)
    requires z.dayOf(first) == z.dayOf(second)
    ensures AnyOnUtcDay(second, RowsOfEntries(z.dayOf(first), es)) <==> es != [] && IsUtcDay(second, z.dayOf(second))
  {
    AnyOnUtcDayIff(second, RowsOfEntries(z.dayOf(first), es));
    RowsHaveDate(z.dayOf(first), es, SqlDate(second));
    SqlDateIff(second, z.dayOf(second));
  }

  /** In the evening eight hours west of UTC a second schedule for the same date is let through. */
  lemma EveningPublishIsNotRefused(es: seq<Entry>)
    ensures var z := FixedZone(-8 * HOUR);
            var morning, evening := 17 * HOUR, 26 * HOUR;
            z.dayOf(morning) == z.dayOf(evening) == 0 && !AnyOnUtcDay(evening, RowsOfEntries(0, es))
  {
    SecondPublishIsRefusedIff(17 * HOUR, 26 * HOUR, FixedZone(-8 * HOUR), es);
  }

  /** The columns of an entry's row, and the entry of a row. */
  lemma RowNamesEntry(date: int, e: Entry)
    ensures var r := RowOfEntry(date, e);
            && r.date == date && r.time == e.time && r.app == e.group.app && r.account == e.group.account
            && r.region == e.group.region && r.stack == e.group.stack && r.cluster == e.group.cluster
  {
  }
}
