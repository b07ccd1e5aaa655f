/** The schedule and fetch-schedule commands on one host (command/schedule.go, command/fetchschedule.go). */
module Command {
  import opened Domain
  import opened WorkCalendar
  import opened Entries
  import opened MySql
  import opened Scheduling
  import opened CronText

  /** When a publish of so many entries goes through. */
  ghost predicate CanPublish(rows: seq<ScheduleRow>, now: int, count: nat, f: PublishFaults) {
    && !f.begin && !f.query && (f.fetch || !AnyOnUtcDay(now, rows))
    && !f.prepare && (f.insert.Some? ==> count <= f.insert.value) && !f.commit
  }

  class Host {
    const path: string
    const account: string
    var crontab: Option<string>

    constructor (path: string, account: string)
      ensures this.path == path && this.account == account && crontab == None
    {
      this.path, this.account := path, account;
      crontab := None;
    }

    /** A write that fails may leave anything in the file. */
    method RegisterWithCron(s: Schedule, writeFails: bool) returns (r: Result<()>)
      modifies this, s
      ensures multiset(s.entries) == multiset(old(s.entries)) && InTimeOrder(s.entries)
      ensures if writeFails then r == Err(Unavailable("crontab file")) else r.Ok?
      ensures r.Ok? ==> crontab == Some(Table(s.entries, path, account))
    {
      var text := s.Crontab(path, account);
      if writeFails {
        crontab := *;
        return Err(Unavailable("crontab file"));
      }
      crontab := Some(text);
      return Ok(());
    }

    /** Publishes first, and installs only what was published. */
    method DeploySchedule(s: Schedule, store: Store, location: Option<Zone>, now: int, f: PublishFaults, writeFails: bool)
      returns (r: Result<()>)
      modifies this, s, store`schedules
      ensures multiset(s.entries) == multiset(old(s.entries))
      ensures r.Ok? ==> && location.Some? && InTimeOrder(s.entries)
                        && store.schedules == old(store.schedules) + RowsOfEntries(location.value.dayOf(now), old(s.entries))
                        && crontab == Some(Table(s.entries, path, account))
      ensures !(location.Some? && CanPublish(old(store.schedules), now, |old(s.entries)|, f)) ==> crontab == old(crontab)
      ensures r.Ok? <==> location.Some? && CanPublish(old(store.schedules), now, |old(s.entries)|, f) && !writeFails
      ensures store.schedules == old(store.schedules)
                + if location.Some? && CanPublish(old(store.schedules), now, |old(s.entries)|, f)
                  then RowsOfEntries(location.value.dayOf(now), old(s.entries)) else []
      ensures r == Err(AlreadyExists)
         <==> location.Some? && !f.begin && !f.query && !f.fetch && AnyOnUtcDay(now, old(store.schedules))
    {
      assert store.schedules + [] == store.schedules;
      if location.None? { return Err(Unavailable("location")); }
      r := store.Publish(now, location.value, s.entries, f);
      if r.Err? { return; }
      r := RegisterWithCron(s, writeFails);
    }

    /** Installs what the store has for the local date, even when that is nothing. */
    method FetchSchedule(store: Store, location: Option<Zone>, now: int, queryFails: bool, writeFails: bool) returns (r: Result<()>)
      modifies this
      ensures r.Ok? <==> location.Some? && !queryFails && !writeFails
      ensures location.None? || queryFails ==> crontab == old(crontab)
      ensures r.Ok? ==> exists sorted ::
                && multiset(sorted) == multiset(EntriesOn(location.value.dayOf(now), store.schedules)) && InTimeOrder(sorted)
                && crontab == Some(Table(sorted, path, account))
    {
      if location.None? { return Err(Unavailable("location")); }
      var es := store.Retrieve(now, location.value, queryFails);
      if es.Err? { return Err(es.error); }
      var s := new Schedule();
      s.entries := es.value;
      r := RegisterWithCron(s, writeFails);
    }

    /** A new schedule, published and installed as it was populated. */
    method MakeSchedule(parse: Parser, outside: Outside, conf: MonkeyConfig, apps: seq<string>, luck: Luck,
                        store: Store, now: int, f: PublishFaults, writeFails: bool)
      returns (r: Result<()>, ghost parts: seq<seq<Entry>>, ghost sorted: seq<Entry>)
      modifies this, store`schedules
      ensures r.Ok? ==> && NamesKnown(outside, apps) && conf.location.Some? && !writeFails
                        && CanPublish(old(store.schedules), now, |Joined(parts)|, f)
                        && AllFit(parse, outside, conf, luck, Examined(outside, conf, apps), parts)
                        && store.schedules == old(store.schedules) + RowsOfEntries(conf.location.value.dayOf(now), Joined(parts))
                        && multiset(sorted) == multiset(Joined(parts)) && InTimeOrder(sorted)
                        && crontab == Some(Table(sorted, path, account))
      ensures r.Err? && !writeFails ==> store.schedules == old(store.schedules) && crontab == old(crontab)
      ensures r.Err? ==> || !NamesKnown(outside, apps)
                         || SomeStuck(parse, outside, conf, luck, Examined(outside, conf, apps))
                         || conf.location.None? || !CanPublish(old(store.schedules), now, |Joined(parts)|, f) || writeFails
    {
      sorted := [];
      var s := new Schedule();
      r, parts := s.Populate(parse, outside, conf, apps, luck);
      if r.Err? { return; }
      assert [] + Joined(parts) == Joined(parts);
      r := DeploySchedule(s, store, conf.location, now, f, writeFails);
      sorted := s.entries;
    }
  }

  /** What a host installs with MakeSchedule, read line by line in its year, is for each line an
      entry that was wanted, at a time and for a group as the configurations have it. */
  lemma InstalledLinesAreWanted(parse: Parser, outside: Outside, conf: MonkeyConfig, luck: Luck, names: seq<string>,
                                parts: seq<seq<Entry>>, sorted: seq<Entry>, year: int, path: string, account: string, i: nat)
    requires AllFit(parse, outside, conf, luck, names, parts) && multiset(sorted) == multiset(Joined(parts))
    requires IsPlain(path) && IsPlain(account) && AreReadable(year, sorted)
    ensures var read := ReadTable(year, Table(sorted, path, account));
            && read.Some? && |read.value| == |Joined(parts)|
            && (i < |read.value| ==> exists k :: 0 <= k < |names| && IsWanted(parse, outside, conf, luck, k, names[k], read.value[i]))
  {
    TableRoundTrip(year, sorted, path, account);
    assert |multiset(sorted)| == |sorted| && |multiset(Joined(parts))| == |Joined(parts)|;
    if i < |sorted| {
      assert sorted[i] in multiset(sorted);
      OnlyWantedEntries(parse, outside, conf, luck, names, parts, sorted[i]);
    }
  }

  lemma {:induction false} RowsInOrder(date: int, es: seq<Entry>)
    ensures forall i :: 0 <= i < |es| ==> RowsOfEntries(date, es)[i] == RowOfEntry(date, es[i])
    decreases |es|
  {
    if es != [] { RowsInOrder(date, es[..|es| - 1]); }
  }

  ghost predicate EachOnItsDate(z: Zone, rows: seq<ScheduleRow>) {
    forall i :: 0 <= i < |rows| ==> z.dayOf(rows[i].time) == rows[i].date
  }

  /** The rows that MakeSchedule stores under the local date of the publish are for terminations on
      that date exactly when there are none or the date on the machine's clock was that date. */
  lemma StoredForItsDateIff(parse: Parser, outside: Outside, conf: MonkeyConfig, luck: Luck, names: seq<string>, parts: seq<seq<Entry>>,
                            today: int, now: int)
    requires AllFit(parse, outside, conf, luck, names, parts) && TodayIs(luck, today)
    requires conf.location.Some? && Consistent(conf.location.value)
    requires HoursAreKept(conf, today) && HoursAreOnDay(conf, today)
    ensures var z := conf.location.value;
            EachOnItsDate(z, RowsOfEntries(z.dayOf(now), Joined(parts))) <==> Joined(parts) == [] || today == z.dayOf(now)
  {
    var z, es := conf.location.value, Joined(parts);
    KillsAreOnDateIff(parse, outside, conf, luck, names, parts, today, now);
    RowsInOrder(z.dayOf(now), es);
    if EachOnItsDate(z, RowsOfEntries(z.dayOf(now), es)) {
      forall e | e in es ensures z.dayOf(e.time) == z.dayOf(now) {
        var i :| 0 <= i < |es| && es[i] == e;
        assert RowsOfEntries(z.dayOf(now), es)[i].time == e.time;
      }
    }
  }
}
