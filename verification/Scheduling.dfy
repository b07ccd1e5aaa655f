/** Populating the schedule of a day (schedule/schedule.go:36-168). */
module Scheduling {
  import opened Domain
  import opened WorkCalendar
  import opened Listing
  import opened Groups
  import opened Entries
  import opened Deploy
  import opened AppTree
  import opened InstanceGroups
  import opened Partition
  import opened FromJson
  import opened UtcTime
  import opened CronText
  import GetApp

  /** What Float64 returns. */
  type Coin = x: real | 0.0 <= x < 1.0 witness 0.0

  /** location is absent when the zone cannot be loaded. */
  datatype MonkeyConfig = MonkeyConfig(maxApps: int, startHour: int, endHour: int, location: Option<Zone>)

  /** What the outside answers: the names of all apps, what Spinnaker says of each and its
      configuration. */
  datatype Outside = Outside(
    appNames: Result<seq<string>>,
    answers: string -> GetApp.Answers,
    config: string -> Result<AppConfig>)

  /** The draws of the coin, and the date that now has, for each group of each app. */
  datatype Luck = Luck(coin: (nat, nat) -> Coin, today: (nat, nat) -> int)

  // ---------------------------------------------------------------- one entry

  /** The coin of an app whose mean time between kills is that many work days. */
  predicate Kills(meanTime: int, coin: Coin)
    requires meanTime > 0
  {
    1.0 / meanTime as real >= coin
  }

  function ShouldKillInstance(meanTime: int, coin: Coin): Result<bool> {
    if meanTime <= 0 then Err(Panic("mean time is zero or negative"))
    else Ok(Kills(meanTime, coin))
  }

  lemma KillsIff(mean: real, coin: real)
    requires mean > 0.0
    ensures 1.0 / mean >= coin <==> coin * mean <= 1.0
  {
    var p := 1.0 / mean;
    assert p * mean == 1.0;
    if p >= coin {
      assert (p - coin) * mean >= 0.0;
    } else {
      assert (coin - p) * mean > 0.0;
    }
  }

  lemma KillsWhenFalls(meanTime: int, coin: (nat, nat) -> Coin, app: nat, k: nat)
    requires meanTime > 0
    ensures Kills(meanTime, coin(app, k)) <==> Falls(meanTime, coin, app, k)
  {
    KillsIff(meanTime as real, coin(app, k));
  }

  /** With a mean time of one work day every group is killed every day, whatever the coin; with
      a longer one some coin spares it. */
  lemma AlwaysKillsIff(meanTime: int)
    requires meanTime > 0
    ensures (forall coin: Coin :: Kills(meanTime, coin)) <==> meanTime == 1
    ensures forall coin: Coin :: Kills(meanTime, coin) <==> coin * meanTime as real <= 1.0
  {
    forall coin: Coin ensures Kills(meanTime, coin) <==> coin * meanTime as real <= 1.0 {
      KillsIff(meanTime as real, coin);
    }
    if meanTime > 1 {
      var m := meanTime as real;
      var coin: Coin := (1.0 / m + 1.0) / 2.0;
      assert !Kills(meanTime, coin);
    }
  }

  /** A whole number of minutes after the start hour and before as many hours as there are up
      to the end hour have gone by. */
  ghost predicate IsTerminationTime(conf: MonkeyConfig, today: int, time: int) {
    && conf.location.Some?
    && exists sample: int :: 0 <= sample < (conf.endHour - conf.startHour) * 60
         && time == At(conf.location.value, today, conf.startHour) + sample * MINUTE
  }

  method ChooseTerminationTime(today: int, conf: MonkeyConfig, location: Zone) returns (r: Result<int>)
    requires conf.location == Some(location)
    ensures r.Ok? <==> conf.startHour < conf.endHour
    ensures r.Ok? ==> IsTerminationTime(conf, today, r.value)
  {
    if conf.endHour <= conf.startHour { return Err(Panic("end hour is not after start hour")); }
    var minutesInTimeInterval := (conf.endHour - conf.startHour) * 60;
    var sample: int :| 0 <= sample < minutesInTimeInterval;
    return Ok(At(location, today, conf.startHour) + sample * MINUTE);
  }

  /** Every time that can be chosen lies between the two hours. */
  ghost predicate EveryTimeIsInHours(conf: MonkeyConfig, today: int)
    requires conf.location.Some?
  {
    var z := conf.location.value;
    forall time: int :: IsTerminationTime(conf, today, time) ==> At(z, today, conf.startHour) <= time < At(z, today, conf.endHour)
  }

  /** The clock is not changed between the two hours, or the day loses less than a minute by it. */
  predicate HoursAreKept(conf: MonkeyConfig, today: int)
    requires conf.location.Some?
  {
    var z := conf.location.value;
    conf.startHour < z.changeHour(today) <= conf.endHour ==> DAY - MINUTE < Length(z, today)
  }

  /** The chosen times lie between the two hours exactly when no clock change between those takes a
      minute or more from the day: otherwise the last ones come after the end hour. */
  lemma EveryTimeIsInHoursIff(conf: MonkeyConfig, today: int)
    requires conf.location.Some? && conf.startHour < conf.endHour
    ensures EveryTimeIsInHours(conf, today) <==> HoursAreKept(conf, today)
    ensures forall minute: nat :: minute < (conf.endHour - conf.startHour) * 60 ==>
              IsTerminationTime(conf, today, At(conf.location.value, today, conf.startHour) + 60 * minute)
  {
    var z := conf.location.value;
    var start, minutes := At(z, today, conf.startHour), (conf.endHour - conf.startHour) * 60;
    forall minute: nat | minute < minutes ensures IsTerminationTime(conf, today, start + 60 * minute) {
      assert start + 60 * minute == start + minute * MINUTE;
    }
    assert IsTerminationTime(conf, today, start + 60 * (minutes - 1));
  }

  /** Both hours are shown on the day. */
  predicate HoursAreOnDay(conf: MonkeyConfig, today: int)
    requires conf.location.Some?
  {
    var z := conf.location.value;
    z.startOf(today) <= At(z, today, conf.startHour) && At(z, today, conf.endHour) <= z.startOf(today + 1)
  }

  /** Then the chosen time is between the hours, on the day, and a whole number of minutes after its
      start if the day lasts a whole number of minutes. */
  lemma TimeIsInWorkingHours(conf: MonkeyConfig, today: int, time: int)
    requires IsTerminationTime(conf, today, time) && Consistent(conf.location.value)
    requires HoursAreKept(conf, today) && HoursAreOnDay(conf, today)
    ensures var z := conf.location.value;
            && At(z, today, conf.startHour) <= time < At(z, today, conf.endHour)
            && z.dayOf(time) == today
            && (Length(z, today) % MINUTE == 0 ==> (time - z.startOf(today)) % MINUTE == 0)
  {
    var z := conf.location.value;
    EveryTimeIsInHoursIff(conf, today);
    DayBetween(z, today, today + 1, time);
    if Length(z, today) % MINUTE == 0 { WholeMinutes(conf, today, time); }
  }

  lemma WholeMinutes(conf: MonkeyConfig, today: int, time: int)
    requires IsTerminationTime(conf, today, time) && Length(conf.location.value, today) % MINUTE == 0
    ensures (time - conf.location.value.startOf(today)) % MINUTE == 0
  {
    var z := conf.location.value;
    var sample: int :| 0 <= sample < (conf.endHour - conf.startHour) * 60
      && time == At(z, today, conf.startHour) + sample * MINUTE;
    var minutes := if conf.startHour < z.changeHour(today) then conf.startHour * 60
                   else Length(z, today) / MINUTE - (24 - conf.startHour) * 60;
    assert time - z.startOf(today) == (minutes + sample) * MINUTE;
  }

  /** Every day of 24 hours keeps all hours from 0 to 24. */
  lemma RegularDayKeepsHours(conf: MonkeyConfig, today: int)
    requires conf.location.Some? && Length(conf.location.value, today) == DAY
    requires 0 <= conf.startHour <= 24 && 0 <= conf.endHour <= 24
    ensures HoursAreKept(conf, today) && HoursAreOnDay(conf, today)
  {
  }

  /** Where days begin at whole minutes the chosen time is a whole minute too, which is what a
      crontab line can show. */
  lemma TimeIsWholeMinute(conf: MonkeyConfig, today: int, time: int)
    requires IsTerminationTime(conf, today, time)
    requires conf.location.value.startOf(today) % MINUTE == 0 && conf.location.value.startOf(today + 1) % MINUTE == 0
    ensures time % MINUTE == 0
  {
    var z := conf.location.value;
    var sample: int :| 0 <= sample < (conf.endHour - conf.startHour) * 60
      && time == At(z, today, conf.startHour) + sample * MINUTE;
    var first, next := z.startOf(today) / MINUTE, z.startOf(today + 1) / MINUTE;
    var minutes := if conf.startHour < z.changeHour(today) then first + conf.startHour * 60 else next - (24 - conf.startHour) * 60;
    assert time == (minutes + sample) * MINUTE;
  }

  // ---------------------------------------------------------------- one app

  /** The coin of the k-th group of an app, times the mean time, is at most one. */
  ghost predicate Falls(meanTime: int, coin: (nat, nat) -> Coin, app: nat, k: nat) {
    coin(app, k) * meanTime as real <= 1.0
  }

  /** `places` are those of the groups whose coins fall so, in order. */
  ghost predicate ArePlaces(count: nat, meanTime: int, coin: (nat, nat) -> Coin, app: nat, places: seq<nat>) {
    && (forall i, j :: 0 <= i < j < |places| ==> places[i] < places[j])
    && (forall k: nat :: k in places <==> k < count && Falls(meanTime, coin, app, k))
  }

  /** The killed groups are those whose coins fall so, each once and in the order of the groups. */
  ghost predicate AreKilled(groups: seq<Group>, meanTime: int, coin: (nat, nat) -> Coin, app: nat, killed: seq<Group>) {
    exists places :: ArePlaces(|groups|, meanTime, coin, app, places) && IsTakenAt(groups, places, killed)
  }

  ghost predicate IsTakenAt(groups: seq<Group>, places: seq<nat>, killed: seq<Group>) {
    |killed| == |places| && forall j :: 0 <= j < |places| ==> places[j] < |groups| && killed[j] == groups[places[j]]
  }

  lemma OneMoreGroup(groups: seq<Group>, n: nat, meanTime: int, coin: (nat, nat) -> Coin, app: nat, places: seq<nat>, killed: seq<Group>)
    requires n < |groups| && ArePlaces(n, meanTime, coin, app, places) && IsTakenAt(groups, places, killed)
    ensures Falls(meanTime, coin, app, n) ==>
              ArePlaces(n + 1, meanTime, coin, app, places + [n]) && IsTakenAt(groups, places + [n], killed + [groups[n]])
    ensures !Falls(meanTime, coin, app, n) ==> ArePlaces(n + 1, meanTime, coin, app, places)
  {
    forall i | 0 <= i < |places| ensures places[i] < n {
      assert places[i] in places;
    }
  }

  lemma KilledExactly(groups: seq<Group>, meanTime: int, coin: (nat, nat) -> Coin, app: nat, killed: seq<Group>, g: Group)
    requires AreKilled(groups, meanTime, coin, app, killed)
    ensures g in killed <==> exists k :: 0 <= k < |groups| && groups[k] == g && Falls(meanTime, coin, app, k)
  {
    var places :| ArePlaces(|groups|, meanTime, coin, app, places) && IsTakenAt(groups, places, killed);
    if g in killed {
      var j :| 0 <= j < |killed| && killed[j] == g;
      assert places[j] in places;
    }
    if k :| 0 <= k < |groups| && groups[k] == g && Falls(meanTime, coin, app, k) {
      assert k in places;
      var j :| 0 <= j < |places| && places[j] == k;
      assert killed[j] == g;
    }
  }

  /** Of pairwise different groups each is killed once if its coin falls so and else not at all. */
  lemma KilledOnceEach(groups: seq<Group>, meanTime: int, coin: (nat, nat) -> Coin, app: nat, killed: seq<Group>, k: nat)
    requires AreKilled(groups, meanTime, coin, app, killed) && k < |groups|
    requires forall i, j :: 0 <= i < j < |groups| ==> groups[i] != groups[j]
    ensures forall i, j :: 0 <= i < j < |killed| ==> killed[i] != killed[j]
    ensures multiset(killed)[groups[k]] == if Falls(meanTime, coin, app, k) then 1 else 0
  {
    KilledDiffer(groups, meanTime, coin, app, killed);
    DistinctOnce(killed, groups[k]);
    KilledExactly(groups, meanTime, coin, app, killed, groups[k]);
  }

  lemma KilledDiffer(groups: seq<Group>, meanTime: int, coin: (nat, nat) -> Coin, app: nat, killed: seq<Group>)
    requires AreKilled(groups, meanTime, coin, app, killed)
    requires forall i, j :: 0 <= i < j < |groups| ==> groups[i] != groups[j]
    ensures forall i, j :: 0 <= i < j < |killed| ==> killed[i] != killed[j]
  {
    var places :| ArePlaces(|groups|, meanTime, coin, app, places) && IsTakenAt(groups, places, killed);
    forall i, j | 0 <= i < j < |killed| ensures killed[i] != killed[j] {
      assert places[i] < places[j];
    }
  }

  ghost function GroupsOfEntries(es: seq<Entry>): (groups: seq<Group>)
    ensures |groups| == |es|
  {
    seq(|es|, i requires 0 <= i < |es| => es[i].group)
  }

  ghost predicate TimesFit(conf: MonkeyConfig, today: (nat, nat) -> int, app: nat, es: seq<Entry>) {
    forall i :: 0 <= i < |es| ==> TimeFits(conf, today, app, es[i])
  }

  ghost predicate TimeFits(conf: MonkeyConfig, today: (nat, nat) -> int, app: nat, e: Entry) {
    exists k: nat :: IsTerminationTime(conf, today(app, k), e.time)
  }

  ghost predicate AllClustersParse(parse: Parser, data: AppMap) {
    forall a, c :: a in data && c in data[a].clusters ==> parse(c).Some?
  }

  /** The groups are those of the app, each once. */
  ghost predicate AreGroups(parse: Parser, name: string, cfg: AppConfig, data: AppMap, groups: seq<Group>) {
    && (forall i, j :: 0 <= i < j < |groups| ==> groups[i] != groups[j])
    && (forall g :: g in groups <==> IsGroup(parse, name, cfg, data, g))
  }

  /** Entries for the chosen ones of the app's groups; none for a disabled app. */
  ghost predicate Fits(parse: Parser, conf: MonkeyConfig, luck: Luck, app: nat, name: string, cfg: AppConfig, data: AppMap, es: seq<Entry>) {
    if !cfg.enabled then es == []
    else
      && TimesFit(conf, luck.today, app, es)
      && conf.location.Some? && !cfg.grouping.Unrecognized?
      && exists groups :: AreGroups(parse, name, cfg, data, groups) && IsOutcome(groups, cfg, luck, app, es)
  }

  /** The entries are for the killed ones of the groups. */
  ghost predicate IsOutcome(groups: seq<Group>, cfg: AppConfig, luck: Luck, app: nat, es: seq<Entry>) {
    (groups != [] ==> cfg.meanTime > 0) && AreKilled(groups, cfg.meanTime, luck.coin, app, GroupsOfEntries(es))
  }

  /** With the groups in this order the app makes the program panic. */
  ghost predicate Panics(conf: MonkeyConfig, meanTime: int, luck: Luck, app: nat, groups: seq<Group>) {
    && groups != []
    && (meanTime <= 0 || (conf.endHour <= conf.startHour && exists k: nat :: k < |groups| && Falls(meanTime, luck.coin, app, k)))
  }

  /** The app makes the program panic: without a location, with an unknown grouping or a name that
      does not parse, or with its groups in some order. */
  ghost predicate IsStuck(parse: Parser, conf: MonkeyConfig, luck: Luck, app: nat, name: string, cfg: AppConfig, data: AppMap) {
    && cfg.enabled
    && (|| conf.location.None? || cfg.grouping.Unrecognized?
        || (cfg.grouping.ByStack? && !AllClustersParse(parse, data))
        || exists groups :: AreGroups(parse, name, cfg, data, groups) && Panics(conf, cfg.meanTime, luck, app, groups))
  }

  /** Nothing in the configurations makes the program panic on the app. */
  ghost predicate Schedulable(parse: Parser, conf: MonkeyConfig, cfg: AppConfig, data: AppMap) {
    cfg.enabled ==>
      && conf.location.Some? && conf.startHour < conf.endHour
      && cfg.meanTime > 0 && !cfg.grouping.Unrecognized?
      && (cfg.grouping.ByStack? ==> AllClustersParse(parse, data))
  }

  lemma ShownStacksAreKnown(parse: Parser, v: AppView, name: string, data: AppMap)
    requires Shows(v, name, data) && AllClustersParse(parse, data)
    ensures AllStacksKnown(parse, v.accounts)
  {
    forall a | 0 <= a < |v.accounts| ensures StacksKnown(parse, v.accounts[a].clusters) {
      assert ShowsAccount(v.accounts[a], v.accounts[a].name, data[v.accounts[a].name]);
    }
  }

  lemma ListedAreGroups(parse: Parser, cfg: AppConfig, v: AppView, data: AppMap, groups: seq<Group>)
    requires Shows(v, v.name, data) && Lists(groups, GroupsOf(parse, cfg, v))
    ensures AreGroups(parse, v.name, cfg, data, groups)
  {
    forall g ensures g in groups <==> IsGroup(parse, v.name, cfg, data, g) {
      GroupsAreGroups(parse, v.name, cfg, data, v, g);
    }
  }

  class Schedule {
    var entries: seq<Entry>

    constructor ()
      ensures entries == []
    {
      entries := [];
    }

    method Add(time: int, group: Group)
      modifies this
      ensures entries == old(entries) + [Entry(group, time)]
    {
      entries := entries + [Entry(group, time)];
    }

    /** The loop over the groups of one app. */
    method AddChosen(conf: MonkeyConfig, location: Zone, luck: Luck, i: nat, meanTime: int, groups: seq<Group>)
      returns (r: Result<()>, ghost added: seq<Entry>)
      requires conf.location == Some(location)
      modifies this
      ensures r.Err? <==> Panics(conf, meanTime, luck, i, groups)
      ensures r.Ok? ==> && entries == old(entries) + added
                        && TimesFit(conf, luck.today, i, added)
                        && (groups != [] ==> meanTime > 0)
                        && AreKilled(groups, meanTime, luck.coin, i, GroupsOfEntries(added))
    {
      added := [];
      ghost var places: seq<nat> := [];
      for k := 0 to |groups|
        invariant k > 0 ==> meanTime > 0
        invariant entries == old(entries) + added
        invariant TimesFit(conf, luck.today, i, added)
        invariant ArePlaces(k, meanTime, luck.coin, i, places) && IsTakenAt(groups, places, GroupsOfEntries(added))
        invariant conf.endHour <= conf.startHour ==> forall l: nat :: l < k ==> !Falls(meanTime, luck.coin, i, l)
      {
        var kill := ShouldKillInstance(meanTime, luck.coin(i, k));
        if kill.Err? { return Err(kill.error), added; }
        KillsWhenFalls(meanTime, luck.coin, i, k);
        OneMoreGroup(groups, k, meanTime, luck.coin, i, places, GroupsOfEntries(added));
        if kill.value {
          var time := ChooseTerminationTime(luck.today(i, k), conf, location);
          if time.Err? { return Err(time.error), added; }
          assert TimeFits(conf, luck.today, i, Entry(groups[k], time.value));
          Add(time.value, groups[k]);
          assert GroupsOfEntries(added + [Entry(groups[k], time.value)]) == GroupsOfEntries(added) + [groups[k]];
          added, places := added + [Entry(groups[k], time.value)], places + [k];
        }
      }
      return Ok(()), added;
    }

    method DoScheduleApp(parse: Parser, app: App, ghost data: AppMap, cfg: AppConfig, conf: MonkeyConfig, luck: Luck, i: nat)
      returns (r: Result<()>, ghost added: seq<Entry>)
      requires Shows(app.View(), app.name, data)
      modifies this
      ensures r.Err? ==> IsStuck(parse, conf, luck, i, app.name, cfg, data)
      ensures r.Ok? ==> entries == old(entries) + added && Fits(parse, conf, luck, i, app.name, cfg, data, added)
    {
      if !cfg.enabled { return Ok(()), []; }
      if conf.location.None? { return Err(Panic("no location")), []; }
      ghost var v := app.View();
      ShownTreeIsDistinct(v, app.name, data);
      if AllClustersParse(parse, data) { ShownStacksAreKnown(parse, v, app.name, data); }
      var groups := EligibleInstanceGroups(parse, app, cfg);
      if groups.Err? { return Err(groups.error), []; }
      ListedAreGroups(parse, cfg, v, data, groups.value);
      r, added := AddChosen(conf, conf.location.value, luck, i, cfg.meanTime, groups.value);
      if r.Ok? { assert IsOutcome(groups.value, cfg, luck, i, added); }
    }

    /** An app without a configuration is passed over. */
    method ScheduleArrived(parse: Parser, outside: Outside, app: App, conf: MonkeyConfig, luck: Luck, i: nat)
      returns (r: Result<()>, ghost part: seq<Entry>)
      requires GetApp.ProvidersKnown(outside.answers(app.name))
      requires Shows(app.View(), app.name, GetApp.DataOf(outside.answers(app.name)))
      modifies this
      ensures r.Err? ==> IsStuckAt(parse, outside, conf, luck, i, app.name)
      ensures r.Ok? ==> entries == old(entries) + part && PartFits(parse, outside, conf, luck, i, app.name, part)
    {
      var cfg := outside.config(app.name);
      if cfg.Err? { return Ok(()), []; }
      r, part := DoScheduleApp(parse, app, GetApp.DataOf(outside.answers(app.name)), cfg.value, conf, luck, i);
    }

    /** Apps arrive one by one until there are no more or enough have been examined. */
    method ScheduleEach(parse: Parser, outside: Outside, conf: MonkeyConfig, names: seq<string>, luck: Luck)
      returns (r: Result<()>, ghost parts: seq<seq<Entry>>)
      modifies this
      ensures r.Err? ==> SomeStuck(parse, outside, conf, luck, First(Arrivals(outside, names), conf.maxApps))
      ensures r.Ok? ==> entries == old(entries) + Joined(parts)
      ensures r.Ok? ==> AllFit(parse, outside, conf, luck, First(Arrivals(outside, names), conf.maxApps), parts)
    {
      parts := [];
      var i := 0;
      for n := 0 to |names|
        invariant SoFar(parse, outside, conf, luck, names, n, parts) && i == |parts|
        invariant entries == old(entries) + Joined(parts)
      {
        NextName(parse, outside, conf, luck, names, n, parts);
        var app := GetApp.GetApp(names[n], outside.answers(names[n]));
        if app.Err? { continue; }
        if i >= conf.maxApps { return Ok(()), parts; }
        ghost var part;
        r, part := ScheduleArrived(parse, outside, app.value, conf, luck, i);
        if r.Err? {
          assert IsStuckAt(parse, outside, conf, luck, i, First(Arrivals(outside, names), conf.maxApps)[i]);
          return r, parts;
        }
        NextPart(parse, outside, conf, luck, names, n, parts, part);
        JoinedAdds(old(entries), parts, part);
        parts, i := parts + [part], i + 1;
      }
      assert names[..|names|] == names;
      return Ok(()), parts;
    }

    /** No apps named means all apps. */
    method Populate(parse: Parser, outside: Outside, conf: MonkeyConfig, apps: seq<string>, luck: Luck)
      returns (r: Result<()>, ghost parts: seq<seq<Entry>>)
      modifies this
      ensures apps == [] && outside.appNames.Err? ==> r.Err? && entries == old(entries)
      ensures r.Err? && NamesKnown(outside, apps) ==> SomeStuck(parse, outside, conf, luck, Examined(outside, conf, apps))
      ensures r.Ok? ==> NamesKnown(outside, apps) && entries == old(entries) + Joined(parts)
      ensures r.Ok? ==> AllFit(parse, outside, conf, luck, Examined(outside, conf, apps), parts)
    {
      parts := [];
      var names := apps;
      if |names| == 0 {
        if outside.appNames.Err? { return Err(outside.appNames.error), parts; }
        names := outside.appNames.value;
      }
      r, parts := ScheduleEach(parse, outside, conf, names, luck);
    }

    method Swap(i: nat, j: nat)
      requires i < |entries| && j < |entries|
      modifies this
      ensures entries == old(entries)[i := old(entries[j])][j := old(entries[i])]
      ensures multiset(entries) == multiset(old(entries))
    {
      entries := entries[i := entries[j]][j := entries[i]];
    }

    /** sort.Sort: swaps entries until no later one is less. */
    method Sort()
      modifies this
      ensures multiset(entries) == multiset(old(entries)) && InTimeOrder(entries)
    {
      for i := 0 to |entries|
        invariant |entries| == |old(entries)| && multiset(entries) == multiset(old(entries))
        invariant InTimeOrder(entries[..i])
      {
        var j := i;
        while j > 0 && Less(entries[j], entries[j - 1])
          invariant 0 <= j <= i && |entries| == |old(entries)|
          invariant multiset(entries) == multiset(old(entries))
          invariant forall k, l :: 0 <= k < l <= i && l != j ==> entries[k].time <= entries[l].time
        {
          Swap(j - 1, j);
          j := j - 1;
        }
      }
    }

    /** Sorts the entries in place and prints one line for each. */
    method Crontab(path: string, account: string) returns (text: string)
      modifies this
      ensures multiset(entries) == multiset(old(entries)) && InTimeOrder(entries)
      ensures text == Table(entries, path, account)
    {
      Sort();
      ghost var sorted := entries;
      text := "";
      for i := 0 to |entries|
        invariant entries == sorted
        invariant text + Table(entries[i..], path, account) == Table(entries, path, account)
      {
        OneMoreLine(text, entries, i, path, account);
        text := text + Line(entries[i], path, account);
        text := text + "\n";
      }
    }
  }

  predicate Less(a: Entry, b: Entry) {
    a.time < b.time
  }

  lemma OneMoreLine(text: string, es: seq<Entry>, i: nat, path: string, account: string)
    requires i < |es|
    ensures text + Table(es[i..], path, account) == text + Line(es[i], path, account) + "\n" + Table(es[i + 1..], path, account)
  {
    assert es[i..][1..] == es[i + 1..];
    Regroup(text, Line(es[i], path, account), "\n", Table(es[i + 1..], path, account));
  }

  ghost predicate InTimeOrder(es: seq<Entry>) {
    forall k, l :: 0 <= k < l < |es| ==> es[k].time <= es[l].time
  }

  // ---------------------------------------------------------------- all apps

  ghost predicate NamesKnown(outside: Outside, apps: seq<string>) {
    apps == [] ==> outside.appNames.Ok?
  }

  ghost function Names(outside: Outside, apps: seq<string>): seq<string>
    requires NamesKnown(outside, apps)
  {
    if apps == [] then outside.appNames.value else apps
  }

  /** The apps that can be retrieved, in order. */
  ghost function Arrivals(outside: Outside, names: seq<string>): seq<string> {
    if names == [] then []
    else
      var last := names[|names| - 1];
      Arrivals(outside, names[..|names| - 1]) + if GetApp.ProvidersKnown(outside.answers(last)) then [last] else []
  }

  lemma OneMoreName(outside: Outside, names: seq<string>, n: nat)
    requires n < |names|
    ensures Arrivals(outside, names[..n + 1])
         == Arrivals(outside, names[..n]) + if GetApp.ProvidersKnown(outside.answers(names[n])) then [names[n]] else []
  {
    assert names[..n + 1][..n] == names[..n];
  }

  ghost function First(names: seq<string>, max: int): seq<string> {
    if max <= 0 then [] else if |names| <= max then names else names[..max]
  }

  /** At most so many of the apps that arrive are examined, the first ones. */
  ghost function Examined(outside: Outside, conf: MonkeyConfig, apps: seq<string>): seq<string>
    requires NamesKnown(outside, apps)
  {
    First(Arrivals(outside, Names(outside, apps)), conf.maxApps)
  }

  /** Every app that can be retrieved arrives as often as it is named, and as many of them are
      examined as there may be, the first ones. */
  lemma ExaminedExactly(outside: Outside, conf: MonkeyConfig, apps: seq<string>, name: string)
    requires NamesKnown(outside, apps)
    ensures var all, examined := Arrivals(outside, Names(outside, apps)), Examined(outside, conf, apps);
            && multiset(all)[name] == (if GetApp.ProvidersKnown(outside.answers(name)) then multiset(Names(outside, apps))[name] else 0)
            && examined <= all
            && |examined| == if conf.maxApps <= 0 then 0 else if conf.maxApps <= |all| then conf.maxApps else |all|
  {
    ArrivalTimes(outside, Names(outside, apps), name);
  }

  lemma {:induction false} ArrivalTimes(outside: Outside, names: seq<string>, name: string)
    ensures multiset(Arrivals(outside, names))[name]
         == if GetApp.ProvidersKnown(outside.answers(name)) then multiset(names)[name] else 0
    decreases |names|
  {
    if names != [] {
      ArrivalTimes(outside, names[..|names| - 1], name);
      OneMoreOccurrence(names, name);
    }
  }

  lemma {:induction false} ArrivalsGrow(outside: Outside, names: seq<string>, n: nat)
    requires n <= |names|
    ensures Arrivals(outside, names[..n]) <= Arrivals(outside, names)
    decreases |names|
  {
    if n == |names| {
      assert names[..n] == names;
    } else {
      assert names[..|names| - 1][..n] == names[..n];
      ArrivalsGrow(outside, names[..|names| - 1], n);
    }
  }

  /** The apps that have arrived among the first n names have all been examined. */
  ghost predicate SoFar(parse: Parser, outside: Outside, conf: MonkeyConfig, luck: Luck, names: seq<string>, n: nat, parts: seq<seq<Entry>>) {
    && n <= |names|
    && (parts == [] || |parts| <= conf.maxApps)
    && AllFit(parse, outside, conf, luck, Arrivals(outside, names[..n]), parts)
  }

  /** The next app is not there, or enough have been examined, or it is the next to be examined. */
  lemma NextName(parse: Parser, outside: Outside, conf: MonkeyConfig, luck: Luck, names: seq<string>, n: nat, parts: seq<seq<Entry>>)
    requires SoFar(parse, outside, conf, luck, names, n, parts) && n < |names|
    ensures !GetApp.ProvidersKnown(outside.answers(names[n])) ==> SoFar(parse, outside, conf, luck, names, n + 1, parts)
    ensures GetApp.ProvidersKnown(outside.answers(names[n])) ==>
              var examined := First(Arrivals(outside, names), conf.maxApps);
              if conf.maxApps <= |parts| then AllFit(parse, outside, conf, luck, examined, parts)
              else |parts| < |examined| && examined[|parts|] == names[n]
  {
    OneMoreName(outside, names, n);
    ArrivalsGrow(outside, names, n + 1);
  }

  lemma NextPart(parse: Parser, outside: Outside, conf: MonkeyConfig, luck: Luck, names: seq<string>, n: nat,
                 parts: seq<seq<Entry>>, part: seq<Entry>)
    requires SoFar(parse, outside, conf, luck, names, n, parts) && n < |names| && |parts| < conf.maxApps
    requires PartFits(parse, outside, conf, luck, |parts|, names[n], part)
    ensures SoFar(parse, outside, conf, luck, names, n + 1, parts + [part])
  {
    OneMoreName(outside, names, n);
  }

  lemma JoinedAdds(before: seq<Entry>, parts: seq<seq<Entry>>, part: seq<Entry>)
    ensures before + Joined(parts) + part == before + Joined(parts + [part])
  {
    assert (parts + [part])[..|parts + [part]| - 1] == parts;
  }

  ghost predicate AllSchedulable(parse: Parser, outside: Outside, conf: MonkeyConfig, names: seq<string>) {
    forall i :: 0 <= i < |names| ==> IsSchedulable(parse, outside, conf, names[i])
  }

  ghost predicate IsSchedulable(parse: Parser, outside: Outside, conf: MonkeyConfig, name: string) {
    var answers := outside.answers(name);
    outside.config(name).Ok? && GetApp.ProvidersKnown(answers) ==>
      Schedulable(parse, conf, outside.config(name).value, GetApp.DataOf(answers))
  }

  ghost predicate IsStuckAt(parse: Parser, outside: Outside, conf: MonkeyConfig, luck: Luck, i: nat, name: string) {
    && outside.config(name).Ok? && GetApp.ProvidersKnown(outside.answers(name))
    && IsStuck(parse, conf, luck, i, name, outside.config(name).value, GetApp.DataOf(outside.answers(name)))
  }

  /** One of the examined apps makes the program panic. */
  ghost predicate SomeStuck(parse: Parser, outside: Outside, conf: MonkeyConfig, luck: Luck, names: seq<string>) {
    exists i :: 0 <= i < |names| && IsStuckAt(parse, outside, conf, luck, i, names[i])
  }

  /** Nothing panics on apps that are schedulable. */
  lemma SchedulableIsNotStuck(parse: Parser, outside: Outside, conf: MonkeyConfig, luck: Luck, names: seq<string>)
    requires AllSchedulable(parse, outside, conf, names)
    ensures !SomeStuck(parse, outside, conf, luck, names)
  {
    forall i | 0 <= i < |names| ensures !IsStuckAt(parse, outside, conf, luck, i, names[i]) {
      assert IsSchedulable(parse, outside, conf, names[i]);
    }
  }

  ghost predicate AllFit(parse: Parser, outside: Outside, conf: MonkeyConfig, luck: Luck, names: seq<string>, parts: seq<seq<Entry>>) {
    |parts| == |names| && forall i :: 0 <= i < |parts| ==> PartFits(parse, outside, conf, luck, i, names[i], parts[i])
  }

  /** Nothing is scheduled for an app without a configuration. */
  ghost predicate PartFits(parse: Parser, outside: Outside, conf: MonkeyConfig, luck: Luck, i: nat, name: string, part: seq<Entry>) {
    var answers := outside.answers(name);
    && GetApp.ProvidersKnown(answers)
    && if outside.config(name).Err? then part == []
       else Fits(parse, conf, luck, i, name, outside.config(name).value, GetApp.DataOf(answers), part)
  }

  ghost function Joined(parts: seq<seq<Entry>>): seq<Entry> {
    if parts == [] then [] else Joined(parts[..|parts| - 1]) + parts[|parts| - 1]
  }

  // ---------------------------------------------------------------- the schedule of the day

  /** Every configuration there is was read from JSON. */
  ghost predicate ReadFromJson(outside: Outside) {
    forall name :: outside.config(name).Ok? ==> exists parsed :: FromJSON(parsed) == outside.config(name)
  }

  ghost predicate StacksParse(parse: Parser, outside: Outside, name: string) {
    outside.config(name).Ok? && outside.config(name).value.grouping.ByStack? && GetApp.ProvidersKnown(outside.answers(name)) ==>
      AllClustersParse(parse, GetApp.DataOf(outside.answers(name)))
  }

  /** With configurations that were read from JSON and hours in order, nothing panics and no more
      apps are examined than there may be. */
  lemma ReadConfigurationsAreSchedulable(parse: Parser, outside: Outside, conf: MonkeyConfig, apps: seq<string>)
    requires NamesKnown(outside, apps) && ReadFromJson(outside)
    requires conf.location.Some? && conf.startHour < conf.endHour
    requires forall name :: StacksParse(parse, outside, name)
    ensures AllSchedulable(parse, outside, conf, Examined(outside, conf, apps))
    ensures |Examined(outside, conf, apps)| <= if conf.maxApps < 0 then 0 else conf.maxApps
  {
    var names := Examined(outside, conf, apps);
    forall i | 0 <= i < |names| ensures IsSchedulable(parse, outside, conf, names[i]) {
      assert StacksParse(parse, outside, names[i]);
      if outside.config(names[i]).Ok? {
        var parsed :| FromJSON(parsed) == outside.config(names[i]);
        AcceptedIsReadable(parsed);
      }
    }
  }

  lemma FittingGroupIsGroup(parse: Parser, conf: MonkeyConfig, luck: Luck, app: nat, name: string, cfg: AppConfig, data: AppMap,
                            es: seq<Entry>, k: nat)
    requires Fits(parse, conf, luck, app, name, cfg, data, es) && k < |es|
    ensures cfg.enabled && IsGroup(parse, name, cfg, data, es[k].group)
  {
    var groups :| AreGroups(parse, name, cfg, data, groups) && IsOutcome(groups, cfg, luck, app, es);
    assert GroupsOfEntries(es)[k] == es[k].group;
    KilledExactly(groups, cfg.meanTime, luck.coin, app, GroupsOfEntries(es), es[k].group);
  }

  /** The entry is for an enabled app that was examined, one of its groups, and a fitting time. */
  ghost predicate IsWanted(parse: Parser, outside: Outside, conf: MonkeyConfig, luck: Luck, i: nat, name: string, e: Entry) {
    && GetApp.ProvidersKnown(outside.answers(name))
    && outside.config(name).Ok? && outside.config(name).value.enabled
    && IsGroup(parse, name, outside.config(name).value, GetApp.DataOf(outside.answers(name)), e.group)
    && TimeFits(conf, luck.today, i, e)
  }

  lemma {:induction false} OnlyWantedEntries(parse: Parser, outside: Outside, conf: MonkeyConfig, luck: Luck, names: seq<string>,
                                             parts: seq<seq<Entry>>, e: Entry)
    requires AllFit(parse, outside, conf, luck, names, parts) && e in Joined(parts)
    ensures exists i :: 0 <= i < |names| && IsWanted(parse, outside, conf, luck, i, names[i], e)
    decreases |parts|
  {
    var n := |parts| - 1;
    if e in parts[n] {
      var k :| 0 <= k < |parts[n]| && parts[n][k] == e;
      assert PartFits(parse, outside, conf, luck, n, names[n], parts[n]);
      FittingGroupIsGroup(parse, conf, luck, n, names[n], outside.config(names[n]).value, GetApp.DataOf(outside.answers(names[n])), parts[n], k);
      assert IsWanted(parse, outside, conf, luck, n, names[n], e);
    } else {
      OnlyWantedEntries(parse, outside, conf, luck, names[..n], parts[..n], e);
      var i :| 0 <= i < n && IsWanted(parse, outside, conf, luck, i, names[..n][i], e);
      assert names[..n][i] == names[i];
    }
  }

  // ---------------------------------------------------------------- each group once

  ghost function Times(g: Group, es: seq<Entry>): nat {
    multiset(GroupsOfEntries(es))[g]
  }

  lemma TimesConcat(g: Group, a: seq<Entry>, b: seq<Entry>)
    ensures Times(g, a + b) == Times(g, a) + Times(g, b)
  {
    assert GroupsOfEntries(a + b) == GroupsOfEntries(a) + GroupsOfEntries(b);
  }

  lemma {:induction false} DistinctOnce<T>(xs: seq<T>, x: T)
    requires forall i, j :: 0 <= i < j < |xs| ==> xs[i] != xs[j]
    ensures multiset(xs)[x] == if x in xs then 1 else 0
    decreases |xs|
  {
    if xs != [] {
      var front, last := xs[..|xs| - 1], xs[|xs| - 1];
      assert xs == front + [last];
      DistinctOnce(front, x);
    }
  }

  /** The group is one of an enabled app with a mean time of one work day. */
  ghost predicate DueEveryDay(parse: Parser, outside: Outside, name: string, g: Group) {
    && outside.config(name).Ok? && GetApp.ProvidersKnown(outside.answers(name))
    && var cfg := outside.config(name).value;
       cfg.enabled && cfg.meanTime == 1 && IsGroup(parse, name, cfg, GetApp.DataOf(outside.answers(name)), g)
  }

  /** The app's groups in some order, and each on the schedule once if its coin falls so, else not. */
  ghost predicate IsScheduledByCoins(parse: Parser, outside: Outside, luck: Luck, i: nat, name: string, part: seq<Entry>, groups: seq<Group>) {
    && outside.config(name).Ok? && GetApp.ProvidersKnown(outside.answers(name))
    && var cfg := outside.config(name).value;
    && AreGroups(parse, name, cfg, GetApp.DataOf(outside.answers(name)), groups)
    && AreKilled(groups, cfg.meanTime, luck.coin, i, GroupsOfEntries(part))
    && forall k: nat :: k < |groups| ==> Times(groups[k], part) == if Falls(cfg.meanTime, luck.coin, i, k) then 1 else 0
  }

  /** Whatever its mean time, an enabled app that was examined has each of its groups on the schedule
      exactly once if the group's coin times the mean time is at most one, and else not at all, in
      the order of the groups. */
  lemma ScheduledAsCoinsFall(parse: Parser, outside: Outside, conf: MonkeyConfig, luck: Luck, names: seq<string>, parts: seq<seq<Entry>>, i: nat)
    requires AllFit(parse, outside, conf, luck, names, parts) && i < |names|
    requires outside.config(names[i]).Ok? && outside.config(names[i]).value.enabled
    ensures exists groups :: IsScheduledByCoins(parse, outside, luck, i, names[i], parts[i], groups)
  {
    assert PartFits(parse, outside, conf, luck, i, names[i], parts[i]);
    var groups := GroupsOfPart(parse, outside, conf, luck, i, names[i], parts[i]);
  }

  lemma GroupsOfPart(parse: Parser, outside: Outside, conf: MonkeyConfig, luck: Luck, i: nat, name: string, part: seq<Entry>)
    returns (groups: seq<Group>)
    requires PartFits(parse, outside, conf, luck, i, name, part)
    requires outside.config(name).Ok? && outside.config(name).value.enabled
    ensures IsScheduledByCoins(parse, outside, luck, i, name, part, groups)
  {
    var cfg, data := outside.config(name).value, GetApp.DataOf(outside.answers(name));
    groups :| AreGroups(parse, name, cfg, data, groups) && IsOutcome(groups, cfg, luck, i, part);
    forall k: nat | k < |groups| ensures Times(groups[k], part) == if Falls(cfg.meanTime, luck.coin, i, k) then 1 else 0 {
      KilledOnceEach(groups, cfg.meanTime, luck.coin, i, GroupsOfEntries(part), k);
    }
  }

  lemma TimesInPart(parse: Parser, outside: Outside, conf: MonkeyConfig, luck: Luck, i: nat, name: string, part: seq<Entry>, g: Group)
    requires PartFits(parse, outside, conf, luck, i, name, part)
    ensures g.app != name ==> Times(g, part) == 0
    ensures Times(g, part) <= 1
    ensures DueEveryDay(parse, outside, name, g) ==> Times(g, part) == 1
  {
    if outside.config(name).Ok? && outside.config(name).value.enabled {
      var groups := GroupsOfPart(parse, outside, conf, luck, i, name, part);
      GroupTimes(parse, outside, luck, i, name, part, groups, g);
    }
  }

  lemma GroupTimes(parse: Parser, outside: Outside, luck: Luck, i: nat, name: string, part: seq<Entry>, groups: seq<Group>, g: Group)
    requires IsScheduledByCoins(parse, outside, luck, i, name, part, groups)
    ensures Times(g, part) <= 1
    ensures g !in groups ==> Times(g, part) == 0
    ensures g in groups && outside.config(name).value.meanTime == 1 ==> Times(g, part) == 1
  {
    var cfg := outside.config(name).value;
    if g in groups {
      var k: nat :| k < |groups| && groups[k] == g;
      assert cfg.meanTime == 1 ==> Falls(cfg.meanTime, luck.coin, i, k);
    } else {
      KilledExactly(groups, cfg.meanTime, luck.coin, i, GroupsOfEntries(part), g);
    }
  }

  /** With a mean time of one work day a group is on the schedule as often as its app was examined,
      so exactly once exactly when its app was examined once. */
  lemma {:induction false} EveryGroupOnceADay(parse: Parser, outside: Outside, conf: MonkeyConfig, luck: Luck, names: seq<string>,
                                              parts: seq<seq<Entry>>, g: Group)
    requires AllFit(parse, outside, conf, luck, names, parts) && DueEveryDay(parse, outside, g.app, g)
    ensures Times(g, Joined(parts)) == multiset(names)[g.app]
    decreases |parts|
  {
    if parts != [] {
      OneMorePartsTimes(parse, outside, conf, luck, names, parts, g);
      OneMoreOccurrence(names, g.app);
      EveryGroupOnceADay(parse, outside, conf, luck, names[..|names| - 1], parts[..|parts| - 1], g);
    }
  }

  /** Whatever the mean times, no group is on the schedule more often than its app was examined. */
  lemma {:induction false} NeverMoreOftenThanExamined(parse: Parser, outside: Outside, conf: MonkeyConfig, luck: Luck, names: seq<string>,
                                                      parts: seq<seq<Entry>>, g: Group)
    requires AllFit(parse, outside, conf, luck, names, parts)
    ensures Times(g, Joined(parts)) <= multiset(names)[g.app]
    decreases |parts|
  {
    if parts != [] {
      LastPart(parse, outside, conf, luck, names, parts);
      NeverMoreOftenThanExamined(parse, outside, conf, luck, names[..|names| - 1], parts[..|parts| - 1], g);
      TimesInPart(parse, outside, conf, luck, |parts| - 1, names[|names| - 1], parts[|parts| - 1], g);
      TimesConcat(g, Joined(parts[..|parts| - 1]), parts[|parts| - 1]);
      OneMoreOccurrence(names, g.app);
    }
  }

  lemma OneMoreOccurrence<T>(xs: seq<T>, x: T)
    requires xs != []
    ensures multiset(xs)[x] == multiset(xs[..|xs| - 1])[x] + if xs[|xs| - 1] == x then 1 else 0
  {
    assert xs == xs[..|xs| - 1] + [xs[|xs| - 1]];
  }

  /** An app that is named twice is examined twice, and each of its groups is scheduled twice. */
  lemma AppNamedTwiceIsScheduledTwice(parse: Parser, outside: Outside, conf: MonkeyConfig, luck: Luck, name: string,
                                      parts: seq<seq<Entry>>, g: Group)
    requires conf.maxApps >= 2 && g.app == name && DueEveryDay(parse, outside, name, g)
    requires AllFit(parse, outside, conf, luck, Examined(outside, conf, [name, name]), parts)
    ensures Times(g, Joined(parts)) == 2
  {
    OneMoreName(outside, [name, name], 0);
    OneMoreName(outside, [name, name], 1);
    assert [name, name][..0] == [] && [name, name][..2] == [name, name];
    assert Arrivals(outside, [name, name]) == [name, name];
    EveryGroupOnceADay(parse, outside, conf, luck, [name, name], parts, g);
  }

  lemma LastPart(parse: Parser, outside: Outside, conf: MonkeyConfig, luck: Luck, names: seq<string>, parts: seq<seq<Entry>>)
    requires AllFit(parse, outside, conf, luck, names, parts) && parts != []
    ensures AllFit(parse, outside, conf, luck, names[..|names| - 1], parts[..|parts| - 1])
    ensures PartFits(parse, outside, conf, luck, |parts| - 1, names[|names| - 1], parts[|parts| - 1])
  {
  }

  lemma OneMorePartsTimes(parse: Parser, outside: Outside, conf: MonkeyConfig, luck: Luck, names: seq<string>, parts: seq<seq<Entry>>, g: Group)
    requires AllFit(parse, outside, conf, luck, names, parts) && parts != [] && DueEveryDay(parse, outside, g.app, g)
    ensures AllFit(parse, outside, conf, luck, names[..|names| - 1], parts[..|parts| - 1])
    ensures Times(g, Joined(parts)) == Times(g, Joined(parts[..|parts| - 1])) + if names[|names| - 1] == g.app then 1 else 0
  {
    LastPart(parse, outside, conf, luck, names, parts);
    TimesInDuePart(parse, outside, conf, luck, |parts| - 1, names[|names| - 1], parts[|parts| - 1], g);
    TimesConcat(g, Joined(parts[..|parts| - 1]), parts[|parts| - 1]);
  }

  lemma TimesInDuePart(parse: Parser, outside: Outside, conf: MonkeyConfig, luck: Luck, i: nat, name: string, part: seq<Entry>, g: Group)
    requires PartFits(parse, outside, conf, luck, i, name, part) && DueEveryDay(parse, outside, g.app, g)
    ensures Times(g, part) == if name == g.app then 1 else 0
  {
    TimesInPart(parse, outside, conf, luck, i, name, part, g);
  }

  // ---------------------------------------------------------------- on which date

  /** A chosen time is on the local date of an instant exactly when the machine's date is that date. */
  lemma TimeIsOnDateIff(conf: MonkeyConfig, today: int, time: int, now: int)
    requires IsTerminationTime(conf, today, time) && Consistent(conf.location.value)
    requires HoursAreKept(conf, today) && HoursAreOnDay(conf, today)
    ensures var z := conf.location.value; z.dayOf(time) == z.dayOf(now) <==> today == z.dayOf(now)
  {
    TimeIsInWorkingHours(conf, today, time);
  }

  /** The machine's clock shows the same date whenever it is asked. */
  ghost predicate TodayIs(luck: Luck, today: int) {
    forall app: nat, k: nat :: luck.today(app, k) == today
  }

  /** When both hours are shown on the machine's date, all terminations are on the local date of an
      instant exactly when there are none or the machine's date is that date. */
  lemma KillsAreOnDateIff(parse: Parser, outside: Outside, conf: MonkeyConfig, luck: Luck, names: seq<string>, parts: seq<seq<Entry>>,
                          today: int, now: int)
    requires AllFit(parse, outside, conf, luck, names, parts) && TodayIs(luck, today)
    requires conf.location.Some? && Consistent(conf.location.value)
    requires HoursAreKept(conf, today) && HoursAreOnDay(conf, today)
    ensures var z := conf.location.value;
            (forall e :: e in Joined(parts) ==> z.dayOf(e.time) == z.dayOf(now)) <==> Joined(parts) == [] || today == z.dayOf(now)
  {
    var z := conf.location.value;
    forall e | e in Joined(parts) ensures z.dayOf(e.time) == today {
      OnlyWantedEntries(parse, outside, conf, luck, names, parts, e);
      var i :| 0 <= i < |names| && IsWanted(parse, outside, conf, luck, i, names[i], e);
      TimeOfEntry(conf, luck, today, i, e);
    }
    if Joined(parts) != [] { assert Joined(parts)[0] in Joined(parts); }
  }

  lemma TimeOfEntry(conf: MonkeyConfig, luck: Luck, today: int, i: nat, e: Entry)
    requires TimeFits(conf, luck.today, i, e) && TodayIs(luck, today)
    requires conf.location.Some? && Consistent(conf.location.value)
    requires HoursAreKept(conf, today) && HoursAreOnDay(conf, today)
    ensures conf.location.value.dayOf(e.time) == today
  {
    var k: nat :| IsTerminationTime(conf, luck.today(i, k), e.time);
    TimeIsInWorkingHours(conf, today, e.time);
  }
}
