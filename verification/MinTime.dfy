/** The query that decides whether a termination respects the minimum time between kills
    and what its answer means in work days (mysql/mysql.go:303-366, 430-438). */
module MinTime {
  import opened Domain
  import opened WorkCalendar

  /** A row of the terminations table; killedAt is a whole second in UTC. */
  datatype Row = Row(
    app: string, account: string, stack: string, cluster: string, region: string,
    asg: string, instanceId: string, killedAt: int, leashed: bool)

  function RowOf(term: Termination): Row {
    var i := term.instance;
    Row(i.app, i.account, i.stack, i.cluster, i.region, i.asg, i.id, term.time, term.leashed)
  }

  /** The WHERE clause of the query; an absent part was not appended to it. */
  datatype Query = Query(
    app: string, account: string, since: int,
    stack: Option<string>, cluster: Option<string>, region: Option<string>, unleashedOnly: bool)

  predicate Selects(q: Query, r: Row) {
    && r.app == q.app
    && r.account == q.account
    && q.since <= r.killedAt
    && (q.stack.Some? ==> r.stack == q.stack.value)
    && (q.cluster.Some? ==> r.cluster == q.cluster.value)
    && (q.region.Some? ==> r.region == q.region.value)
    && (q.unleashedOnly ==> !r.leashed)
  }

  /** The query is built from the configuration; the threshold is computed first. */
  function QueryFor(term: Termination, cfg: AppConfig, endHour: int, z: Zone): (q: Result<Query>)
    requires Sane(z)
    ensures q.Ok? <==> cfg.minTime >= 0 && !cfg.grouping.Unrecognized?
  {
    match NoKillsSince(cfg.minTime, term.time, endHour, z)
    case IllegalDays(days) => Err(NegativeMinTime(days))
    case Since(threshold) =>
      var i := term.instance;
      var region := if cfg.regionsAreIndependent then Some(i.region) else None;
      match cfg.grouping
      case ByApp => Ok(Query(i.app, i.account, threshold, None, None, region, !term.leashed))
      case ByStack => Ok(Query(i.app, i.account, threshold, Some(i.stack), None, region, !term.leashed))
      case ByCluster => Ok(Query(i.app, i.account, threshold, None, Some(i.cluster), region, !term.leashed))
      case Unrecognized(code) => Err(UnknownGrouping(code))
  }

  /** What two kills must share to be throttled against each other. */
  datatype Key = Key(app: string, account: string, stack: Option<string>, cluster: Option<string>, region: Option<string>)

  function KeyOf(cfg: AppConfig, app: string, account: string, stack: string, cluster: string, region: string): Key {
    Key(app, account,
        if cfg.grouping.ByStack? then Some(stack) else None,
        if cfg.grouping.ByCluster? then Some(cluster) else None,
        if cfg.regionsAreIndependent then Some(region) else None)
  }

  function RowKey(cfg: AppConfig, r: Row): Key {
    KeyOf(cfg, r.app, r.account, r.stack, r.cluster, r.region)
  }

  function InstanceKey(cfg: AppConfig, i: Instance): Key {
    KeyOf(cfg, i.app, i.account, i.stack, i.cluster, i.region)
  }

  /** A row has the key of an instance when it agrees in app and account and in what the grouping and
      independent regions add to them. */
  lemma RowHasKeyIff(cfg: AppConfig, r: Row, i: Instance)
    ensures RowKey(cfg, r) == InstanceKey(cfg, i)
       <==> && r.app == i.app && r.account == i.account
            && (cfg.grouping.ByStack? ==> r.stack == i.stack)
            && (cfg.grouping.ByCluster? ==> r.cluster == i.cluster)
            && (cfg.regionsAreIndependent ==> r.region == i.region)
  {
  }

  /** The query selects a row exactly when it has the key of the instance, is unleashed unless the
      termination is leashed, and was killed at or after the threshold. */
  lemma SelectsIff(term: Termination, cfg: AppConfig, endHour: int, z: Zone, r: Row)
    requires Sane(z) && cfg.minTime >= 0 && !cfg.grouping.Unrecognized?
    ensures Selects(QueryFor(term, cfg, endHour, z).value, r)
       <==> && r.app == term.instance.app && r.account == term.instance.account
            && (cfg.grouping.ByStack? ==> r.stack == term.instance.stack)
            && (cfg.grouping.ByCluster? ==> r.cluster == term.instance.cluster)
            && (cfg.regionsAreIndependent ==> r.region == term.instance.region)
            && (r.leashed ==> term.leashed)
            && NoKillsSince(cfg.minTime, term.time, endHour, z).instant <= r.killedAt
  {
  }

  /** An earlier row stands in the way of a later termination exactly when it has the same key,
      is not a leashed row seen by an unleashed termination, and its date is too recent. */
  lemma SelectsExactly(term: Termination, cfg: AppConfig, endHour: int, z: Zone, r: Row)
    requires Sane(z) && WorkdaysLast24Hours(z) && 0 <= endHour <= 24
    requires cfg.minTime >= 0 && !cfg.grouping.Unrecognized?
    requires z.dayOf(r.killedAt) <= z.dayOf(term.time)
    ensures Selects(QueryFor(term, cfg, endHour, z).value, r)
       <==> && RowKey(cfg, r) == InstanceKey(cfg, term.instance)
            && (r.leashed ==> term.leashed)
            && var between := WorkDays(z.dayOf(r.killedAt), z.dayOf(term.time));
               (between < cfg.minTime || (between == cfg.minTime && AfterHours(z, r.killedAt, endHour)))
  {
    ReachesThresholdIff(z, cfg.minTime, r.killedAt, term.time, endHour);
  }

  /** An earlier kill made in working hours stands in the way exactly when fewer work days
      than the minimum separate the two dates. */
  lemma SelectsExactlyInWorkingHours(term: Termination, cfg: AppConfig, endHour: int, z: Zone, r: Row)
    requires Sane(z) && WorkdaysLast24Hours(z) && 0 <= endHour <= 24
    requires cfg.minTime >= 0 && !cfg.grouping.Unrecognized?
    requires z.dayOf(r.killedAt) <= z.dayOf(term.time) && !AfterHours(z, r.killedAt, endHour)
    requires RowKey(cfg, r) == InstanceKey(cfg, term.instance) && (r.leashed ==> term.leashed)
    ensures Selects(QueryFor(term, cfg, endHour, z).value, r)
       <==> WorkDays(z.dayOf(r.killedAt), z.dayOf(term.time)) < cfg.minTime
  {
    SelectsExactly(term, cfg, endHour, z, r);
  }

  /** A row of the same key that is not selected lies at least the minimum number of work
      days before the termination; the two need not be given in the order of their times. */
  lemma NotSelectedIsSpaced(term: Termination, cfg: AppConfig, endHour: int, z: Zone, r: Row)
    requires Sane(z) && WorkdaysLast24Hours(z) && 0 <= endHour <= 24
    requires cfg.minTime >= 0 && !cfg.grouping.Unrecognized?
    requires RowKey(cfg, r) == InstanceKey(cfg, term.instance) && (r.leashed ==> term.leashed)
    requires !Selects(QueryFor(term, cfg, endHour, z).value, r)
    ensures z.dayOf(r.killedAt) <= z.dayOf(term.time)
    ensures cfg.minTime <= WorkDays(z.dayOf(r.killedAt), z.dayOf(term.time))
  {
    if z.dayOf(term.time) < z.dayOf(r.killedAt) {
      FutureReachesThreshold(z, cfg.minTime, r.killedAt, term.time, endHour);
      assert false;
    }
    SelectsExactly(term, cfg, endHour, z, r);
  }

  /** Whatever a larger minimum lets through a smaller minimum lets through. */
  lemma LargerMinimumRefusesMore(term: Termination, cfg: AppConfig, larger: int, endHour: int, z: Zone, r: Row)
    requires Sane(z) && (WorkdaysLast24Hours(z) || IsHourOfWorkdays(z, endHour))
    requires 0 <= cfg.minTime <= larger && !cfg.grouping.Unrecognized?
    requires Selects(QueryFor(term, cfg, endHour, z).value, r)
    ensures Selects(QueryFor(term, cfg.(minTime := larger), endHour, z).value, r)
  {
    ThresholdNeverLater(z, cfg.minTime, larger, term.time, endHour);
  }
}
