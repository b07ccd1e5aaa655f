/** The terminate command: a sequence of gates, then a check, trackers and the kill
    (term/term.go). */
module Term {
  import opened Domain
  import opened WorkCalendar
  import opened MinTime
  import opened Groups
  import opened Eligible
  import opened MySql

  /** What the outside world answers during one call. A tracker either works or fails. */
  datatype Deps = Deps(
    enabled: Result<bool>,
    outage: Result<bool>,
    accountEnabled: string -> Result<bool>,
    leashed: Result<bool>,
    inTest: bool,
    config: string -> Result<AppConfig>,
    parse: Parser,
    deployment: Deployment,
    location: Result<Zone>,
    endHour: int,
    now: int,
    trackers: seq<bool>,
    terminatorWorks: bool,
    faults: CheckFaults)

  /** What a call does to the outside: a committed row, a call of a tracker, a call of the
      terminator. */
  datatype Event =
    | Recorded(row: Row)
    | Tracked(index: nat, term: Termination)
    | Killed(term: Termination)

  datatype World = World(table: seq<Row>, trace: seq<Event>)

  // ---------------------------------------------------------------- the gates

  /** The gate that ends the call before anything is picked, and with which result. */
  function Stop(d: Deps, group: Group): Option<Result<()>> {
    if d.enabled.Err? then Some(Err(d.enabled.error))
    else if !d.enabled.value then Some(Ok(()))
    else if d.outage.Err? then Some(Err(d.outage.error))
    else if d.outage.value then Some(Ok(()))
    else if d.accountEnabled(group.account).Err? then Some(Err(d.accountEnabled(group.account).error))
    else if !d.accountEnabled(group.account).value then Some(Ok(()))
    else if d.leashed.Err? then Some(Err(d.leashed.error))
    else if d.inTest && !d.leashed.value then Some(Err(UnleashedInTestEnv))
    else if d.config(group.app).Err? then Some(Err(d.config(group.app).error))
    else if !d.config(group.app).value.enabled then Some(Ok(()))
    else if d.config(group.app).value.whitelist.Some? then Some(Ok(()))
    else None
  }

  ghost predicate GatesOpen(d: Deps, group: Group) {
    && d.enabled.Ok? && d.enabled.value
    && d.outage.Ok? && !d.outage.value
    && d.accountEnabled(group.account).Ok? && d.accountEnabled(group.account).value
    && d.leashed.Ok? && (d.leashed.value || !d.inTest)
    && d.config(group.app).Ok?
    && d.config(group.app).value.enabled
    && d.config(group.app).value.whitelist.None?
  }

  lemma StopsUnlessGatesOpen(d: Deps, group: Group)
    ensures Stop(d, group).None? <==> GatesOpen(d, group)
  {
  }

  /** Which gate ends a call and how: a question without an answer, and running unleashed in the test
      environment, end it with an error, a gate that says no ends it without one, and the first
      closed gate decides. */
  lemma FirstClosedGateDecides(d: Deps, group: Group)
    ensures d.enabled.Err? ==> Stop(d, group) == Some(Err(d.enabled.error))
    ensures d.enabled == Ok(false) ==> Stop(d, group) == Some(Ok(()))
    ensures d.enabled == Ok(true) && d.outage.Err? ==> Stop(d, group) == Some(Err(d.outage.error))
    ensures d.enabled == Ok(true) && d.outage == Ok(true) ==> Stop(d, group) == Some(Ok(()))
    ensures d.enabled == Ok(true) && d.outage == Ok(false) ==>
              var account := d.accountEnabled(group.account);
              && (account.Err? ==> Stop(d, group) == Some(Err(account.error)))
              && (account == Ok(false) ==> Stop(d, group) == Some(Ok(())))
    ensures d.enabled == Ok(true) && d.outage == Ok(false) && d.accountEnabled(group.account) == Ok(true) ==>
              && (d.leashed.Err? ==> Stop(d, group) == Some(Err(d.leashed.error)))
              && (d.leashed == Ok(false) && d.inTest ==> Stop(d, group) == Some(Err(UnleashedInTestEnv)))
              && (d.leashed == Ok(true) || (d.leashed == Ok(false) && !d.inTest) ==>
                    match d.config(group.app)
                    case Err(e) => Stop(d, group) == Some(Err(e))
                    case Ok(cfg) => Stop(d, group) == if cfg.enabled && cfg.whitelist.None? then None else Some(Ok(())))
  {
  }

  // ---------------------------------------------------------------- one call

  ghost predicate AllWork(trackers: seq<bool>) {
    forall i :: 0 <= i < |trackers| ==> trackers[i]
  }

  /** The trackers are called in order up to the first that fails. */
  ghost function TrackEvents(term: Termination, trackers: seq<bool>): seq<Event> {
    if trackers == [] then []
    else
      var front := trackers[..|trackers| - 1];
      TrackEvents(term, front) + if AllWork(front) then [Tracked(|front|, term)] else []
  }

  /** The effects of a call whose check went through. */
  ghost function Effects(d: Deps, term: Termination): seq<Event> {
    (if d.faults.commit then [] else [Recorded(RowOf(term))])
    + TrackEvents(term, d.trackers)
    + if AllWork(d.trackers) && !term.leashed then [Killed(term)] else []
  }

  ghost predicate Picks(d: Deps, group: Group, i: Instance) {
    && d.config(group.app).Ok?
    && Answers(d.parse, group, d.config(group.app).value.exceptions, d.deployment)
    && i in EligibleInstances(d.parse, group, d.config(group.app).value.exceptions, d.deployment)
  }

  ghost predicate AttemptOn(d: Deps, group: Group, i: Instance, before: World, after: World, r: Result<()>)
    requires GatesOpen(d, group) && d.location.Ok? && Sane(d.location.value)
  {
    var term := Termination(i, d.now, d.leashed.value);
    if !Accepts(before.table, term, d.config(group.app).value, d.endHour, d.location.value, d.faults) then
      after == before && r.Err?
    else
      && after.table == before.table + (if d.faults.commit then [] else [RowOf(term)])
      && after.trace == before.trace + Effects(d, term)
      && (r.Ok? <==> AllWork(d.trackers) && (term.leashed || d.terminatorWorks))
  }

  /** What one call of Terminate may do. */
  ghost predicate Terminates(d: Deps, group: Group, before: World, after: World, r: Result<()>)
    requires d.location.Ok? ==> Sane(d.location.value)
  {
    if !GatesOpen(d, group) then
      after == before && Stop(d, group) == Some(r)
    else if d.location.Err? || !(exists i :: Picks(d, group, i)) then
      after == before && (r.Ok? <==> !(exists i :: Picks(d, group, i)))
    else
      exists i :: Picks(d, group, i) && AttemptOn(d, group, i, before, after, r)
  }

  class Monkey {
    const store: Store
    ghost var trace: seq<Event>

    constructor (store: Store)
      ensures this.store == store && trace == []
    {
      this.store := store;
      trace := [];
    }

    ghost function TheWorld(): World
      reads this, store
    {
      World(store.terminations, trace)
    }

    method Terminate(d: Deps, app: string, account: string, region: string, stack: string, cluster: string) returns (r: Result<()>)
      requires d.location.Ok? ==> Sane(d.location.value)
      modifies this`trace, store`terminations
      ensures Terminates(d, Group(app, account, region, stack, cluster), old(TheWorld()), TheWorld(), r)
    {
      if d.enabled.Err? { return Err(d.enabled.error); }
      if !d.enabled.value { return Ok(()); }
      if d.outage.Err? { return Err(d.outage.error); }
      if d.outage.value { return Ok(()); }
      var accountEnabled := d.accountEnabled(account);
      if accountEnabled.Err? { return Err(accountEnabled.error); }
      if !accountEnabled.value { return Ok(()); }
      r := DoTerminate(d, Group(app, account, region, stack, cluster));
    }

    method DoTerminate(d: Deps, group: Group) returns (r: Result<()>)
      requires d.location.Ok? ==> Sane(d.location.value)
      requires d.enabled == Ok(true) && d.outage == Ok(false) && d.accountEnabled(group.account) == Ok(true)
      modifies this`trace, store`terminations
      ensures Terminates(d, group, old(TheWorld()), TheWorld(), r)
    {
      if d.leashed.Err? { return Err(d.leashed.error); }
      var leashed := d.leashed.value;
      if d.inTest && !leashed { return Err(UnleashedInTestEnv); }
      var config := d.config(group.app);
      if config.Err? { return Err(config.error); }
      var cfg := config.value;
      if !cfg.enabled { return Ok(()); }
      if cfg.whitelist.Some? { return Ok(()); }
      var picked := PickRandomInstance(d.parse, group, cfg, d.deployment);
      if picked.None? {
        assert !(exists i :: Picks(d, group, i));
        return Ok(());
      }
      assert Picks(d, group, picked.value);
      if d.location.Err? { return Err(d.location.error); }
      var term := Termination(picked.value, d.now, leashed);
      r := Execute(d, term, cfg);
      assert AttemptOn(d, group, picked.value, old(TheWorld()), TheWorld(), r);
    }

    /** The part of doTerminate that has effects: the check, the trackers, the kill. */
    method Execute(d: Deps, term: Termination, cfg: AppConfig) returns (r: Result<()>)
      requires d.location.Ok? && Sane(d.location.value)
      modifies this`trace, store`terminations
      ensures var accepted := Accepts(old(store.terminations), term, cfg, d.endHour, d.location.value, d.faults);
              && store.terminations == old(store.terminations) + (if accepted && !d.faults.commit then [RowOf(term)] else [])
              && trace == old(trace) + (if accepted then Effects(d, term) else [])
              && (r.Ok? <==> accepted && AllWork(d.trackers) && (term.leashed || d.terminatorWorks))
    {
      r := store.Check(term, cfg, d.endHour, d.location.value, d.faults);
      if r.Err? { return; }
      r := TrackAndKill(d, term);
    }

    /** What follows a check that went through; the row it committed is noted first. */
    method TrackAndKill(d: Deps, term: Termination) returns (r: Result<()>)
      modifies this`trace
      ensures trace == old(trace) + Effects(d, term)
      ensures r.Ok? <==> AllWork(d.trackers) && (term.leashed || d.terminatorWorks)
    {
      if !d.faults.commit { trace := trace + [Recorded(RowOf(term))]; }
      r := CallTrackers(d.trackers, term);
      if r.Err? { return; }
      if term.leashed { return Ok(()); }
      trace := trace + [Killed(term)];
      r := if d.terminatorWorks then Ok(()) else Err(TerminatorFailed);
    }

    /** The loop over the trackers. */
    method CallTrackers(trackers: seq<bool>, term: Termination) returns (r: Result<()>)
      modifies this`trace
      ensures trace == old(trace) + TrackEvents(term, trackers)
      ensures r.Ok? <==> AllWork(trackers)
    {
      for i := 0 to |trackers|
        invariant AllWork(trackers[..i])
        invariant trace == old(trace) + TrackEvents(term, trackers[..i])
      {
        assert trackers[..i + 1][..i] == trackers[..i];
        trace := trace + [Tracked(i, term)];
        if !trackers[i] {
          TrackEventsStop(term, trackers, i);
          return Err(TrackerFailed(i));
        }
      }
      assert trackers[..|trackers|] == trackers;
      return Ok(());
    }
  }

  lemma {:induction false} TrackEventsStop(term: Termination, trackers: seq<bool>, i: nat)
    requires i < |trackers| && !trackers[i]
    ensures TrackEvents(term, trackers) == TrackEvents(term, trackers[..i + 1])
    decreases |trackers|
  {
    if i == |trackers| - 1 {
      assert trackers[..i + 1] == trackers;
    } else {
      var front := trackers[..|trackers| - 1];
      assert front[..i + 1] == trackers[..i + 1] && !front[i];
      TrackEventsStop(term, front, i);
    }
  }
}
