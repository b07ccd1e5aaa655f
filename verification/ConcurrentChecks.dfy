/** Any number of clients calling Check at once, each with its own termination, configuration
    and time zone (mysql/mysql.go:262-366). */
module ConcurrentChecks {
  import opened Domain
  import opened WorkCalendar
  import opened MinTime
  import opened Serializable
  import opened MySql

  /** The arguments of one call of Check. */
  datatype Client = Client(term: Termination, cfg: AppConfig, endHour: int, zone: Zone)

  /** The clients that get as far as the query; the others roll back before reading. Each
      reads its own query and inserts one row. */
  ghost predicate Runs(sys: System<Query, Row>, clients: seq<Client>) {
    && sys.selects == Selects
    && |sys.scripts| == |clients|
    && (forall c :: 0 <= c < |clients| ==> IsScriptOf(sys.scripts[c], clients[c]))
  }

  ghost predicate IsScriptOf(script: Script<Query, Row>, c: Client) {
    && Sane(c.zone)
    && QueryFor(c.term, c.cfg, c.endHour, c.zone) == Ok(script.query)
    && script.rows == [RowOf(c.term)]
  }

  /** In every reachable state the table holds the rows it started with and one row for each
      committed client in commit order, and no row matches the query of a client that committed
      after it. */
  lemma NoRowMatchesALaterCheck(sys: System<Query, Row>, clients: seq<Client>, s: State, i: nat, j: nat)
    requires Runs(sys, clients) && Reachable(sys, s)
    requires j < |s.log| && i < |sys.initial| + j
    ensures WellFormed(sys, s)
    ensures var table, client := Table(sys, s.log), clients[s.log[j]];
            && |table| == |sys.initial| + |s.log|
            && sys.initial <= table
            && table[|sys.initial| + j] == RowOf(client.term)
            && Sane(client.zone)
            && var query := QueryFor(client.term, client.cfg, client.endHour, client.zone);
               query.Ok? && !Selects(query.value, table[i])
  {
    OneRowInterleaving(sys, s, i, j);
    assert IsScriptOf(sys.scripts[s.log[j]], clients[s.log[j]]);
  }

  /** Both terminations are throttled under the same rule. */
  ghost predicate SameRule(a: Client, b: Client) {
    && a.cfg == b.cfg && a.endHour == b.endHour && a.zone == b.zone
    && a.cfg.minTime >= 0 && !a.cfg.grouping.Unrecognized?
    && WorkdaysLast24Hours(a.zone) && 0 <= a.endHour <= 24
    && a.term.leashed == b.term.leashed
    && InstanceKey(a.cfg, a.term.instance) == InstanceKey(b.cfg, b.term.instance)
  }

  /** Two committed checks of one group have at least the minimum number of work days between
      their dates, in whichever order and however they raced. */
  lemma CommittedChecksAreSpaced(sys: System<Query, Row>, clients: seq<Client>, s: State, a: nat, b: nat)
    requires Runs(sys, clients) && Reachable(sys, s)
    requires a < |clients| && b < |clients| && a != b && |s.phases| == |clients|
    requires s.phases[a].Committed? && s.phases[b].Committed?
    requires SameRule(clients[a], clients[b])
    ensures var dayA := clients[a].zone.dayOf(clients[a].term.time);
            var dayB := clients[b].zone.dayOf(clients[b].term.time);
            clients[a].cfg.minTime <= WorkDays(dayA, dayB) || clients[a].cfg.minTime <= WorkDays(dayB, dayA)
  {
    CommittedPairIsOrdered(sys, s, a, b);
    assert IsScriptOf(sys.scripts[a], clients[a]) && IsScriptOf(sys.scripts[b], clients[b]);
    if SelectsNone(sys, sys.scripts[a].query, sys.scripts[b].rows) {
      LaterIsSpaced(sys, clients[b], clients[a], sys.scripts[b], sys.scripts[a]);
    } else {
      LaterIsSpaced(sys, clients[a], clients[b], sys.scripts[a], sys.scripts[b]);
    }
  }

  lemma LaterIsSpaced(sys: System<Query, Row>, first: Client, second: Client, x: Script<Query, Row>, y: Script<Query, Row>)
    requires sys.selects == Selects && IsScriptOf(x, first) && IsScriptOf(y, second) && SameRule(first, second)
    requires SelectsNone(sys, y.query, x.rows)
    ensures first.cfg.minTime <= WorkDays(first.zone.dayOf(first.term.time), second.zone.dayOf(second.term.time))
  {
    assert !sys.selects(y.query, x.rows[0]);
    NotSelectedIsSpaced(second.term, second.cfg, second.endHour, second.zone, RowOf(first.term));
  }

  /** Clients racing for one group on one date cannot both commit. */
  lemma RacingChecksCannotBothCommit(sys: System<Query, Row>, clients: seq<Client>, s: State, a: nat, b: nat)
    requires Runs(sys, clients) && Reachable(sys, s)
    requires a < |clients| && b < |clients| && a != b && |s.phases| == |clients|
    requires SameRule(clients[a], clients[b]) && clients[a].cfg.minTime >= 1
    requires clients[a].zone.dayOf(clients[a].term.time) == clients[a].zone.dayOf(clients[b].term.time)
    ensures !(s.phases[a].Committed? && s.phases[b].Committed?)
  {
    if s.phases[a].Committed? && s.phases[b].Committed? {
      CommittedChecksAreSpaced(sys, clients, s, a, b);
    }
  }

  /** A check that is alone does what its transaction does at once, when nothing fails; so the
      table after any interleaving is the one that calls of Check leave in commit order. */
  lemma CheckIsTestAndSet(sys: System<Query, Row>, script: Script<Query, Row>, c: Client, rows: seq<Row>)
    requires sys.selects == Selects && IsScriptOf(script, c)
    ensures var f := CheckFaults(false, false, false, false, false, false);
            TestAndSet(sys, rows, script)
            == if Accepts(rows, c.term, c.cfg, c.endHour, c.zone, f) then rows + [RowOf(c.term)] else rows
  {
    assert SelectsNone(sys, script.query, rows) <==> NoneSelected(script.query, rows) by {
      if SelectsNone(sys, script.query, rows) {
        assert forall i :: 0 <= i < |rows| ==> !sys.selects(script.query, rows[i]);
      }
    }
  }
}
