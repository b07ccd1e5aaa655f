/** What holds over any sequence of calls of Terminate (term/term.go:52-181 over
    mysql/mysql.go:264-297). */
module TermRuns {
  import opened Domain
  import opened WorkCalendar
  import opened MinTime
  import opened Groups
  import opened Eligible
  import opened MySql
  import opened Term

  datatype Call = Call(d: Deps, group: Group)

  ghost predicate Step(c: Call, before: World, after: World) {
    && (c.d.location.Ok? ==> Sane(c.d.location.value))
    && exists r :: Terminates(c.d, c.group, before, after, r)
  }

  /** The calls one after the other, from any table and an empty trace. */
  ghost predicate Run(calls: seq<Call>, worlds: seq<World>) {
    && |worlds| == |calls| + 1
    && worlds[0].trace == []
    && (forall i :: 0 <= i < |calls| ==> Step(calls[i], worlds[i], worlds[i + 1]))
  }

  lemma RunPrefix(calls: seq<Call>, worlds: seq<World>)
    requires Run(calls, worlds) && calls != []
    ensures var n := |calls| - 1; Run(calls[..n], worlds[..n + 1]) && Step(calls[n], worlds[n], worlds[n + 1])
  {
    var n := |calls| - 1;
    forall i | 0 <= i < n ensures Step(calls[..n][i], worlds[..n + 1][i], worlds[..n + 1][i + 1]) {
      assert Step(calls[i], worlds[i], worlds[i + 1]);
    }
  }

  // ---------------------------------------------------------------- one call

  /** The effects of a termination whose check went through. */
  ghost predicate Appends(d: Deps, before: World, after: World, term: Termination) {
    && after.table == before.table + (if d.faults.commit then [] else [RowOf(term)])
    && after.trace == before.trace + Effects(d, term)
  }

  /** The termination that a call carried out: checked, recorded unless its commit failed,
      tracked, and executed unless leashed. */
  ghost predicate Carried(c: Call, before: World, after: World, term: Termination) {
    && GatesOpen(c.d, c.group) && c.d.location.Ok? && Sane(c.d.location.value)
    && Picks(c.d, c.group, term.instance)
    && term.time == c.d.now && term.leashed == c.d.leashed.value
    && Accepts(before.table, term, c.d.config(c.group.app).value, c.d.endHour, c.d.location.value, c.d.faults)
    && Appends(c.d, before, after, term)
  }

  lemma CallCarriesAtMostOne(c: Call, before: World, after: World)
    requires Step(c, before, after)
    ensures after == before || exists term :: Carried(c, before, after, term)
  {
    var r :| Terminates(c.d, c.group, before, after, r);
    if after != before {
      var i :| Picks(c.d, c.group, i) && AttemptOn(c.d, c.group, i, before, after, r);
      assert Carried(c, before, after, Termination(i, c.d.now, c.d.leashed.value));
    }
  }

  lemma CallAppendsAtMostOne(c: Call, before: World, after: World)
    requires Step(c, before, after)
    ensures after == before || exists term :: Appends(c.d, before, after, term)
  {
    CallCarriesAtMostOne(c, before, after);
  }

  lemma {:induction false} TrackEventsAreTracked(term: Termination, trackers: seq<bool>)
    ensures forall i :: 0 <= i < |TrackEvents(term, trackers)| ==>
              TrackEvents(term, trackers)[i].Tracked? && TrackEvents(term, trackers)[i].term == term
    decreases |trackers|
  {
    if trackers != [] { TrackEventsAreTracked(term, trackers[..|trackers| - 1]); }
  }

  lemma KillComesLast(d: Deps, before: World, after: World, term: Termination, p: nat)
    requires Appends(d, before, after, term)
    requires |before.trace| <= p < |after.trace| && after.trace[p].Killed?
    ensures before.trace <= after.trace && p == |after.trace| - 1
    ensures after.trace[p].term == term && !term.leashed && AllWork(d.trackers)
  {
    TrackEventsAreTracked(term, d.trackers);
    assert after.trace[p] == Effects(d, term)[p - |before.trace|];
  }

  /** The eligible instance of a group belongs to the group. */
  lemma PickedIsInGroup(d: Deps, group: Group, i: Instance)
    requires Picks(d, group, i)
    ensures i.app == group.app && i.account == group.account
    ensures Contains(d.parse, group, i.account, i.region, i.cluster)
    ensures !IsNeverEligible(i.cluster)
  {
    EligibleExactly(d.parse, group, d.config(group.app).value.exceptions, d.deployment, i);
    NeverEligibleIff(i.cluster);
  }

  /** A call kills at most one instance, as its last effect, and only when it is not leashed,
      every gate is open, every tracker worked and the instance is an eligible one of the group. */
  lemma OneGatedKillPerCall(c: Call, before: World, after: World, p: nat)
    requires Step(c, before, after)
    requires |before.trace| <= p < |after.trace| && after.trace[p].Killed?
    ensures before.trace <= after.trace && p == |after.trace| - 1
    ensures GatesOpen(c.d, c.group) && c.d.leashed.Ok? && !c.d.leashed.value && !c.d.inTest && AllWork(c.d.trackers)
    ensures var i := after.trace[p].term.instance;
            && Picks(c.d, c.group, i)
            && after.trace[p].term == Termination(i, c.d.now, false)
            && Contains(c.d.parse, c.group, i.account, i.region, i.cluster)
  {
    CallCarriesAtMostOne(c, before, after);
    var term :| Carried(c, before, after, term);
    PickedIsInGroup(c.d, c.group, term.instance);
    KillComesLast(c.d, before, after, term, p);
  }

  /** A call that kills leaves a row in the table exactly when its commit works; Check returns no
      error when it does not. */
  lemma KillIsInTableIff(c: Call, before: World, after: World, p: nat)
    requires Step(c, before, after)
    requires |before.trace| <= p < |after.trace| && after.trace[p].Killed?
    ensures after.table == before.table + if c.d.faults.commit then [] else [RowOf(after.trace[p].term)]
    ensures RowOf(after.trace[p].term) in after.table[|before.table|..] <==> !c.d.faults.commit
  {
    CallAppendsAtMostOne(c, before, after);
    var term :| Appends(c.d, before, after, term);
    KillComesLast(c.d, before, after, term, p);
  }

  // ---------------------------------------------------------------- records before kills

  /** Event q is the record of the kill at p, and only trackers were called between them. */
  ghost predicate RecordOf(trace: seq<Event>, q: nat, p: nat)
    requires q < p < |trace| && trace[p].Killed?
  {
    && trace[q] == Recorded(RowOf(trace[p].term))
    && (forall m :: q < m < p ==> trace[m].Tracked? && trace[m].term == trace[p].term)
  }

  ghost predicate KillsAreRecorded(trace: seq<Event>) {
    forall p :: 0 <= p < |trace| && trace[p].Killed? ==> exists q :: 0 <= q < p && RecordOf(trace, q, p)
  }

  lemma EffectsStayRecorded(d: Deps, term: Termination, trace: seq<Event>)
    requires !d.faults.commit && KillsAreRecorded(trace)
    ensures KillsAreRecorded(trace + Effects(d, term))
  {
    var t := trace + Effects(d, term);
    TrackEventsAreTracked(term, d.trackers);
    forall p | 0 <= p < |t| && t[p].Killed? ensures exists q :: 0 <= q < p && RecordOf(t, q, p) {
      if p < |trace| {
        assert trace[p].Killed?;
        var q :| 0 <= q < p && RecordOf(trace, q, p);
        assert RecordOf(t, q, p);
      } else {
        assert t[p] == Effects(d, term)[p - |trace|];
        assert RecordOf(t, |trace|, p);
      }
    }
  }

  /** The rows recorded in a trace, in order. */
  ghost function Records(trace: seq<Event>): seq<Row> {
    if trace == [] then []
    else
      var last := trace[|trace| - 1];
      Records(trace[..|trace| - 1]) + if last.Recorded? then [last.row] else []
  }

  lemma {:induction false} RecordsConcat(a: seq<Event>, b: seq<Event>)
    ensures Records(a + b) == Records(a) + Records(b)
    decreases |b|
  {
    if b == [] {
      assert a + b == a;
    } else {
      assert (a + b)[..|a + b| - 1] == a + b[..|b| - 1];
      RecordsConcat(a, b[..|b| - 1]);
    }
  }

  lemma {:induction false} NoRecords(trace: seq<Event>)
    requires forall i :: 0 <= i < |trace| ==> !trace[i].Recorded?
    ensures Records(trace) == []
    decreases |trace|
  {
    if trace != [] { NoRecords(trace[..|trace| - 1]); }
  }

  lemma EffectsRecordOnce(d: Deps, term: Termination)
    ensures Records(Effects(d, term)) == if d.faults.commit then [] else [RowOf(term)]
  {
    var first := if d.faults.commit then [] else [Recorded(RowOf(term))];
    var rest := TrackEvents(term, d.trackers) + if AllWork(d.trackers) && !term.leashed then [Killed(term)] else [];
    TrackEventsAreTracked(term, d.trackers);
    assert Effects(d, term) == first + rest;
    RecordsConcat(first, rest);
    NoRecords(rest);
    if !d.faults.commit {
      assert Records(first[..0]) == [];
    }
  }

  lemma AppendStaysRecorded(d: Deps, before: World, after: World, term: Termination, initial: seq<Row>)
    requires Appends(d, before, after, term) && !d.faults.commit
    requires KillsAreRecorded(before.trace) && before.table == initial + Records(before.trace)
    ensures KillsAreRecorded(after.trace) && after.table == initial + Records(after.trace)
  {
    EffectsStayRecorded(d, term, before.trace);
    EffectsRecordOnce(d, term);
    RecordsConcat(before.trace, Effects(d, term));
  }

  lemma CallStaysRecorded(c: Call, before: World, after: World, initial: seq<Row>)
    requires Step(c, before, after) && !c.d.faults.commit
    requires KillsAreRecorded(before.trace) && before.table == initial + Records(before.trace)
    ensures KillsAreRecorded(after.trace) && after.table == initial + Records(after.trace)
  {
    CallAppendsAtMostOne(c, before, after);
    if after != before {
      var term :| Appends(c.d, before, after, term);
      AppendStaysRecorded(c.d, before, after, term, initial);
    }
  }

  /** Over any run whose commits work, the table is what it was and the recorded rows, and every
      kill comes after its own recorded row with nothing but tracker calls in between. */
  lemma {:induction false} EveryKillHasItsOwnRow(calls: seq<Call>, worlds: seq<World>)
    requires Run(calls, worlds)
    requires forall i :: 0 <= i < |calls| ==> !calls[i].d.faults.commit
    ensures var last := worlds[|calls|];
            KillsAreRecorded(last.trace) && last.table == worlds[0].table + Records(last.trace)
    decreases |calls|
  {
    if calls != [] {
      var n := |calls| - 1;
      RunPrefix(calls, worlds);
      EveryKillHasItsOwnRow(calls[..n], worlds[..n + 1]);
      CallStaysRecorded(calls[n], worlds[n], worlds[n + 1], worlds[0].table);
    }
  }

  // ---------------------------------------------------------------- spacing

  /** The settings that stay the same over a run. */
  datatype Rule = Rule(cfg: string -> AppConfig, endHour: int, zone: Zone)

  ghost predicate Regular(rule: Rule) {
    Sane(rule.zone) && WorkdaysLast24Hours(rule.zone) && 0 <= rule.endHour <= 24
  }

  ghost predicate Follows(c: Call, rule: Rule) {
    && (c.d.config(c.group.app).Ok? ==> c.d.config(c.group.app).value == rule.cfg(c.group.app))
    && c.d.endHour == rule.endHour
    && (c.d.location.Ok? ==> c.d.location.value == rule.zone)
    && !c.d.faults.fetch
  }

  function TermOfRow(r: Row): Termination {
    Termination(Instance(r.app, r.account, r.region, r.stack, r.cluster, r.asg, r.instanceId, ""), r.killedAt, r.leashed)
  }

  /** A row keeps all of the termination but the cloud provider. */
  lemma RowKeepsTermination(term: Termination)
    ensures TermOfRow(RowOf(term)) == term.(instance := term.instance.(cloudProvider := ""))
    ensures var r, i := RowOf(term), term.instance;
            && r.app == i.app && r.account == i.account && r.stack == i.stack && r.cluster == i.cluster && r.region == i.region
            && r.asg == i.asg && r.instanceId == i.id && r.killedAt == term.time && r.leashed == term.leashed
  {
  }

  /** Row r would not have been let through had it been asked for with `earlier` in the table. */
  ghost predicate StandsInTheWay(earlier: Row, r: Row, rule: Rule)
    requires Sane(rule.zone)
  {
    var q := QueryFor(TermOfRow(r), rule.cfg(r.app), rule.endHour, rule.zone);
    q.Err? || Selects(q.value, earlier)
  }

  /** From row `from` on, no row is in the way of a later one. */
  ghost predicate Spaced(table: seq<Row>, from: nat, rule: Rule)
    requires Sane(rule.zone)
  {
    forall i, j :: 0 <= i < j < |table| && from <= j ==> !StandsInTheWay(table[i], table[j], rule)
  }

  lemma AcceptedRowIsClear(c: Call, before: World, after: World, term: Termination, rule: Rule)
    requires Regular(rule) && Follows(c, rule) && Carried(c, before, after, term)
    ensures forall i :: 0 <= i < |before.table| ==> !StandsInTheWay(before.table[i], RowOf(term), rule)
  {
    PickedIsInGroup(c.d, c.group, term.instance);
    var cfg := rule.cfg(term.instance.app);
    assert QueryFor(TermOfRow(RowOf(term)), cfg, rule.endHour, rule.zone) == QueryFor(term, cfg, rule.endHour, rule.zone);
  }

  lemma {:induction false} RunStaysSpaced(calls: seq<Call>, worlds: seq<World>, rule: Rule)
    requires Run(calls, worlds) && Regular(rule)
    requires forall i :: 0 <= i < |calls| ==> Follows(calls[i], rule)
    ensures Spaced(worlds[|calls|].table, |worlds[0].table|, rule)
    decreases |calls|
  {
    if calls != [] {
      var n := |calls| - 1;
      RunPrefix(calls, worlds);
      RunStaysSpaced(calls[..n], worlds[..n + 1], rule);
      CallCarriesAtMostOne(calls[n], worlds[n], worlds[n + 1]);
      if worlds[n + 1] != worlds[n] {
        var term :| Carried(calls[n], worlds[n], worlds[n + 1], term);
        AcceptedRowIsClear(calls[n], worlds[n], worlds[n + 1], term, rule);
      }
    }
  }

  lemma CallKeepsTable(c: Call, before: World, after: World)
    requires Step(c, before, after)
    ensures before.table <= after.table && before.trace <= after.trace
  {
    CallAppendsAtMostOne(c, before, after);
  }

  lemma {:induction false} RunKeepsWorld(calls: seq<Call>, worlds: seq<World>, i: nat, j: nat)
    requires Run(calls, worlds) && i <= j <= |calls|
    ensures worlds[i].table <= worlds[j].table && worlds[i].trace <= worlds[j].trace
    decreases j
  {
    if i < j {
      RunKeepsWorld(calls, worlds, i, j - 1);
      CallKeepsTable(calls[j - 1], worlds[j - 1], worlds[j]);
    }
  }

  /** Call k carried out the termination. */
  ghost predicate Carries(calls: seq<Call>, worlds: seq<World>, k: nat, term: Termination)
    requires Run(calls, worlds)
  {
    k < |calls| && Carried(calls[k], worlds[k], worlds[k + 1], term)
  }

  /** Whatever else fails in a run: a termination whose commit worked keeps a later one of the same
      key away, under the configuration of the later call, if that call's read worked. An
      unleashed termination ignores leashed ones. */
  lemma TerminationsAreSpaced(calls: seq<Call>, worlds: seq<World>, k: nat, k': nat, first: Termination, second: Termination)
    requires Run(calls, worlds) && k < k'
    requires Carries(calls, worlds, k, first) && !calls[k].d.faults.commit
    requires Carries(calls, worlds, k', second) && !calls[k'].d.faults.fetch
    requires WorkdaysLast24Hours(calls[k'].d.location.value) && 0 <= calls[k'].d.endHour <= 24
    requires var cfg := calls[k'].d.config(calls[k'].group.app).value;
             InstanceKey(cfg, first.instance) == InstanceKey(cfg, second.instance)
    requires first.leashed ==> second.leashed
    ensures var cfg, zone := calls[k'].d.config(calls[k'].group.app).value, calls[k'].d.location.value;
            && zone.dayOf(first.time) <= zone.dayOf(second.time)
            && cfg.minTime <= WorkDays(zone.dayOf(first.time), zone.dayOf(second.time))
  {
    var d, table := calls[k'].d, worlds[k'].table;
    var n := |worlds[k].table|;
    RunKeepsWorld(calls, worlds, k + 1, k');
    assert worlds[k + 1].table[n] == table[n] == RowOf(first);
    NotSelectedIsSpaced(second, d.config(calls[k'].group.app).value, d.endHour, d.location.value, table[n]);
  }

  /** Event p of a run is a kill by call k. */
  ghost predicate KillsAt(calls: seq<Call>, worlds: seq<World>, k: nat, p: nat)
    requires Run(calls, worlds)
  {
    k < |calls| && |worlds[k].trace| <= p < |worlds[k + 1].trace| && worlds[k + 1].trace[p].Killed?
  }

  lemma {:induction false} CallOfKill(calls: seq<Call>, worlds: seq<World>, m: nat, p: nat) returns (k: nat)
    requires Run(calls, worlds) && m <= |calls| && p < |worlds[m].trace| && worlds[m].trace[p].Killed?
    ensures k < m && KillsAt(calls, worlds, k, p)
    decreases m
  {
    k := m - 1;
    CallKeepsTable(calls[k], worlds[k], worlds[m]);
    if p < |worlds[k].trace| {
      k := CallOfKill(calls, worlds, k, p);
    }
  }

  /** Every kill of a run was made by exactly one of its calls. */
  lemma EveryKillHasItsCall(calls: seq<Call>, worlds: seq<World>, p: nat) returns (k: nat)
    requires Run(calls, worlds) && p < |worlds[|calls|].trace| && worlds[|calls|].trace[p].Killed?
    ensures KillsAt(calls, worlds, k, p)
    ensures forall l :: KillsAt(calls, worlds, l, p) ==> l == k
  {
    k := CallOfKill(calls, worlds, |calls|, p);
    forall l | KillsAt(calls, worlds, l, p) ensures l == k {
      OneCallAt(calls, worlds, k, l, p);
    }
  }

  lemma TraceOnlyGrows(calls: seq<Call>, worlds: seq<World>, i: nat, j: nat)
    requires Run(calls, worlds) && i <= j <= |calls|
    ensures |worlds[i].trace| <= |worlds[j].trace|
  {
    RunKeepsWorld(calls, worlds, i, j);
  }

  /** An earlier call's events come earlier. */
  lemma CallsInOrder(calls: seq<Call>, worlds: seq<World>, k: nat, l: nat, p: nat, q: nat)
    requires Run(calls, worlds) && KillsAt(calls, worlds, k, p) && KillsAt(calls, worlds, l, q) && k < l
    ensures p < q
  {
    TraceOnlyGrows(calls, worlds, k + 1, l);
  }

  lemma OneCallAt(calls: seq<Call>, worlds: seq<World>, k: nat, l: nat, p: nat)
    requires Run(calls, worlds) && KillsAt(calls, worlds, k, p) && KillsAt(calls, worlds, l, p)
    ensures k == l
  {
    if l < k {
      CallsInOrder(calls, worlds, l, k, p, p);
    } else if k < l {
      CallsInOrder(calls, worlds, k, l, p, p);
    }
  }

  lemma KillCarries(calls: seq<Call>, worlds: seq<World>, k: nat, p: nat)
    requires Run(calls, worlds) && KillsAt(calls, worlds, k, p)
    ensures p < |worlds[|calls|].trace| && worlds[|calls|].trace[p] == worlds[k + 1].trace[p]
    ensures Carries(calls, worlds, k, worlds[k + 1].trace[p].term) && !worlds[k + 1].trace[p].term.leashed
  {
    RunKeepsWorld(calls, worlds, k + 1, |calls|);
    CallCarriesAtMostOne(calls[k], worlds[k], worlds[k + 1]);
    var term :| Carried(calls[k], worlds[k], worlds[k + 1], term);
    KillComesLast(calls[k].d, worlds[k], worlds[k + 1], term, p);
  }

  /** Of two real kills of a run with the same key, the first recorded by a commit that worked and
      the second let through by a read that worked, the dates are in order and at least the
      minimum number of work days apart, whatever fails elsewhere in the run. */
  lemma KillsAreSpaced(calls: seq<Call>, worlds: seq<World>, k: nat, k': nat, p: nat, p': nat)
    requires Run(calls, worlds) && KillsAt(calls, worlds, k, p) && KillsAt(calls, worlds, k', p') && p < p'
    requires !calls[k].d.faults.commit && !calls[k'].d.faults.fetch
    requires calls[k'].d.location.Ok? ==> WorkdaysLast24Hours(calls[k'].d.location.value) && 0 <= calls[k'].d.endHour <= 24
    requires var c := calls[k'];
             c.d.config(c.group.app).Ok? ==>
               InstanceKey(c.d.config(c.group.app).value, worlds[k + 1].trace[p].term.instance)
               == InstanceKey(c.d.config(c.group.app).value, worlds[k' + 1].trace[p'].term.instance)
    ensures p' < |worlds[|calls|].trace| && worlds[|calls|].trace[p].Killed? && worlds[|calls|].trace[p'].Killed?
    ensures calls[k'].d.location.Ok? && calls[k'].d.config(calls[k'].group.app).Ok?
    ensures var zone, cfg := calls[k'].d.location.value, calls[k'].d.config(calls[k'].group.app).value;
            var first, second := worlds[|calls|].trace[p].term, worlds[|calls|].trace[p'].term;
            && zone.dayOf(first.time) <= zone.dayOf(second.time)
            && cfg.minTime <= WorkDays(zone.dayOf(first.time), zone.dayOf(second.time))
  {
    KillCarries(calls, worlds, k, p);
    KillCarries(calls, worlds, k', p');
    KillsInOrder(calls, worlds, k, k', p, p');
    TerminationsAreSpaced(calls, worlds, k, k', worlds[k + 1].trace[p].term, worlds[k' + 1].trace[p'].term);
  }

  lemma KillIsLast(c: Call, before: World, after: World, p: nat)
    requires Step(c, before, after) && |before.trace| <= p < |after.trace| && after.trace[p].Killed?
    ensures p == |after.trace| - 1
  {
    CallAppendsAtMostOne(c, before, after);
    var term :| Appends(c.d, before, after, term);
    KillComesLast(c.d, before, after, term, p);
  }

  lemma KillIsLastAt(calls: seq<Call>, worlds: seq<World>, k: nat, p: nat)
    requires Run(calls, worlds) && KillsAt(calls, worlds, k, p)
    ensures p == |worlds[k + 1].trace| - 1
  {
    KillIsLast(calls[k], worlds[k], worlds[k + 1], p);
  }

  /** No kill of the same or an earlier call comes later. */
  lemma NoLaterKill(calls: seq<Call>, worlds: seq<World>, k: nat, l: nat, p: nat, q: nat)
    requires Run(calls, worlds) && KillsAt(calls, worlds, k, p) && KillsAt(calls, worlds, l, q) && k <= l
    ensures p <= q
  {
    if k < l {
      CallsInOrder(calls, worlds, k, l, p, q);
    } else {
      KillIsLastAt(calls, worlds, k, q);
    }
  }

  lemma KillsInOrder(calls: seq<Call>, worlds: seq<World>, k: nat, k': nat, p: nat, p': nat)
    requires Run(calls, worlds) && KillsAt(calls, worlds, k, p) && KillsAt(calls, worlds, k', p') && p < p'
    ensures k < k'
  {
    if k' <= k { NoLaterKill(calls, worlds, k', k, p', p); }
  }

  lemma CallKeepsTrace(c: Call, before: World, after: World, p: nat)
    requires Step(c, before, after) && p < |before.trace|
    ensures p < |after.trace| && after.trace[p] == before.trace[p]
  {
    CallAppendsAtMostOne(c, before, after);
  }

  lemma {:induction false} KillsAreUnleashed(calls: seq<Call>, worlds: seq<World>, p: nat)
    requires Run(calls, worlds)
    requires p < |worlds[|calls|].trace| && worlds[|calls|].trace[p].Killed?
    ensures !worlds[|calls|].trace[p].term.leashed
    ensures exists k :: 0 <= k < |calls| && KilledBy(calls[k], worlds[|calls|].trace[p].term)
    decreases |calls|
  {
    var n := |calls| - 1;
    RunPrefix(calls, worlds);
    if p < |worlds[n].trace| {
      CallKeepsTrace(calls[n], worlds[n], worlds[n + 1], p);
      KillsAreUnleashed(calls[..n], worlds[..n + 1], p);
      var k :| 0 <= k < n && KilledBy(calls[..n][k], worlds[n].trace[p].term);
      assert KilledBy(calls[k], worlds[n + 1].trace[p].term);
    } else {
      OneGatedKillPerCall(calls[n], worlds[n], worlds[n + 1], p);
      assert KilledBy(calls[n], worlds[n + 1].trace[p].term);
    }
  }

  /** The call has every gate open and picked the instance that the termination names. */
  ghost predicate KilledBy(c: Call, term: Termination) {
    && GatesOpen(c.d, c.group) && !c.d.leashed.value && !c.d.inTest
    && Picks(c.d, c.group, term.instance)
    && Contains(c.d.parse, c.group, term.instance.account, term.instance.region, term.instance.cluster)
    && term == Termination(term.instance, c.d.now, false)
  }

  // ---------------------------------------------------------------- the two faults matter

  /** Nothing keeps the call from killing the instance: on the given table it does. */
  ghost predicate WouldKill(d: Deps, group: Group, i: Instance, table: seq<Row>) {
    && GatesOpen(d, group) && !d.leashed.value
    && d.location.Ok? && Sane(d.location.value)
    && Picks(d, group, i)
    && AllWork(d.trackers) && d.terminatorWorks
    && Accepts(table, TermOf(d, i), d.config(group.app).value, d.endHour, d.location.value, d.faults)
  }

  /** The real termination of the instance. */
  function TermOf(d: Deps, i: Instance): Termination {
    Termination(i, d.now, false)
  }

  ghost function RowsOf(d: Deps, i: Instance): seq<Row> {
    if d.faults.commit then [] else [RowOf(TermOf(d, i))]
  }

  /** The world after a call that kills. */
  ghost function AfterKill(d: Deps, i: Instance, before: World): World {
    World(before.table + RowsOf(d, i), before.trace + Effects(d, TermOf(d, i)))
  }

  lemma KillingStep(d: Deps, group: Group, i: Instance, before: World)
    requires WouldKill(d, group, i, before.table)
    ensures Step(Call(d, group), before, AfterKill(d, i, before))
    ensures Carried(Call(d, group), before, AfterKill(d, i, before), TermOf(d, i))
  {
    assert AttemptOn(d, group, i, before, AfterKill(d, i, before), Ok(()));
    assert Terminates(d, group, before, AfterKill(d, i, before), Ok(()));
  }

  lemma TwoStepsRun(a: Call, b: Call, w0: World, w1: World, w2: World)
    requires w0.trace == [] && Step(a, w0, w1) && Step(b, w1, w2)
    ensures Run([a, b], [w0, w1, w2])
  {
    var calls, worlds := [a, b], [w0, w1, w2];
    forall k | 0 <= k < |calls| ensures Step(calls[k], worlds[k], worlds[k + 1]) {
      if k == 0 { assert calls[k] == a; } else { assert calls[k] == b; }
    }
  }

  /** From the table, both calls carry out their terminations, the first one first. */
  ghost predicate BothCarry(table: seq<Row>, a: Call, first: Termination, b: Call, second: Termination, worlds: seq<World>) {
    && Run([a, b], worlds) && worlds[0].table == table
    && Carries([a, b], worlds, 0, first) && Carries([a, b], worlds, 1, second)
  }

  /** The query of the call selects the row of an earlier termination. */
  ghost predicate StandsBefore(d: Deps, group: Group, i: Instance, earlier: Termination)
    requires d.location.Ok? && Sane(d.location.value) && d.config(group.app).Ok?
  {
    var q := QueryFor(TermOf(d, i), d.config(group.app).value, d.endHour, d.location.value);
    q.Ok? && Selects(q.value, RowOf(earlier))
  }

  lemma SecondAccepts(b: Deps, h: Group, j: Instance, table: seq<Row>, rows: seq<Row>, earlier: Termination)
    requires WouldKill(b, h, j, table) && (rows == [] || rows == [RowOf(earlier)])
    requires rows == [] || b.faults.fetch || !StandsBefore(b, h, j, earlier)
    ensures WouldKill(b, h, j, table + rows)
  {
    assert rows == [] ==> table + rows == table;
  }

  lemma SecondRefuses(a: Call, b: Deps, h: Group, j: Instance, before: World, after: World, earlier: Termination, last: World)
    requires Carried(a, before, after, earlier) && !a.d.faults.commit
    requires b.location.Ok? && Sane(b.location.value) && b.config(h.app).Ok?
    requires StandsBefore(b, h, j, earlier) && !b.faults.fetch
    ensures !Carried(Call(b, h), after, last, TermOf(b, j))
  {
    assert after.table[|before.table|] == RowOf(earlier);
  }

  /** For any two calls each of which alone would kill: both can be carried out one after the other
      exactly when the first one's commit fails, or the second one's read fails, or the second
      one's query does not select the row of the first. */
  lemma BothKillIff(table: seq<Row>, a: Deps, g: Group, i: Instance, b: Deps, h: Group, j: Instance)
    requires WouldKill(a, g, i, table) && WouldKill(b, h, j, table)
    ensures (exists worlds :: BothCarry(table, Call(a, g), TermOf(a, i), Call(b, h), TermOf(b, j), worlds))
       <==> a.faults.commit || b.faults.fetch || !StandsBefore(b, h, j, TermOf(a, i))
  {
    if a.faults.commit || b.faults.fetch || !StandsBefore(b, h, j, TermOf(a, i)) {
      BothKill(table, a, g, i, b, h, j);
    } else if exists worlds :: BothCarry(table, Call(a, g), TermOf(a, i), Call(b, h), TermOf(b, j), worlds) {
      var worlds :| BothCarry(table, Call(a, g), TermOf(a, i), Call(b, h), TermOf(b, j), worlds);
      SecondRefuses(Call(a, g), b, h, j, worlds[0], worlds[1], TermOf(a, i), worlds[2]);
    }
  }

  lemma BothKill(table: seq<Row>, a: Deps, g: Group, i: Instance, b: Deps, h: Group, j: Instance)
    requires WouldKill(a, g, i, table) && WouldKill(b, h, j, table)
    requires a.faults.commit || b.faults.fetch || !StandsBefore(b, h, j, TermOf(a, i))
    ensures var w0 := World(table, []);
            var worlds := [w0, AfterKill(a, i, w0), AfterKill(b, j, AfterKill(a, i, w0))];
            BothCarry(table, Call(a, g), TermOf(a, i), Call(b, h), TermOf(b, j), worlds)
  {
    var w0 := World(table, []);
    var w1 := AfterKill(a, i, w0);
    KillingStep(a, g, i, w0);
    SecondAccepts(b, h, j, table, RowsOf(a, i), TermOf(a, i));
    KillingStep(b, h, j, w1);
    TwoStepsRun(Call(a, g), Call(b, h), w0, w1, AfterKill(b, j, w1));
  }

  /** Some run of the calls, from the table, ends with the trace. */
  ghost predicate RunsTo(table: seq<Row>, calls: seq<Call>, trace: seq<Event>) {
    exists worlds: seq<World> :: Run(calls, worlds) && worlds[0].table == table && worlds[|calls|].trace == trace
  }

  lemma BothKillsRunTo(table: seq<Row>, a: Deps, g: Group, i: Instance, b: Deps, h: Group, j: Instance)
    requires WouldKill(a, g, i, table) && WouldKill(b, h, j, table)
    requires a.faults.commit || b.faults.fetch || !StandsBefore(b, h, j, TermOf(a, i))
    ensures RunsTo(table, [Call(a, g), Call(b, h)], Effects(a, TermOf(a, i)) + Effects(b, TermOf(b, j)))
  {
    BothKill(table, a, g, i, b, h, j);
    var w0 := World(table, []);
    var w1 := AfterKill(a, i, w0);
    EndsWith(table, Call(a, g), Call(b, h), w0, w1, AfterKill(b, j, w1));
    assert [] + Effects(a, TermOf(a, i)) == Effects(a, TermOf(a, i));
  }

  lemma EndsWith(table: seq<Row>, a: Call, b: Call, w0: World, w1: World, w2: World)
    requires Run([a, b], [w0, w1, w2]) && w0.table == table
    ensures RunsTo(table, [a, b], w2.trace)
  {
    var worlds := [w0, w1, w2];
    assert worlds[0] == w0 && worlds[|[a, b]|] == w2;
  }

  /** After a failed commit any second call that would have killed at first still kills. */
  lemma FailedCommitLetsTwoThrough(table: seq<Row>, a: Deps, g: Group, i: Instance, b: Deps, h: Group, j: Instance)
    requires WouldKill(a, g, i, table) && WouldKill(b, h, j, table)
    ensures var faulty := a.(faults := a.faults.(commit := true));
            RunsTo(table, [Call(faulty, g), Call(b, h)], Effects(faulty, TermOf(a, i)) + Effects(b, TermOf(b, j)))
  {
    BothKillsRunTo(table, a.(faults := a.faults.(commit := true)), g, i, b, h, j);
  }

  /** When the second read fails, the row of the first kill is not seen. */
  lemma FailedReadLetsTwoThrough(table: seq<Row>, a: Deps, g: Group, i: Instance, b: Deps, h: Group, j: Instance)
    requires WouldKill(a, g, i, table) && WouldKill(b, h, j, table)
    ensures var faulty := b.(faults := b.faults.(fetch := true));
            RunsTo(table, [Call(a, g), Call(faulty, h)], Effects(a, TermOf(a, i)) + Effects(faulty, TermOf(b, j)))
  {
    BothKillsRunTo(table, a, g, i, b.(faults := b.faults.(fetch := true)), h, j);
  }

  /** One instance in one region; everything works and every gate is open. The time is noon. */
  function SampleDeps(): Deps {
    Deps(Ok(true), Ok(false), account => Ok(true), Ok(false), false,
         app => Ok(AppConfig(true, false, 1, 1, ByApp, [], None)),
         name => Some(Names("app", "stack", "")),
         Deployment(account => Ok("aws"), (app, account) => Ok(["cluster"]), (app, account, cluster) => Ok(["region"]),
                    (app, account, provider, region, cluster) => Ok(("asg", ["id"]))),
         Ok(FixedZone(0)), 15, 12 * HOUR, [], true, CheckFaults(false, false, false, false, false, false))
  }

  lemma SampleWouldKill()
    ensures WouldKill(SampleDeps(), Group("app", "account", "", "", ""),
                      Instance("app", "account", "region", "stack", "cluster", "asg", "id", "aws"), [])
  {
    var d, g := SampleDeps(), Group("app", "account", "", "", "");
    var i := Instance("app", "account", "region", "stack", "cluster", "asg", "id", "aws");
    FixedZoneIsRegular(0);
    assert Answers(d.parse, g, [], d.deployment);
    EligibleExactly(d.parse, g, [], d.deployment, i);
    TargetedIff(d.parse, g, [], "cluster", "region");
    assert ["cluster"][0] == "cluster" && ["region"][0] == "region" && ["id"][0] == "id";
  }

  /** So there is a run of two calls, the first one's commit or the second one's read having failed,
      that kills one instance twice at one time, although a work day should lie between; and none
      in which neither failed. */
  lemma SpacingNeedsCommitAndRead(d: Deps, group: Group, term: Termination)
    requires d == SampleDeps() && group == Group("app", "account", "", "", "")
    requires term == Termination(Instance("app", "account", "region", "stack", "cluster", "asg", "id", "aws"), d.now, false)
    ensures d.config(group.app).value.minTime == 1
    ensures RunsTo([], [Call(d.(faults := d.faults.(commit := true)), group), Call(d, group)],
                   [Killed(term), Recorded(RowOf(term)), Killed(term)])
    ensures RunsTo([], [Call(d, group), Call(d.(faults := d.faults.(fetch := true)), group)],
                   [Recorded(RowOf(term)), Killed(term), Recorded(RowOf(term)), Killed(term)])
    ensures !exists worlds :: BothCarry([], Call(d, group), term, Call(d, group), term, worlds)
  {
    var i := term.instance;
    SampleWouldKill();
    FailedCommitLetsTwoThrough([], d, group, i, d, group, i);
    FailedReadLetsTwoThrough([], d, group, i, d, group, i);
    var lost, blind := d.(faults := d.faults.(commit := true)), d.(faults := d.faults.(fetch := true));
    assert Effects(lost, term) == [Killed(term)];
    assert Effects(d, term) == Effects(blind, term) == [Recorded(RowOf(term)), Killed(term)];
    BothKillIff([], d, group, i, d, group, i);
    SampleStandsBefore();
  }

  lemma SampleStandsBefore()
    ensures var i := Instance("app", "account", "region", "stack", "cluster", "asg", "id", "aws");
            && SampleDeps().location.Ok? && Sane(SampleDeps().location.value)
            && StandsBefore(SampleDeps(), Group("app", "account", "", "", ""), i, TermOf(SampleDeps(), i))
  {
    var d, group := SampleDeps(), Group("app", "account", "", "", "");
    var term := TermOf(d, Instance("app", "account", "region", "stack", "cluster", "asg", "id", "aws"));
    FixedZoneIsRegular(0);
    SelectsExactly(term, d.config(group.app).value, d.endHour, d.location.value, RowOf(term));
  }
}
