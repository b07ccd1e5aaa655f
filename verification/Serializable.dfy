/** Any number of transactions that read one predicate and, when it selects nothing, insert
    rows, interleaved step by step under the locks of the SERIALIZABLE isolation level
    (mysql/mysql.go:152-212, 243-297).

    A read keeps a shared lock on its predicate until the transaction ends, and waits for
    uncommitted rows of others that the predicate selects. An insert waits while the lock of
    another live transaction selects the row. A transaction may be rolled back at any point,
    as the victim of a deadlock or because a statement or the commit failed. */
module Serializable {

  /** What one transaction reads and what it inserts when the answer is empty. */
  datatype Script<Q, R> = Script(query: Q, rows: seq<R>)

  datatype System<!Q, !R> = System(selects: (Q, R) -> bool, initial: seq<R>, scripts: seq<Script<Q, R>>)

  datatype Phase =
    | Waiting                // not begun
    | Begun
    | Refusing               // the read found a row; the lock is still held
    | Inserting(done: nat)   // the read found nothing; `done` rows are inserted, uncommitted
    | Committed
    | Refused
    | RolledBack

  /** `log` lists the committed transactions in the order of their commits. */
  datatype State = State(phases: seq<Phase>, log: seq<nat>)

  datatype Step =
    | Begin(client: nat)
    | ReadNothing(client: nat)
    | ReadSomething(client: nat)
    | Insert(client: nat)
    | Commit(client: nat)
    | Refuse(client: nat)
    | Rollback(client: nat)

  ghost predicate SelectsNone<Q, R>(sys: System<Q, R>, q: Q, rows: seq<R>) {
    forall i :: 0 <= i < |rows| ==> !sys.selects(q, rows[i])
  }

  ghost predicate WellFormed<Q, R>(sys: System<Q, R>, s: State) {
    && |s.phases| == |sys.scripts|
    && (forall i :: 0 <= i < |s.log| ==> s.log[i] < |sys.scripts|)
    && (forall c :: 0 <= c < |s.phases| && s.phases[c].Inserting? ==> s.phases[c].done <= |sys.scripts[c].rows|)
  }

  /** The committed rows: what was there at the start, then transaction by transaction. */
  ghost function Table<Q, R>(sys: System<Q, R>, log: seq<nat>): seq<R>
    requires forall i :: 0 <= i < |log| ==> log[i] < |sys.scripts|
  {
    if log == [] then sys.initial
    else Table(sys, log[..|log| - 1]) + sys.scripts[log[|log| - 1]].rows
  }

  ghost function Uncommitted<Q, R>(sys: System<Q, R>, s: State, c: nat): seq<R>
    requires WellFormed(sys, s) && c < |s.phases|
  {
    if s.phases[c].Inserting? then sys.scripts[c].rows[..s.phases[c].done] else []
  }

  predicate HoldsLock(p: Phase) {
    p.Refusing? || p.Inserting?
  }

  predicate Live(p: Phase) {
    p.Begun? || p.Refusing? || p.Inserting?
  }

  ghost predicate Enabled<Q, R>(sys: System<Q, R>, s: State, step: Step)
    requires WellFormed(sys, s)
  {
    var c := step.client;
    c < |s.phases| &&
    match step
    case Begin(_) => s.phases[c].Waiting?
    case ReadNothing(_) =>
      && s.phases[c].Begun?
      && SelectsNone(sys, sys.scripts[c].query, Table(sys, s.log))
      && (forall o :: 0 <= o < |s.phases| && o != c ==> SelectsNone(sys, sys.scripts[c].query, Uncommitted(sys, s, o)))
    case ReadSomething(_) =>
      && s.phases[c].Begun?
      && !SelectsNone(sys, sys.scripts[c].query, Table(sys, s.log))
    case Insert(_) =>
      && s.phases[c].Inserting?
      && s.phases[c].done < |sys.scripts[c].rows|
      && (forall o :: 0 <= o < |s.phases| && o != c && HoldsLock(s.phases[o])
            ==> !sys.selects(sys.scripts[o].query, sys.scripts[c].rows[s.phases[c].done]))
    case Commit(_) => s.phases[c] == Inserting(|sys.scripts[c].rows|)
    case Refuse(_) => s.phases[c].Refusing?
    case Rollback(_) => Live(s.phases[c])
  }

  ghost function Apply(s: State, step: Step): State
    requires step.client < |s.phases|
    requires step.Insert? ==> s.phases[step.client].Inserting?
  {
    var c := step.client;
    match step
    case Begin(_) => s.(phases := s.phases[c := Begun])
    case ReadNothing(_) => s.(phases := s.phases[c := Inserting(0)])
    case ReadSomething(_) => s.(phases := s.phases[c := Refusing])
    case Insert(_) => s.(phases := s.phases[c := Inserting(s.phases[c].done + 1)])
    case Commit(_) => State(s.phases[c := Committed], s.log + [c])
    case Refuse(_) => s.(phases := s.phases[c := Refused])
    case Rollback(_) => s.(phases := s.phases[c := RolledBack])
  }

  ghost predicate Start<Q, R>(sys: System<Q, R>, s: State) {
    s.log == [] && |s.phases| == |sys.scripts| && forall c :: 0 <= c < |s.phases| ==> s.phases[c].Waiting?
  }

  /** s is reached from the start by the given steps, each enabled when it is taken. */
  ghost predicate Reaches<Q, R>(sys: System<Q, R>, steps: seq<Step>, s: State)
    decreases |steps|
  {
    if steps == [] then Start(sys, s)
    else
      var last := steps[|steps| - 1];
      exists before: State ::
        && Reaches(sys, steps[..|steps| - 1], before)
        && WellFormed(sys, before) && Enabled(sys, before, last) && s == Apply(before, last)
  }

  ghost predicate Reachable<Q, R>(sys: System<Q, R>, s: State) {
    exists steps :: Reaches(sys, steps, s)
  }

  /** Only the locks of transactions that have read keep an insert waiting, and a transaction that
      has begun and not ended can be rolled back at any point. */
  lemma NothingElseWaits<Q, R>(sys: System<Q, R>, s: State, c: nat)
    requires WellFormed(sys, s) && c < |s.phases|
    ensures s.phases[c].Begun? || s.phases[c].Refusing? || s.phases[c].Inserting? ==> Enabled(sys, s, Rollback(c))
    ensures (s.phases[c].Inserting? && s.phases[c].done < |sys.scripts[c].rows|
             && (forall o :: 0 <= o < |s.phases| && o != c ==>
                   (s.phases[o].Refusing? || s.phases[o].Inserting? ==>
                      !sys.selects(sys.scripts[o].query, sys.scripts[c].rows[s.phases[c].done])))) ==>
              Enabled(sys, s, Insert(c))
  {
  }

  // ---------------------------------------------------------------- the invariant

  ghost predicate PhasesFit<Q, R>(sys: System<Q, R>, s: State)
    requires WellFormed(sys, s)
  {
    && (forall c :: 0 <= c < |s.phases| ==> (s.phases[c].Committed? <==> c in s.log))
    && (forall i, j :: 0 <= i < j < |s.log| ==> s.log[i] != s.log[j])
  }

  /** What a transaction read stays true while it is inserting. */
  ghost predicate ReadsHold<Q, R>(sys: System<Q, R>, s: State)
    requires WellFormed(sys, s)
  {
    && (forall c :: 0 <= c < |s.phases| && s.phases[c].Inserting?
          ==> SelectsNone(sys, sys.scripts[c].query, Table(sys, s.log)))
    && (forall c :: 0 <= c < |s.phases| && (s.phases[c].Refusing? || s.phases[c].Refused?)
          ==> !SelectsNone(sys, sys.scripts[c].query, Table(sys, s.log)))
    && (forall c, o :: 0 <= c < |s.phases| && 0 <= o < |s.phases| && c != o && s.phases[c].Inserting?
          ==> SelectsNone(sys, sys.scripts[c].query, Uncommitted(sys, s, o)))
  }

  /** No transaction's query selects a row committed before it. */
  ghost predicate Serial<Q, R>(sys: System<Q, R>, log: seq<nat>)
    requires forall i :: 0 <= i < |log| ==> log[i] < |sys.scripts|
  {
    forall j :: 0 <= j < |log| ==> SelectsNone(sys, sys.scripts[log[j]].query, Table(sys, log[..j]))
  }

  ghost predicate Inv<Q, R>(sys: System<Q, R>, s: State) {
    WellFormed(sys, s) && PhasesFit(sys, s) && ReadsHold(sys, s) && Serial(sys, s.log)
  }

  lemma CommitAddsRows<Q, R>(sys: System<Q, R>, s: State, c: nat)
    requires WellFormed(sys, s) && c < |s.phases| && s.phases[c] == Inserting(|sys.scripts[c].rows|)
    ensures var t := Apply(s, Commit(c));
            && WellFormed(sys, t)
            && Table(sys, t.log) == Table(sys, s.log) + sys.scripts[c].rows
            && Uncommitted(sys, s, c) == sys.scripts[c].rows
            && Uncommitted(sys, t, c) == []
            && forall o :: 0 <= o < |t.phases| && o != c ==> Uncommitted(sys, t, o) == Uncommitted(sys, s, o)
  {
    var t := Apply(s, Commit(c));
    assert t.log[..|s.log|] == s.log;
  }

  lemma CommitKeepsReads<Q, R>(sys: System<Q, R>, s: State, c: nat)
    requires Inv(sys, s) && Enabled(sys, s, Commit(c))
    ensures var t := Apply(s, Commit(c)); WellFormed(sys, t) && ReadsHold(sys, t)
  {
    var t := Apply(s, Commit(c));
    CommitAddsRows(sys, s, c);
    forall o | 0 <= o < |t.phases| && t.phases[o].Inserting?
      ensures SelectsNone(sys, sys.scripts[o].query, Table(sys, t.log))
    {
      assert SelectsNone(sys, sys.scripts[o].query, Uncommitted(sys, s, c));
    }
    forall o | 0 <= o < |t.phases| && (t.phases[o].Refusing? || t.phases[o].Refused?)
      ensures !SelectsNone(sys, sys.scripts[o].query, Table(sys, t.log))
    {
      var i :| 0 <= i < |Table(sys, s.log)| && sys.selects(sys.scripts[o].query, Table(sys, s.log)[i]);
      assert Table(sys, t.log)[i] == Table(sys, s.log)[i];
    }
  }

  lemma CommitKeepsSerial<Q, R>(sys: System<Q, R>, s: State, c: nat)
    requires Inv(sys, s) && Enabled(sys, s, Commit(c))
    ensures var t := Apply(s, Commit(c)); WellFormed(sys, t) && PhasesFit(sys, t) && Serial(sys, t.log)
  {
    assert c !in s.log;
    SerialGrows(sys, s.log, c);
  }

  lemma SerialGrows<Q, R>(sys: System<Q, R>, log: seq<nat>, c: nat)
    requires (forall i :: 0 <= i < |log| ==> log[i] < |sys.scripts|) && c < |sys.scripts|
    requires Serial(sys, log) && SelectsNone(sys, sys.scripts[c].query, Table(sys, log))
    ensures Serial(sys, log + [c])
  {
    var more := log + [c];
    forall j | 0 <= j < |more| ensures SelectsNone(sys, sys.scripts[more[j]].query, Table(sys, more[..j])) {
      if j < |log| {
        assert more[..j] == log[..j];
      } else {
        assert more[..j] == log;
      }
    }
  }

  lemma CommitKeepsInv<Q, R>(sys: System<Q, R>, s: State, c: nat)
    requires Inv(sys, s) && Enabled(sys, s, Commit(c))
    ensures Inv(sys, Apply(s, Commit(c)))
  {
    CommitKeepsReads(sys, s, c);
    CommitKeepsSerial(sys, s, c);
  }

  /** A step that does not commit changes one phase and leaves the log and the others alone. */
  lemma NoCommitKeepsLog<Q, R>(sys: System<Q, R>, s: State, step: Step)
    requires WellFormed(sys, s) && Enabled(sys, s, step) && !step.Commit?
    ensures var t := Apply(s, step);
            && WellFormed(sys, t) && t.log == s.log
            && (PhasesFit(sys, s) ==> PhasesFit(sys, t))
            && (forall o :: 0 <= o < |t.phases| && o != step.client
                  ==> t.phases[o] == s.phases[o] && Uncommitted(sys, t, o) == Uncommitted(sys, s, o))
  {
    assert !s.phases[step.client].Committed?;
  }

  lemma InsertKeepsReads<Q, R>(sys: System<Q, R>, s: State, c: nat)
    requires WellFormed(sys, s) && ReadsHold(sys, s) && Enabled(sys, s, Insert(c))
    ensures var t := Apply(s, Insert(c)); WellFormed(sys, t) && ReadsHold(sys, t)
  {
    var t := Apply(s, Insert(c));
    NoCommitKeepsLog(sys, s, Insert(c));
    var k := s.phases[c].done;
    assert Uncommitted(sys, t, c) == Uncommitted(sys, s, c) + [sys.scripts[c].rows[k]];
    forall r, o | 0 <= r < |t.phases| && 0 <= o < |t.phases| && r != o && t.phases[r].Inserting?
      ensures SelectsNone(sys, sys.scripts[r].query, Uncommitted(sys, t, o))
    {
      assert SelectsNone(sys, sys.scripts[r].query, Uncommitted(sys, s, o));
      assert o == c ==> !sys.selects(sys.scripts[r].query, sys.scripts[c].rows[k]);
    }
  }

  lemma OtherStepKeepsReads<Q, R>(sys: System<Q, R>, s: State, step: Step)
    requires WellFormed(sys, s) && ReadsHold(sys, s) && Enabled(sys, s, step) && !step.Commit? && !step.Insert?
    ensures var t := Apply(s, step); WellFormed(sys, t) && ReadsHold(sys, t)
  {
    var t := Apply(s, step);
    NoCommitKeepsLog(sys, s, step);
    assert Uncommitted(sys, t, step.client) == [];
    forall r, o | 0 <= r < |t.phases| && 0 <= o < |t.phases| && r != o && t.phases[r].Inserting?
      ensures SelectsNone(sys, sys.scripts[r].query, Uncommitted(sys, t, o))
    {
      if o != step.client && r != step.client {
        assert SelectsNone(sys, sys.scripts[r].query, Uncommitted(sys, s, o));
      }
    }
  }

  lemma StepKeepsInv<Q, R>(sys: System<Q, R>, s: State, step: Step)
    requires Inv(sys, s) && Enabled(sys, s, step)
    ensures Inv(sys, Apply(s, step))
  {
    match step
    case Commit(c) => CommitKeepsInv(sys, s, c);
    case Insert(c) => NoCommitKeepsLog(sys, s, step); InsertKeepsReads(sys, s, c);
    case _ => NoCommitKeepsLog(sys, s, step); OtherStepKeepsReads(sys, s, step);
  }

  lemma {:induction false} ReachesKeepsInv<Q, R>(sys: System<Q, R>, steps: seq<Step>, s: State)
    requires Reaches(sys, steps, s)
    ensures Inv(sys, s)
    decreases |steps|
  {
    if steps != [] {
      var last := steps[|steps| - 1];
      var before: State :|
        && Reaches(sys, steps[..|steps| - 1], before)
        && WellFormed(sys, before) && Enabled(sys, before, last) && s == Apply(before, last);
      ReachesKeepsInv(sys, steps[..|steps| - 1], before);
      StepKeepsInv(sys, before, last);
    }
  }

  // ---------------------------------------------------------------- main results

  /** In every reachable state, however the transactions interleave, no committed transaction's
      query selects a row that was in the table before its commit, and a refused transaction's
      query does select a committed row. */
  lemma {:induction false} EveryInterleavingIsSerial<Q, R>(sys: System<Q, R>, s: State)
    requires Reachable(sys, s)
    ensures WellFormed(sys, s) && Serial(sys, s.log)
    ensures forall c :: 0 <= c < |s.phases| ==> (s.phases[c].Committed? <==> c in s.log)
    ensures forall c :: 0 <= c < |s.phases| && s.phases[c].Refused?
              ==> !SelectsNone(sys, sys.scripts[c].query, Table(sys, s.log))
  {
    var steps :| Reaches(sys, steps, s);
    ReachesKeepsInv(sys, steps, s);
  }

  /** The whole transaction done at once, as by a client that is alone. */
  ghost function TestAndSet<Q, R>(sys: System<Q, R>, table: seq<R>, script: Script<Q, R>): seq<R> {
    if SelectsNone(sys, script.query, table) then table + script.rows else table
  }

  ghost function OneAtATime<Q, R>(sys: System<Q, R>, log: seq<nat>): seq<R>
    requires forall i :: 0 <= i < |log| ==> log[i] < |sys.scripts|
  {
    if log == [] then sys.initial
    else TestAndSet(sys, OneAtATime(sys, log[..|log| - 1]), sys.scripts[log[|log| - 1]])
  }

  lemma {:induction false} SerialLogReplays<Q, R>(sys: System<Q, R>, log: seq<nat>)
    requires forall i :: 0 <= i < |log| ==> log[i] < |sys.scripts|
    requires Serial(sys, log)
    ensures OneAtATime(sys, log) == Table(sys, log)
    decreases |log|
  {
    if log != [] {
      var front := log[..|log| - 1];
      assert forall j :: 0 <= j < |front| ==> front[..j] == log[..j];
      SerialLogReplays(sys, front);
    }
  }

  /** The interleaved system refines the serial one: the table is what the committed transactions
      leave when they run one at a time in commit order. */
  lemma InterleavingRefinesOneAtATime<Q, R>(sys: System<Q, R>, s: State)
    requires Reachable(sys, s)
    ensures WellFormed(sys, s) && OneAtATime(sys, s.log) == Table(sys, s.log)
  {
    EveryInterleavingIsSerial(sys, s);
    SerialLogReplays(sys, s.log);
  }

  lemma {:induction false} RowsStayInTable<Q, R>(sys: System<Q, R>, log: seq<nat>, j: nat, r: R)
    requires forall i :: 0 <= i < |log| ==> log[i] < |sys.scripts|
    requires j < |log| && r in sys.scripts[log[j]].rows
    ensures r in Table(sys, log)
    decreases |log|
  {
    if j < |log| - 1 { RowsStayInTable(sys, log[..|log| - 1], j, r); }
  }

  lemma {:induction false} TableGrows<Q, R>(sys: System<Q, R>, log: seq<nat>, j: nat)
    requires forall i :: 0 <= i < |log| ==> log[i] < |sys.scripts|
    requires j <= |log|
    ensures Table(sys, log[..j]) <= Table(sys, log)
    decreases |log|
  {
    if j == |log| {
      assert log[..j] == log;
    } else {
      assert log[..|log| - 1][..j] == log[..j];
      TableGrows(sys, log[..|log| - 1], j);
    }
  }

  /** When every transaction inserts one row, the j-th commit adds the row at place |initial| + j. */
  lemma {:induction false} OneRowPerCommit<Q, R>(sys: System<Q, R>, log: seq<nat>)
    requires forall c :: 0 <= c < |sys.scripts| ==> |sys.scripts[c].rows| == 1
    requires forall i :: 0 <= i < |log| ==> log[i] < |sys.scripts|
    ensures |Table(sys, log)| == |sys.initial| + |log|
    ensures forall i :: 0 <= i < |log| ==> Table(sys, log)[|sys.initial| + i] == sys.scripts[log[i]].rows[0]
    decreases |log|
  {
    if log != [] { OneRowPerCommit(sys, log[..|log| - 1]); }
  }

  /** No row that was in the table before the j-th commit is selected by its query. */
  lemma EarlierRowNotSelected<Q, R>(sys: System<Q, R>, log: seq<nat>, i: nat, j: nat)
    requires forall k :: 0 <= k < |log| ==> log[k] < |sys.scripts|
    requires Serial(sys, log) && j < |log| && i < |Table(sys, log[..j])|
    ensures |Table(sys, log[..j])| <= |Table(sys, log)| && !sys.selects(sys.scripts[log[j]].query, Table(sys, log)[i])
  {
    TableGrows(sys, log, j);
    assert SelectsNone(sys, sys.scripts[log[j]].query, Table(sys, log[..j]));
    assert Table(sys, log)[i] == Table(sys, log[..j])[i];
  }

  /** For transactions of one row each: the table after any interleaving, and no row of it
      selected by a query whose transaction committed later. */
  lemma OneRowInterleaving<Q, R>(sys: System<Q, R>, s: State, i: nat, j: nat)
    requires forall c :: 0 <= c < |sys.scripts| ==> |sys.scripts[c].rows| == 1
    requires Reachable(sys, s) && j < |s.log| && i < |sys.initial| + j
    ensures WellFormed(sys, s)
    ensures var table := Table(sys, s.log);
            && |table| == |sys.initial| + |s.log|
            && sys.initial <= table
            && table[|sys.initial| + j] == sys.scripts[s.log[j]].rows[0]
            && !sys.selects(sys.scripts[s.log[j]].query, table[i])
  {
    EveryInterleavingIsSerial(sys, s);
    OneRowPerCommit(sys, s.log);
    OneRowPerCommit(sys, s.log[..j]);
    TableGrows(sys, s.log, 0);
    EarlierRowNotSelected(sys, s.log, i, j);
  }

  /** Of two committed transactions the later one does not select any row of the earlier one. */
  lemma LogPairIsOrdered<Q, R>(sys: System<Q, R>, log: seq<nat>, i: nat, j: nat)
    requires forall k :: 0 <= k < |log| ==> log[k] < |sys.scripts|
    requires Serial(sys, log) && i < j < |log|
    ensures SelectsNone(sys, sys.scripts[log[j]].query, sys.scripts[log[i]].rows)
  {
    var rows := sys.scripts[log[i]].rows;
    forall k | 0 <= k < |rows| ensures !sys.selects(sys.scripts[log[j]].query, rows[k]) {
      RowsStayInTable(sys, log[..j], i, rows[k]);
    }
  }

  lemma CommittedPairIsOrdered<Q, R>(sys: System<Q, R>, s: State, c: nat, o: nat)
    requires Reachable(sys, s) && c < |s.phases| && o < |s.phases| && c != o
    requires s.phases[c].Committed? && s.phases[o].Committed?
    ensures |s.phases| == |sys.scripts|
    ensures || SelectsNone(sys, sys.scripts[c].query, sys.scripts[o].rows)
            || SelectsNone(sys, sys.scripts[o].query, sys.scripts[c].rows)
  {
    EveryInterleavingIsSerial(sys, s);
    var i :| 0 <= i < |s.log| && s.log[i] == c;
    var j :| 0 <= j < |s.log| && s.log[j] == o;
    if i < j {
      LogPairIsOrdered(sys, s.log, i, j);
    } else {
      LogPairIsOrdered(sys, s.log, j, i);
    }
  }

  // ---------------------------------------------------------------- every serial run can happen

  ghost predicate IsSerialRun<Q, R>(sys: System<Q, R>, log: seq<nat>) {
    && (forall i :: 0 <= i < |log| ==> log[i] < |sys.scripts|)
    && (forall i, j :: 0 <= i < j < |log| ==> log[i] != log[j])
    && Serial(sys, log)
  }

  /** The transactions of the log have committed and the others have not begun. */
  ghost function After<Q, R>(sys: System<Q, R>, log: seq<nat>): State {
    State(seq(|sys.scripts|, c requires 0 <= c < |sys.scripts| => if c in log then Committed else Waiting), log)
  }

  lemma StepReaches<Q, R>(sys: System<Q, R>, s: State, step: Step)
    requires Reachable(sys, s) && WellFormed(sys, s) && Enabled(sys, s, step)
    ensures Reachable(sys, Apply(s, step)) && WellFormed(sys, Apply(s, step))
  {
    var steps :| Reaches(sys, steps, s);
    var more := steps + [step];
    assert more[..|more| - 1] == steps && more[|more| - 1] == step;
    assert Reaches(sys, more, Apply(s, step));
    ReachesKeepsInv(sys, more, Apply(s, step));
  }

  ghost predicate OthersHoldNoLock(s: State, c: nat) {
    forall o :: 0 <= o < |s.phases| && o != c ==> !HoldsLock(s.phases[o])
  }

  lemma {:induction false} InsertsAll<Q, R>(sys: System<Q, R>, s: State, c: nat, k: nat)
    requires Reachable(sys, s) && WellFormed(sys, s) && c < |s.phases| && s.phases[c] == Inserting(k)
    requires OthersHoldNoLock(s, c)
    ensures var t := s.(phases := s.phases[c := Inserting(|sys.scripts[c].rows|)]); Reachable(sys, t) && WellFormed(sys, t)
    decreases |sys.scripts[c].rows| - k
  {
    if k == |sys.scripts[c].rows| {
      assert s.phases[c := Inserting(k)] == s.phases;
    } else {
      StepReaches(sys, s, Insert(c));
      var t := Apply(s, Insert(c));
      InsertsAll(sys, t, c, k + 1);
      var n := |sys.scripts[c].rows|;
      assert t.phases[c := Inserting(n)] == s.phases[c := Inserting(n)];
    }
  }

  lemma LastOfRun<Q, R>(sys: System<Q, R>, log: seq<nat>, c: nat)
    requires IsSerialRun(sys, log + [c])
    ensures IsSerialRun(sys, log) && c < |sys.scripts| && c !in log
    ensures SelectsNone(sys, sys.scripts[c].query, Table(sys, log))
  {
    var all := log + [c];
    assert all[|log|] == c && all[..|log|] == log;
    assert forall i :: 0 <= i < |log| ==> all[i] == log[i] && all[..i] == log[..i];
  }

  lemma BeginsAndReads<Q, R>(sys: System<Q, R>, log: seq<nat>, c: nat)
    requires IsSerialRun(sys, log) && Reachable(sys, After(sys, log))
    requires c < |sys.scripts| && c !in log && SelectsNone(sys, sys.scripts[c].query, Table(sys, log))
    ensures var t := State(After(sys, log).phases[c := Inserting(0)], log); Reachable(sys, t) && WellFormed(sys, t)
  {
    var s := After(sys, log);
    StepReaches(sys, s, Begin(c));
    var begun := Apply(s, Begin(c));
    StepReaches(sys, begun, ReadNothing(c));
    assert begun.phases[c := Inserting(0)] == s.phases[c := Inserting(0)];
  }

  lemma RunsAlone<Q, R>(sys: System<Q, R>, log: seq<nat>, c: nat)
    requires IsSerialRun(sys, log + [c]) && Reachable(sys, After(sys, log))
    ensures Reachable(sys, After(sys, log + [c]))
  {
    LastOfRun(sys, log, c);
    BeginsAndReads(sys, log, c);
    var phases := After(sys, log).phases;
    InsertsAll(sys, State(phases[c := Inserting(0)], log), c, 0);
    var n := |sys.scripts[c].rows|;
    assert phases[c := Inserting(0)][c := Inserting(n)] == phases[c := Inserting(n)];
    StepReaches(sys, State(phases[c := Inserting(n)], log), Commit(c));
    assert phases[c := Inserting(n)][c := Committed] == After(sys, log + [c]).phases;
  }

  lemma {:induction false} SerialRunIsReached<Q, R>(sys: System<Q, R>, log: seq<nat>)
    requires IsSerialRun(sys, log)
    ensures Reachable(sys, After(sys, log))
    decreases |log|
  {
    if log == [] {
      assert Reaches(sys, [], After(sys, []));
    } else {
      var front, c := log[..|log| - 1], log[|log| - 1];
      assert log == front + [c];
      LastOfRun(sys, front, c);
      SerialRunIsReached(sys, front);
      RunsAlone(sys, front, c);
    }
  }

  /** The orders in which transactions can commit under the locks are exactly those in which
      each, run alone after the ones before it, finds nothing. */
  lemma CommitOrdersAreSerialRuns<Q, R>(sys: System<Q, R>, log: seq<nat>)
    ensures (exists s :: Reachable(sys, s) && s.log == log) <==> IsSerialRun(sys, log)
  {
    if exists s :: Reachable(sys, s) && s.log == log {
      var s :| Reachable(sys, s) && s.log == log;
      var steps :| Reaches(sys, steps, s);
      ReachesKeepsInv(sys, steps, s);
    }
    if IsSerialRun(sys, log) {
      SerialRunIsReached(sys, log);
      assert After(sys, log).log == log;
    }
  }

  /** On an empty table one transaction can follow another exactly when it selects none of its rows. */
  lemma TwoRunIff<Q, R>(sys: System<Q, R>, a: nat, b: nat)
    requires sys.initial == [] && a < |sys.scripts| && b < |sys.scripts| && a != b
    ensures IsSerialRun(sys, [a, b]) <==> SelectsNone(sys, sys.scripts[b].query, sys.scripts[a].rows)
  {
    var log := [a, b];
    TableOfOne(sys, a);
    assert log[..0] == [] && log[..1] == [a] && log[1] == b;
    if Serial(sys, log) {
      assert SelectsNone(sys, sys.scripts[log[1]].query, Table(sys, log[..1]));
    }
  }

  lemma TableOfOne<Q, R>(sys: System<Q, R>, a: nat)
    requires sys.initial == [] && a < |sys.scripts|
    ensures Table(sys, [a]) == sys.scripts[a].rows
  {
    assert [a][..0] == [];
    assert [] + sys.scripts[a].rows == sys.scripts[a].rows;
  }
}
