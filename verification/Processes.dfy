/** Any number of terminate commands, each a process of its own, whose checks, tracker calls and
    kills interleave (term/term.go:155-178 over mysql/mysql.go:262-297). */
module Processes {
  import opened Domain
  import opened WorkCalendar
  import opened MinTime
  import opened Serializable
  import opened ConcurrentChecks
  import opened Term
  import opened TermRuns

  /** A command that has picked its instance and is about to check. */
  datatype Process = Process(call: Call, picked: Instance)

  ghost predicate Ready(p: Process) {
    GatesOpen(p.call.d, p.call.group) && p.call.d.location.Ok? && Picks(p.call.d, p.call.group, p.picked)
  }

  function TermOf(p: Process): Termination
    requires p.call.d.leashed.Ok?
  {
    Termination(p.picked, p.call.d.now, p.call.d.leashed.value)
  }

  function ClientOf(p: Process): Client
    requires p.call.d.leashed.Ok? && p.call.d.location.Ok? && p.call.d.config(p.call.group.app).Ok?
  {
    Client(TermOf(p), p.call.d.config(p.call.group.app).value, p.call.d.endHour, p.call.d.location.value)
  }

  /** The processes whose checks get as far as the query, each with its transaction. */
  datatype Fleet = Fleet(sys: System<Query, Row>, procs: seq<Process>)

  ghost predicate Runs(fleet: Fleet) {
    && fleet.sys.selects == Selects
    && |fleet.sys.scripts| == |fleet.procs|
    && (forall p :: 0 <= p < |fleet.procs| ==> Ready(fleet.procs[p]) && IsScriptOf(fleet.sys.scripts[p], ClientOf(fleet.procs[p])))
  }

  /** Tracking: the check has returned no error and so many trackers have been called and worked. */
  datatype Progress = Checking | Tracking(called: nat) | Stopped | Finished

  /** An effect and the process that had it. */
  datatype Act = Act(proc: nat, event: Event)

  /** `lost` are the processes whose commit failed; their checks returned no error all the same. */
  datatype Situation = Situation(db: State, progress: seq<Progress>, lost: set<nat>, trace: seq<Act>)

  datatype Move = Check(step: Step) | LoseCommit(proc: nat) | Track(proc: nat) | Finish(proc: nat)

  ghost predicate Fits(fleet: Fleet, s: Situation) {
    && |fleet.sys.scripts| == |fleet.procs| == |s.progress| && WellFormed(fleet.sys, s.db)
    && (forall p :: 0 <= p < |fleet.procs| ==> fleet.procs[p].call.d.leashed.Ok?)
  }

  ghost predicate May(fleet: Fleet, s: Situation, move: Move)
    requires Fits(fleet, s)
  {
    match move
    case Check(step) => Enabled(fleet.sys, s.db, step)
    case LoseCommit(p) => Enabled(fleet.sys, s.db, Commit(p))
    case Track(p) =>
      p < |s.progress| && s.progress[p].Tracking? && s.progress[p].called < |fleet.procs[p].call.d.trackers|
    case Finish(p) =>
      p < |s.progress| && s.progress[p] == Tracking(|fleet.procs[p].call.d.trackers|)
  }

  /** What a step of a check means for its process: it goes on after a commit and stops after a
      refusal or a rollback. */
  function AfterStep(progress: Progress, step: Step): Progress {
    match step
    case Commit(_) => Tracking(0)
    case Refuse(_) => Stopped
    case Rollback(_) => Stopped
    case _ => progress
  }

  function Mover(move: Move): nat {
    match move
    case Check(step) => step.client
    case LoseCommit(p) => p
    case Track(p) => p
    case Finish(p) => p
  }

  /** What a move adds to the trace: at most one act, by the process that moves. */
  ghost function Adds(fleet: Fleet, s: Situation, move: Move): seq<Act>
    requires Fits(fleet, s) && May(fleet, s, move)
  {
    match move
    case Check(step) => if step.Commit? then [Act(step.client, Recorded(RowOf(TermOf(fleet.procs[step.client]))))] else []
    case LoseCommit(_) => []
    case Track(p) => [Act(p, Tracked(s.progress[p].called, TermOf(fleet.procs[p])))]
    case Finish(p) => if TermOf(fleet.procs[p]).leashed then [] else [Act(p, Killed(TermOf(fleet.procs[p])))]
  }

  ghost function DbAfter(fleet: Fleet, s: Situation, move: Move): State
    requires Fits(fleet, s) && May(fleet, s, move)
  {
    match move
    case Check(step) => Apply(s.db, step)
    case LoseCommit(p) => Apply(s.db, Rollback(p))
    case _ => s.db
  }

  ghost function ProgressAfter(fleet: Fleet, s: Situation, move: Move): Progress
    requires Fits(fleet, s) && May(fleet, s, move)
  {
    match move
    case Check(step) => AfterStep(s.progress[step.client], step)
    case LoseCommit(_) => Tracking(0)
    case Track(p) => if fleet.procs[p].call.d.trackers[s.progress[p].called] then Tracking(s.progress[p].called + 1) else Stopped
    case Finish(_) => Finished
  }

  ghost function Do(fleet: Fleet, s: Situation, move: Move): Situation
    requires Fits(fleet, s) && May(fleet, s, move)
  {
    Situation(DbAfter(fleet, s, move), s.progress[Mover(move) := ProgressAfter(fleet, s, move)],
              s.lost + (if move.LoseCommit? then {move.proc} else {}), s.trace + Adds(fleet, s, move))
  }

  ghost predicate Begins(fleet: Fleet, s: Situation) {
    && Fits(fleet, s) && Start(fleet.sys, s.db) && s.lost == {} && s.trace == []
    && (forall p :: 0 <= p < |s.progress| ==> s.progress[p].Checking?)
  }

  ghost predicate Comes(fleet: Fleet, moves: seq<Move>, s: Situation)
    decreases |moves|
  {
    if moves == [] then Begins(fleet, s)
    else
      exists before: Situation ::
        && Comes(fleet, moves[..|moves| - 1], before)
        && Fits(fleet, before) && May(fleet, before, moves[|moves| - 1])
        && s == Do(fleet, before, moves[|moves| - 1])
  }

  // ---------------------------------------------------------------- what one process has done

  /** The effects of process p, in order. */
  ghost function Own(trace: seq<Act>, p: nat): seq<Event> {
    if trace == [] then []
    else
      var last := trace[|trace| - 1];
      Own(trace[..|trace| - 1], p) + if last.proc == p then [last.event] else []
  }

  lemma OwnAdds(trace: seq<Act>, act: Act, p: nat)
    ensures Own(trace + [act], p) == Own(trace, p) + if act.proc == p then [act.event] else []
  {
    assert (trace + [act])[..|trace + [act]| - 1] == trace;
  }

  /** The command's surroundings as the process met them: whether its commit failed. */
  function DepsOf(s: Situation, fleet: Fleet, p: nat): Deps
    requires p < |fleet.procs|
  {
    var d := fleet.procs[p].call.d;
    d.(faults := d.faults.(commit := p in s.lost))
  }

  ghost function RecordPart(s: Situation, fleet: Fleet, p: nat): seq<Event>
    requires p < |fleet.procs| && fleet.procs[p].call.d.leashed.Ok?
  {
    if p in s.lost then [] else [Recorded(RowOf(TermOf(fleet.procs[p])))]
  }

  ghost predicate HasDone(fleet: Fleet, s: Situation, p: nat)
    requires Fits(fleet, s) && p < |fleet.procs|
  {
    var trackers, term := fleet.procs[p].call.d.trackers, TermOf(fleet.procs[p]);
    match s.progress[p]
    case Checking => Own(s.trace, p) == []
    case Tracking(n) =>
      && n <= |trackers| && AllWork(trackers[..n])
      && Own(s.trace, p) == RecordPart(s, fleet, p) + TrackEvents(term, trackers[..n])
    case Stopped =>
      || Own(s.trace, p) == []
      || (!AllWork(trackers) && Own(s.trace, p) == Effects(DepsOf(s, fleet, p), term))
    case Finished => AllWork(trackers) && Own(s.trace, p) == Effects(DepsOf(s, fleet, p), term)
  }

  /** Only a check that is over lets a process go on. */
  ghost predicate PhaseFits(phase: Phase, progress: Progress, lost: bool) {
    match progress
    case Checking => !lost && (phase.Waiting? || phase.Begun? || phase.Refusing? || phase.Inserting?)
    case Stopped => phase.Committed? || phase.Refused? || phase.RolledBack?
    case _ => if lost then phase.RolledBack? else phase.Committed?
  }

  ghost predicate Good(fleet: Fleet, s: Situation) {
    && Fits(fleet, s) && Inv(fleet.sys, s.db)
    && (forall p :: 0 <= p < |fleet.procs| ==> PhaseFits(s.db.phases[p], s.progress[p], p in s.lost))
    && (forall p :: 0 <= p < |fleet.procs| ==> HasDone(fleet, s, p))
  }

  // ---------------------------------------------------------------- the invariant is kept

  lemma MoveFits(fleet: Fleet, s: Situation, move: Move)
    requires Good(fleet, s) && May(fleet, s, move)
    ensures Fits(fleet, Do(fleet, s, move)) && Inv(fleet.sys, Do(fleet, s, move).db) && Mover(move) < |fleet.procs|
  {
    match move
    case Check(step) => StepKeepsInv(fleet.sys, s.db, step);
    case LoseCommit(p) => StepKeepsInv(fleet.sys, s.db, Rollback(p));
    case _ =>
  }

  lemma OwnAfter(fleet: Fleet, s: Situation, move: Move, p: nat)
    requires Fits(fleet, s) && May(fleet, s, move)
    ensures var added := Adds(fleet, s, move);
            Own(s.trace + added, p) == Own(s.trace, p) + if added != [] && p == Mover(move) then [added[0].event] else []
  {
    var added := Adds(fleet, s, move);
    if added == [] {
      assert s.trace + added == s.trace;
    } else {
      assert added == [added[0]] && added[0].proc == Mover(move);
      OwnAdds(s.trace, added[0], p);
    }
  }

  lemma OtherPhasesStay(db: State, step: Step, p: nat)
    requires step.client < |db.phases| && p < |db.phases| && p != step.client
    requires step.Insert? ==> db.phases[step.client].Inserting?
    ensures |Apply(db, step).phases| == |db.phases| && Apply(db, step).phases[p] == db.phases[p]
  {
  }

  lemma OtherPhaseStays(fleet: Fleet, s: Situation, move: Move, p: nat)
    requires Fits(fleet, s) && May(fleet, s, move) && p < |fleet.procs| && p != Mover(move)
    ensures |DbAfter(fleet, s, move).phases| == |fleet.procs| && DbAfter(fleet, s, move).phases[p] == s.db.phases[p]
  {
    match move
    case Check(step) => OtherPhasesStay(s.db, step, p);
    case LoseCommit(c) => OtherPhasesStay(s.db, Rollback(c), p);
    case _ =>
  }

  lemma StillChecking(fleet: Fleet, s: Situation, step: Step)
    requires Good(fleet, s) && Enabled(fleet.sys, s.db, step)
    ensures step.client < |fleet.procs|
    ensures s.progress[step.client].Checking? && step.client !in s.lost && Own(s.trace, step.client) == []
  {
    var c := step.client;
    assert PhaseFits(s.db.phases[c], s.progress[c], c in s.lost) && HasDone(fleet, s, c);
  }

  lemma CheckKeepsMover(fleet: Fleet, s: Situation, step: Step)
    requires Good(fleet, s) && May(fleet, s, Check(step)) && !step.Commit?
    ensures var t, c := Do(fleet, s, Check(step)), step.client;
            Fits(fleet, t) && PhaseFits(t.db.phases[c], t.progress[c], c in t.lost) && HasDone(fleet, t, c)
  {
    MoveFits(fleet, s, Check(step));
    StillChecking(fleet, s, step);
    OwnAfter(fleet, s, Check(step), step.client);
  }

  lemma NoTrackerYet(fleet: Fleet, t: Situation, c: nat)
    requires Fits(fleet, t) && c < |fleet.procs| && t.progress[c] == Tracking(0)
    requires Own(t.trace, c) == RecordPart(t, fleet, c)
    ensures HasDone(fleet, t, c)
  {
    var trackers, term := fleet.procs[c].call.d.trackers, TermOf(fleet.procs[c]);
    assert trackers[..0] == [] && TrackEvents(term, []) == [];
    assert RecordPart(t, fleet, c) + [] == RecordPart(t, fleet, c);
  }

  lemma CommitKeepsMover(fleet: Fleet, s: Situation, c: nat)
    requires Good(fleet, s) && May(fleet, s, Check(Commit(c)))
    ensures var t := Do(fleet, s, Check(Commit(c)));
            Fits(fleet, t) && PhaseFits(t.db.phases[c], t.progress[c], c in t.lost) && HasDone(fleet, t, c)
  {
    MoveFits(fleet, s, Check(Commit(c)));
    StillChecking(fleet, s, Commit(c));
    OwnAfter(fleet, s, Check(Commit(c)), c);
    NoTrackerYet(fleet, Do(fleet, s, Check(Commit(c))), c);
  }

  lemma LoseCommitKeepsMover(fleet: Fleet, s: Situation, c: nat)
    requires Good(fleet, s) && May(fleet, s, LoseCommit(c))
    ensures var t := Do(fleet, s, LoseCommit(c));
            Fits(fleet, t) && PhaseFits(t.db.phases[c], t.progress[c], c in t.lost) && HasDone(fleet, t, c)
  {
    MoveFits(fleet, s, LoseCommit(c));
    StillChecking(fleet, s, Commit(c));
    OwnAfter(fleet, s, LoseCommit(c), c);
    NoTrackerYet(fleet, Do(fleet, s, LoseCommit(c)), c);
  }

  lemma NextTracker(term: Termination, trackers: seq<bool>, n: nat)
    requires n < |trackers| && AllWork(trackers[..n])
    ensures TrackEvents(term, trackers[..n + 1]) == TrackEvents(term, trackers[..n]) + [Tracked(n, term)]
    ensures trackers[n] ==> AllWork(trackers[..n + 1])
    ensures !trackers[n] ==> !AllWork(trackers) && TrackEvents(term, trackers) == TrackEvents(term, trackers[..n + 1])
  {
    assert trackers[..n + 1][..n] == trackers[..n];
    if !trackers[n] { TrackEventsStop(term, trackers, n); }
  }

  lemma TrackKeepsMover(fleet: Fleet, s: Situation, c: nat)
    requires Good(fleet, s) && May(fleet, s, Track(c))
    ensures var t := Do(fleet, s, Track(c));
            Fits(fleet, t) && PhaseFits(t.db.phases[c], t.progress[c], c in t.lost) && HasDone(fleet, t, c)
  {
    var n, term, trackers := s.progress[c].called, TermOf(fleet.procs[c]), fleet.procs[c].call.d.trackers;
    assert HasDone(fleet, s, c) && PhaseFits(s.db.phases[c], s.progress[c], c in s.lost);
    OwnAfter(fleet, s, Track(c), c);
    TrackedOneMore(term, trackers, n, RecordPart(s, fleet, c), c in s.lost, fleet.procs[c].call.d);
  }

  /** After one more tracker call the effects are those of that many trackers, or all there are. */
  lemma TrackedOneMore(term: Termination, trackers: seq<bool>, n: nat, record: seq<Event>, lost: bool, d: Deps)
    requires n < |trackers| && AllWork(trackers[..n]) && d.trackers == trackers
    requires record == if lost then [] else [Recorded(RowOf(term))]
    ensures trackers[n] ==> AllWork(trackers[..n + 1])
    ensures record + TrackEvents(term, trackers[..n]) + [Tracked(n, term)] == record + TrackEvents(term, trackers[..n + 1])
    ensures !trackers[n] ==>
              && !AllWork(trackers)
              && record + TrackEvents(term, trackers[..n + 1]) == Effects(d.(faults := d.faults.(commit := lost)), term)
  {
    NextTracker(term, trackers, n);
  }

  lemma FinishKeepsMover(fleet: Fleet, s: Situation, c: nat)
    requires Good(fleet, s) && May(fleet, s, Finish(c))
    ensures var t := Do(fleet, s, Finish(c));
            Fits(fleet, t) && PhaseFits(t.db.phases[c], t.progress[c], c in t.lost) && HasDone(fleet, t, c)
  {
    var term, trackers := TermOf(fleet.procs[c]), fleet.procs[c].call.d.trackers;
    assert HasDone(fleet, s, c) && PhaseFits(s.db.phases[c], s.progress[c], c in s.lost);
    assert trackers[..|trackers|] == trackers;
    var t := Do(fleet, s, Finish(c));
    OwnAfter(fleet, s, Finish(c), c);
    assert DepsOf(t, fleet, c) == DepsOf(s, fleet, c) && RecordPart(t, fleet, c) == RecordPart(s, fleet, c);
    assert Own(t.trace, c) == Effects(DepsOf(t, fleet, c), term);
  }

  lemma MoveKeepsGood(fleet: Fleet, s: Situation, move: Move)
    requires Good(fleet, s) && May(fleet, s, move)
    ensures Good(fleet, Do(fleet, s, move))
  {
    MoveFits(fleet, s, move);
    var t, c := Do(fleet, s, move), Mover(move);
    match move {
      case Check(step) => if step.Commit? { CommitKeepsMover(fleet, s, step.client); } else { CheckKeepsMover(fleet, s, step); }
      case LoseCommit(p) => LoseCommitKeepsMover(fleet, s, p);
      case Track(p) => TrackKeepsMover(fleet, s, p);
      case Finish(p) => FinishKeepsMover(fleet, s, p);
    }
    forall p | 0 <= p < |fleet.procs| ensures PhaseFits(t.db.phases[p], t.progress[p], p in t.lost) && HasDone(fleet, t, p) {
      if p != c { OtherKeepsGood(fleet, s, move, p); }
    }
  }

  lemma OtherKeepsGood(fleet: Fleet, s: Situation, move: Move, p: nat)
    requires Good(fleet, s) && May(fleet, s, move) && p < |fleet.procs| && p != Mover(move)
    ensures var t := Do(fleet, s, move);
            Fits(fleet, t) && PhaseFits(t.db.phases[p], t.progress[p], p in t.lost) && HasDone(fleet, t, p)
  {
    MoveFits(fleet, s, move);
    OtherPhaseStays(fleet, s, move, p);
    OwnAfter(fleet, s, move, p);
    assert HasDone(fleet, s, p) && PhaseFits(s.db.phases[p], s.progress[p], p in s.lost);
    SameIsDone(fleet, s, Do(fleet, s, move), p);
  }

  lemma SameIsDone(fleet: Fleet, s: Situation, t: Situation, p: nat)
    requires Fits(fleet, s) && Fits(fleet, t) && p < |fleet.procs| && HasDone(fleet, s, p)
    requires t.progress[p] == s.progress[p] && (p in t.lost <==> p in s.lost) && Own(t.trace, p) == Own(s.trace, p)
    ensures HasDone(fleet, t, p)
  {
  }

  lemma {:induction false} ComesKeepsGood(fleet: Fleet, moves: seq<Move>, s: Situation)
    requires Comes(fleet, moves, s)
    ensures Good(fleet, s)
    decreases |moves|
  {
    if moves == [] {
      assert Reaches(fleet.sys, [], s.db);
      ReachesKeepsInv(fleet.sys, [], s.db);
    } else {
      var last := moves[|moves| - 1];
      var before: Situation :|
        && Comes(fleet, moves[..|moves| - 1], before)
        && Fits(fleet, before) && May(fleet, before, last) && s == Do(fleet, before, last);
      ComesKeepsGood(fleet, moves[..|moves| - 1], before);
      MoveKeepsGood(fleet, before, last);
    }
  }

  // ---------------------------------------------------------------- main results

  /** Has process p killed? */
  ghost predicate HasKilled(s: Situation, p: nat) {
    exists q :: 0 <= q < |s.trace| && s.trace[q].proc == p && s.trace[q].event.Killed?
  }

  lemma {:induction false} ActIsOwn(trace: seq<Act>, q: nat)
    requires q < |trace|
    ensures trace[q].event in Own(trace, trace[q].proc)
    decreases |trace|
  {
    if q < |trace| - 1 { ActIsOwn(trace[..|trace| - 1], q); }
  }

  /** However the processes interleave, one that has killed has had exactly the effects of a call
      that is alone: its row unless its commit failed, every tracker in order, and one kill of the
      instance it picked, unleashed and with every gate open. */
  lemma KillerActsAsIfAlone(fleet: Fleet, moves: seq<Move>, s: Situation, p: nat)
    requires Comes(fleet, moves, s) && Runs(fleet) && p < |fleet.procs| && HasKilled(s, p)
    ensures Fits(fleet, s)
    ensures var d, term := DepsOf(s, fleet, p), TermOf(fleet.procs[p]);
            && Own(s.trace, p) == Effects(d, term)
            && GatesOpen(d, fleet.procs[p].call.group) && !term.leashed && !d.inTest && AllWork(d.trackers)
    ensures p !in s.lost ==> s.db.phases[p].Committed?
  {
    KillerHasDoneAll(fleet, moves, s, p);
    assert Ready(fleet.procs[p]);
  }

  lemma KillerHasDoneAll(fleet: Fleet, moves: seq<Move>, s: Situation, p: nat)
    requires Comes(fleet, moves, s) && p < |fleet.procs| && HasKilled(s, p)
    ensures Fits(fleet, s)
    ensures var d, term := DepsOf(s, fleet, p), TermOf(fleet.procs[p]);
            Own(s.trace, p) == Effects(d, term) && !term.leashed && AllWork(d.trackers)
    ensures p !in s.lost ==> s.db.phases[p].Committed?
  {
    ComesKeepsGood(fleet, moves, s);
    var q :| 0 <= q < |s.trace| && s.trace[q].proc == p && s.trace[q].event.Killed?;
    ActIsOwn(s.trace, q);
    KilledMeansFinished(fleet, s, p, s.trace[q].event);
  }

  lemma KilledMeansFinished(fleet: Fleet, s: Situation, p: nat, kill: Event)
    requires Good(fleet, s) && p < |fleet.procs| && kill.Killed? && kill in Own(s.trace, p)
    ensures s.progress[p].Finished? && !TermOf(fleet.procs[p]).leashed && HasDone(fleet, s, p)
    ensures p !in s.lost ==> s.db.phases[p].Committed?
  {
    var term, trackers := TermOf(fleet.procs[p]), fleet.procs[p].call.d.trackers;
    assert HasDone(fleet, s, p) && PhaseFits(s.db.phases[p], s.progress[p], p in s.lost);
    TrackEventsAreTracked(term, trackers);
    if s.progress[p].Tracking? { TrackEventsAreTracked(term, trackers[..s.progress[p].called]); }
  }

  /** Of two kills whose commits did not fail, the one whose check committed later keeps the minimum
      time of its own configuration to the other, if it has the same key under it. */
  lemma LaterKillIsSpaced(fleet: Fleet, moves: seq<Move>, s: Situation, i: nat, j: nat)
    requires Comes(fleet, moves, s) && i < j < |s.db.log| && Runs(fleet)
    requires s.db.log[i] < |fleet.procs| && s.db.log[j] < |fleet.procs|
    requires HasKilled(s, s.db.log[i]) && HasKilled(s, s.db.log[j])
    requires var first, second := fleet.procs[s.db.log[i]], ClientOf(fleet.procs[s.db.log[j]]);
             && WorkdaysLast24Hours(second.zone) && 0 <= second.endHour <= 24
             && InstanceKey(second.cfg, first.picked) == InstanceKey(second.cfg, second.term.instance)
    ensures var first, second := TermOf(fleet.procs[s.db.log[i]]), ClientOf(fleet.procs[s.db.log[j]]);
            && second.zone.dayOf(first.time) <= second.zone.dayOf(second.term.time)
            && second.cfg.minTime <= WorkDays(second.zone.dayOf(first.time), second.zone.dayOf(second.term.time))
  {
    var a, b := s.db.log[i], s.db.log[j];
    ComesKeepsGood(fleet, moves, s);
    KillerActsAsIfAlone(fleet, moves, s, a);
    KillerActsAsIfAlone(fleet, moves, s, b);
    LogPairIsOrdered(fleet.sys, s.db.log, i, j);
    var x, y := fleet.sys.scripts[a], fleet.sys.scripts[b];
    assert IsScriptOf(x, ClientOf(fleet.procs[a])) && IsScriptOf(y, ClientOf(fleet.procs[b]));
    assert !Selects(y.query, x.rows[0]);
    var second := ClientOf(fleet.procs[b]);
    NotSelectedIsSpaced(second.term, second.cfg, second.endHour, second.zone, RowOf(TermOf(fleet.procs[a])));
  }

  /** For any number of processes and any interleaving: two kills of one key under one configuration,
      neither's commit having failed, are the minimum number of work days apart. */
  lemma InterleavedKillsAreSpaced(fleet: Fleet, moves: seq<Move>, s: Situation, a: nat, b: nat)
    requires Comes(fleet, moves, s) && Runs(fleet) && a < |fleet.procs| && b < |fleet.procs| && a != b
    requires HasKilled(s, a) && HasKilled(s, b) && a !in s.lost && b !in s.lost
    requires var x, y := ClientOf(fleet.procs[a]), ClientOf(fleet.procs[b]);
             && x.cfg == y.cfg && x.endHour == y.endHour && x.zone == y.zone
             && WorkdaysLast24Hours(x.zone) && 0 <= x.endHour <= 24
             && InstanceKey(x.cfg, x.term.instance) == InstanceKey(x.cfg, y.term.instance)
    ensures var x, y := ClientOf(fleet.procs[a]), ClientOf(fleet.procs[b]);
            var dayA, dayB := x.zone.dayOf(x.term.time), x.zone.dayOf(y.term.time);
            x.cfg.minTime <= WorkDays(dayA, dayB) || x.cfg.minTime <= WorkDays(dayB, dayA)
  {
    ComesKeepsGood(fleet, moves, s);
    KillerActsAsIfAlone(fleet, moves, s, a);
    KillerActsAsIfAlone(fleet, moves, s, b);
    var i :| 0 <= i < |s.db.log| && s.db.log[i] == a;
    var j :| 0 <= j < |s.db.log| && s.db.log[j] == b;
    if i < j {
      LaterKillIsSpaced(fleet, moves, s, i, j);
    } else {
      LaterKillIsSpaced(fleet, moves, s, j, i);
    }
  }
}
