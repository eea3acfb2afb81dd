/** The engine of a supervised loop run: rounds of sensor, agent turn and verification, bounded by a round budget,
    a token budget, a time window, a breaker and stop requests. Its counters stand for the histories of
    LoopHistory, and a run ends with the outcome that is defined there. */
module LoopEngine {
  import opened LoopHistory
  import opened Wrappers

  datatype State = Running | Stopping | Done | Aborted

  datatype StopNote =
    | NoNote | Requested(reason: string) | WindowOver | BudgetSpent(used: int, budget: int)
    | QueueEmpty | GoalReached | RoundsSpent(rounds: int)

  const DEFAULT_ROUNDS := 30

  // ---- reading a timeline ----

  function Count(timeline: seq<Record>, v: Verify): nat {
    if timeline == [] then 0
    else Count(timeline[..|timeline| - 1], v) + if timeline[|timeline| - 1].verify == v then 1 else 0
  }

  lemma {:induction false} CountsCoverTimeline(timeline: seq<Record>)
    ensures Count(timeline, Pass) + Count(timeline, FailRolledBack) + Count(timeline, Skipped) == |timeline|
  {
    if timeline != [] {
      CountsCoverTimeline(timeline[..|timeline| - 1]);
    }
  }

  ghost function Having(timeline: seq<Record>, v: Verify): set<int> {
    set i | 0 <= i < |timeline| && timeline[i].verify == v
  }

  lemma HavingOneMore(init: seq<Record>, r: Record, v: Verify)
    ensures Having(init + [r], v) == Having(init, v) + if r.verify == v then {|init|} else {}
  {}

  /** The count is how many records have the verdict. */
  lemma {:induction false} CountIsHowMany(timeline: seq<Record>, v: Verify)
    ensures Count(timeline, v) == |Having(timeline, v)|
  {
    if timeline != [] {
      var init, r := timeline[..|timeline| - 1], timeline[|timeline| - 1];
      CountIsHowMany(init, v);
      HavingOneMore(init, r, v);
      assert timeline == init + [r];
    }
  }

  /** The last verdict is that of the latest record that has one. */
  lemma {:induction false} LastVerdictIsTheLatest(timeline: seq<Record>)
    ensures LastVerdict(timeline) == Skipped <==> forall i :: 0 <= i < |timeline| ==> timeline[i].verify == Skipped
    ensures LastVerdict(timeline) != Skipped ==>
              exists i :: 0 <= i < |timeline| && timeline[i].verify == LastVerdict(timeline)
                          && forall j :: i < j < |timeline| ==> timeline[j].verify == Skipped
  {
    if timeline != [] {
      var init := timeline[..|timeline| - 1];
      LastVerdictIsTheLatest(init);
      if timeline[|init|].verify == Skipped && LastVerdict(init) != Skipped {
        var i :| 0 <= i < |init| && init[i].verify == LastVerdict(init) && forall j :: i < j < |init| ==> init[j].verify == Skipped;
        assert timeline[i] == init[i];
        assert forall j :: i < j < |init| ==> timeline[j] == init[j];
      }
    }
  }

  ghost function ChangedBy(timeline: seq<Record>): set<string> {
    set i, f | 0 <= i < |timeline| && f in timeline[i].changed :: f
  }

  function LastVerdict(timeline: seq<Record>): Verify {
    if timeline == [] then Skipped
    else if timeline[|timeline| - 1].verify != Skipped then timeline[|timeline| - 1].verify
    else LastVerdict(timeline[..|timeline| - 1])
  }

  // ---- the report ----

  datatype Report = Report(roundsRun: nat, passed: nat, rolledBack: nat, skipped: nat, changedFiles: nat,
                           lastVerify: Verify, completed: bool, suggestion: bool)

  method BuildLoopReport(timeline: seq<Record>, state: State) returns (r: Report)
    ensures r.roundsRun == |timeline| == r.passed + r.rolledBack + r.skipped
    ensures r.passed == Count(timeline, Pass) && r.rolledBack == Count(timeline, FailRolledBack)
    ensures r.changedFiles == |ChangedBy(timeline)|
    ensures r.lastVerify == LastVerdict(timeline)
    ensures r.completed <==> state == Done
    ensures r.suggestion <==> exists i :: 0 <= i < |timeline| && timeline[i].verify == FailRolledBack
  {
    var passed, rolledBack, skipped, last := 0, 0, 0, Skipped;
    var changed: set<string> := {};
    for i := 0 to |timeline|
      invariant passed == Count(timeline[..i], Pass) && rolledBack == Count(timeline[..i], FailRolledBack)
      invariant skipped == Count(timeline[..i], Skipped)
      invariant last == LastVerdict(timeline[..i])
      invariant changed == ChangedBy(timeline[..i])
      invariant rolledBack > 0 <==> exists j :: 0 <= j < i && timeline[j].verify == FailRolledBack
    {
      var rec := timeline[i];
      assert timeline[..i + 1][..i] == timeline[..i];
      match rec.verify {
        case Pass =>
          passed := passed + 1;
          last := Pass;
        case FailRolledBack =>
          rolledBack := rolledBack + 1;
          last := FailRolledBack;
        case Skipped =>
          skipped := skipped + 1;
      }
      var files := set f | f in rec.changed;
      ChangedByOneMore(timeline, i);
      changed := changed + files;
    }
    assert timeline[..|timeline|] == timeline;
    CountsCoverTimeline(timeline);
    r := Report(|timeline|, passed, rolledBack, skipped, |changed|, last, state == Done, rolledBack > 0);
  }

  lemma ChangedByOneMore(timeline: seq<Record>, i: nat)
    requires i < |timeline|
    ensures ChangedBy(timeline[..i + 1]) == ChangedBy(timeline[..i]) + set f | f in timeline[i].changed
  {
    var t, t' := timeline[..i], timeline[..i + 1];
    assert t' == t + [timeline[i]];
    forall f
      ensures f in ChangedBy(t') <==> f in ChangedBy(t) || f in timeline[i].changed
    {
      if f in timeline[i].changed {
        assert t'[i] == timeline[i];
      }
      if f in ChangedBy(t) {
        var j :| 0 <= j < |t| && f in t[j].changed;
        assert t'[j] == t[j];
      }
    }
  }

  // ---- the run ----

  class LoopRun {
    const cfg: Config
    var timeline: seq<Record>
    var state: State
    var stopNote: StopNote
    var stopRequested: bool
    var tokensUsed: int
    var noProgress: int
    var cleanScans: int
    var report: Report

    ghost var spent: seq<int>   // usage counted, round by round
    ghost var scans: seq<Scan>
    ghost var cause: Option<Cause>

    ghost function View(): History
      reads this
    {
      History(timeline, spent, scans, stopRequested, cause)
    }

    constructor (cfg: Config)
      ensures this.cfg == cfg.(maxRounds := if cfg.maxRounds <= 0 then DEFAULT_ROUNDS else cfg.maxRounds)
      ensures View() == History([], [], [], false, None) && Going()
    {
      this.cfg := cfg.(maxRounds := if cfg.maxRounds <= 0 then DEFAULT_ROUNDS else cfg.maxRounds);
      timeline, state, stopNote, stopRequested := [], Running, NoNote, false;
      tokensUsed, noProgress, cleanScans := 0, 0, 0;
      report := Report(0, 0, 0, 0, 0, Skipped, false, false);
      spent, scans, cause := [], [], None;
    }

    /** A run that goes on: the counters stand for the histories, and no limit was reached. */
    ghost predicate Going()
      reads this
    {
      && cause.None? && StopShows()
      && tokensUsed == Sum(spent)
      && cleanScans == CleanScans(scans) < CLEAN_SCAN_LIMIT
      && noProgress == TrailingFails(timeline) < BREAKER_LIMIT
      && (!Verifies(cfg) ==> noProgress == 0)
    }

    /** A stop request shows in the state of a run that goes on. */
    ghost predicate StopShows()
      reads this
    {
      if stopRequested then state == Stopping && stopNote.Requested? else state == Running && stopNote == NoNote
    }

    /** A run that is over shows why. */
    ghost predicate Over()
      reads this
    {
      && cause.Some? && tokensUsed == Sum(spent)
      && match cause.value
         case StopSeen => stopRequested && StopShows()
         case BreakerOpen => state == Aborted && (if stopRequested then stopNote.Requested? else stopNote == NoNote)
         case WindowPassed => state == Done && stopNote == WindowOver
         case TokensSpent => state == Done && stopNote == BudgetSpent(Sum(spent), cfg.maxTokens)
         case NothingLeft => state == Done && stopNote == QueueEmpty
         case GoalMet => state == Done && stopNote == GoalReached
         case AllRounds => state == Done && stopNote == RoundsSpent(cfg.maxRounds)
    }

    /** Closes the stop channel; a run that is no longer plainly running keeps its state and note. */
    method LoopStop(reason: string)
      modifies this`stopRequested, this`state, this`stopNote
      ensures stopRequested
      ensures old(state) == Running ==> state == Stopping && stopNote == Requested(reason)
      ensures old(state) != Running ==> state == old(state) && stopNote == old(stopNote)
    {
      stopRequested := true;
      if state == Running {
        state := Stopping;
        stopNote := Requested(reason);
      }
    }

    /** A LoopStop call that lands here. */
    method Land(stop: bool, reason: string)
      requires Going()
      modifies this`stopRequested, this`state, this`stopNote
      ensures Going() && View() == old(View()).(stop := old(stopRequested) || stop)
    {
      if stop {
        LoopStop(reason);
      }
    }

    /** Adds the round's record, with what the round's usage counted. */
    method Append(rec: Record, usage: int)
      requires tokensUsed == Sum(spent)
      modifies this`timeline, this`tokensUsed, this`spent
      ensures tokensUsed == Sum(spent)
      ensures timeline == old(timeline) + [rec] && spent == old(spent) + [Counted(usage)]
    {
      ghost var counted := if usage > 0 then usage else 0;
      OneMoreSum(spent, counted);
      if usage > 0 {
        tokensUsed := tokensUsed + usage;
      }
      spent := spent + [counted];
      timeline := timeline + [rec];
    }

    /** The checks at the top of a round. */
    method Start(input: RoundInput) returns (ended: bool)
      requires Going() && (input.stopBefore ==> stopRequested)
      modifies this`state, this`stopNote, this`cause
      ensures View() == old(View()).(cause := CauseAtTop(cfg, old(View()), input))
      ensures ended == cause.Some? && if ended then Over() else Going()
    {
      ended := true;
      if stopRequested {
        cause := Some(StopSeen);
      } else if input.pastEnd {
        state, stopNote, cause := Done, WindowOver, Some(WindowPassed);
      } else if cfg.maxTokens > 0 && tokensUsed >= cfg.maxTokens {
        state, stopNote, cause := Done, BudgetSpent(tokensUsed, cfg.maxTokens), Some(TokensSpent);
      } else {
        ended := false;
      }
    }

    /** The second clean scan: the round keeps its record and the run ends well. */
    method EndQuiet(input: RoundInput, rec: Record)
      requires tokensUsed == Sum(spent) && cleanScans == CLEAN_SCAN_LIMIT
      requires rec == StoppedRecord(cfg, input, |timeline| + 1) && input.scan == Blank
      modifies this`timeline, this`tokensUsed, this`spent, this`state, this`stopNote, this`cause
      ensures Over() && View() == With(old(View()), QuietRecord(|old(timeline)| + 1), 0, stopRequested, Some(NothingLeft))
    {
      Append(rec.(notes := [NothingNew(cleanScans)]), 0);
      state, stopNote, cause := Done, QueueEmpty, Some(NothingLeft);
    }

    /** The sensor: the round's record is begun, and the clean scans are counted. */
    method Scanned(input: RoundInput) returns (quiet: bool, rec: Record)
      requires Going()
      modifies this`cleanScans, this`scans
      ensures scans == ScansAfter(cfg, old(scans), input) && rec == StoppedRecord(cfg, input, |timeline| + 1)
      ensures quiet == QueueEmptied(cfg, scans, input)
      ensures if quiet then cleanScans == CLEAN_SCAN_LIMIT && input.scan == Blank else Going()
    {
      rec, quiet := Record(|timeline| + 1, [], Skipped, []), false;
      if cfg.exploratory && cfg.hasSensor {
        OneMoreScan(scans, input.scan);
        scans := scans + [input.scan];
        match input.scan
        case Failed => rec := rec.(notes := [SensorFailed]);
        case Blank =>
          cleanScans := cleanScans + 1;
          quiet := cleanScans >= CLEAN_SCAN_LIMIT;
        case Found => cleanScans := 0;
      }
    }

    /** The sensor step: the second clean scan ends the run. */
    method Sense(input: RoundInput) returns (ended: bool, rec: Record)
      requires Going()
      modifies this`cleanScans, this`scans, this`timeline, this`tokensUsed, this`spent, this`state, this`stopNote, this`cause
      ensures scans == ScansAfter(cfg, old(scans), input) && ended == QueueEmptied(cfg, scans, input)
      ensures if ended then
                Over() && View() == With(old(View()).(scans := scans), QuietRecord(|old(timeline)| + 1), 0, stopRequested, Some(NothingLeft))
              else
                Going() && View() == old(View()).(scans := scans) && rec == StoppedRecord(cfg, input, |timeline| + 1)
    {
      ended, rec := Scanned(input);
      if ended {
        EndQuiet(input, rec);
      }
    }

    /** A stop seen inside a round: the round keeps its record, unverified. */
    method StopHere(rec: Record)
      requires Going() && stopRequested
      modifies this`timeline, this`tokensUsed, this`spent, this`cause
      ensures Over() && View() == With(old(View()), rec, 0, true, Some(StopSeen))
    {
      Append(rec, 0);
      cause := Some(StopSeen);
    }

    /** The breaker: the record of the third failure in a row is the run's last. */
    method Trip(rec: Record)
      requires cause.None? && StopShows() && tokensUsed == Sum(spent)
      modifies this`timeline, this`tokensUsed, this`spent, this`state, this`cause
      ensures Over() && View() == With(old(View()), rec, 0, stopRequested, Some(BreakerOpen))
    {
      Append(rec, 0);
      state, cause := Aborted, Some(BreakerOpen);
    }

    /** Verification, and roll back on failure: the record is the one their outcomes ask for. */
    method Verified(input: RoundInput, rec: Record) returns (out: Record)
      requires Going() && rec == StoppedRecord(cfg, input, |timeline| + 1)
      modifies this`noProgress
      ensures out == JudgedRecord(cfg, input, |timeline| + 1) && noProgress == TrailingFails(timeline + [out])
      ensures noProgress <= BREAKER_LIMIT && (noProgress == BREAKER_LIMIT ==> out.verify == FailRolledBack)
    {
      OneMoreFail(timeline, JudgedRecord(cfg, input, |timeline| + 1));
      if cfg.readOnly || !cfg.hasVerify {
        out := rec.(notes := [ReadOnlyPatrol]);
      } else {
        out := rec.(changed := input.changed);
        if input.verifyOk {
          out := out.(verify := Pass);
          noProgress := 0;
        } else {
          out := out.(verify := FailRolledBack);
          if !input.rollbackOk {
            out := out.(notes := [RollbackFailed]);
          }
          noProgress := noProgress + 1;
        }
      }
    }

    /** Verification, roll back on failure, and the breaker: the third failure in a row ends the run. */
    method Judge(input: RoundInput, rec: Record) returns (ended: bool, out: Record)
      requires Going() && rec == StoppedRecord(cfg, input, |timeline| + 1)
      modifies this`noProgress, this`timeline, this`tokensUsed, this`spent, this`state, this`cause
      ensures out == JudgedRecord(cfg, input, |old(timeline)| + 1)
      ensures ended <==> TrailingFails(old(timeline) + [out]) >= BREAKER_LIMIT
      ensures if ended then
                Over() && View() == With(old(View()), TrippedRecord(cfg, input, |old(timeline)| + 1), 0, stopRequested, Some(BreakerOpen))
              else
                View() == old(View()) && noProgress == TrailingFails(timeline + [out])
      ensures !ended ==> state == old(state) && tokensUsed == old(tokensUsed)
    {
      out := Verified(input, rec);
      ended := noProgress >= BREAKER_LIMIT;
      if ended {
        Trip(out.(notes := out.notes + [BreakerTripped(noProgress)]));
      }
    }

    /** The goal is reached. */
    method EndWell()
      requires tokensUsed == Sum(spent)
      modifies this`state, this`stopNote, this`cause
      ensures Over() && View() == old(View()).(cause := Some(GoalMet))
    {
      state, stopNote, cause := Done, GoalReached, Some(GoalMet);
    }

    /** The pause between two rounds. */
    method Pause(input: RoundInput, reason: string) returns (ended: bool)
      requires Going()
      modifies this`state, this`stopNote, this`stopRequested, this`cause
      ensures var stop := old(stopRequested) || (cfg.intervalSeconds > 0 && input.stopInPause);
              View() == old(View()).(stop := stop, cause := if cfg.intervalSeconds > 0 && stop then Some(StopSeen) else None)
      ensures ended == cause.Some? && if ended then Over() else Going()
    {
      ended := false;
      if cfg.intervalSeconds > 0 {
        Land(input.stopInPause, reason);
        if stopRequested {
          cause := Some(StopSeen);
          ended := true;
        }
      }
    }

    /** The end of a judged round: usage, record, goal check, pause. */
    method Close(input: RoundInput, rec: Record, reason: string) returns (ended: bool)
      requires cause.None? && StopShows() && tokensUsed == Sum(spent) && cleanScans == CleanScans(scans) < CLEAN_SCAN_LIMIT
      requires rec == JudgedRecord(cfg, input, |timeline| + 1) && stopRequested == input.stopInVerify
      requires noProgress == TrailingFails(timeline + [rec]) < BREAKER_LIMIT
      modifies this`timeline, this`tokensUsed, this`spent, this`state, this`stopNote, this`stopRequested, this`cause
      ensures View() == AfterTurn(cfg, old(View()), input)
      ensures ended == cause.Some? && if ended then Over() else Going()
    {
      ClosesAs(cfg, View(), input, rec);
      OneMoreFail(timeline, rec);
      Append(rec, input.usage);
      if !cfg.exploratory && rec.verify == Pass {
        EndWell();
        return true;
      }
      ended := Pause(input, reason);
    }

    /** From the sensor on: a stop seen before or during the agent's turn ends the round unverified. */
    method Turn(input: RoundInput, rec: Record, reason: string) returns (ended: bool)
      requires Going() && rec == StoppedRecord(cfg, input, |timeline| + 1) && stopRequested == input.stopInScan
      modifies this
      ensures View() == AfterSensor(cfg, old(View()), input)
      ensures ended == cause.Some? && if ended then Over() else Going()
    {
      if stopRequested {
        StopHere(rec);
        return true;
      }
      Land(input.stopInTurn, reason);
      if stopRequested {
        StopHere(rec);
        return true;
      }
      ended := VerifyAndClose(input, rec, reason);
    }

    /** A turn that no stop cut short. */
    method VerifyAndClose(input: RoundInput, rec: Record, reason: string) returns (ended: bool)
      requires Going() && !stopRequested && rec == StoppedRecord(cfg, input, |timeline| + 1)
      modifies this
      ensures View() == AfterTurn(cfg, old(View()), input)
      ensures ended == cause.Some? && if ended then Over() else Going()
    {
      Land(input.stopInVerify, reason);
      var judged;
      ended, judged := Judge(input, rec);
      if !ended {
        ended := Close(input, judged, reason);
      }
    }

    /** The round after its checks: sensor, turn, verification, record, pause. */
    method ScanAndTurn(input: RoundInput, reason: string) returns (ended: bool)
      requires Going() && stopRequested == input.stopInScan
      modifies this
      ensures View() == AfterScan(cfg, old(View()).(scans := ScansAfter(cfg, old(scans), input)), input)
      ensures ended == cause.Some? && if ended then Over() else Going()
    {
      var rec;
      ended, rec := Sense(input);
      if !ended {
        ended := Turn(input, rec, reason);
      }
    }

    /** One round. */
    method RunRound(input: RoundInput, reason: string) returns (ended: bool)
      requires Going()
      modifies this
      ensures View() == AfterRound(cfg, old(View()), input)
      ensures ended == cause.Some? && if ended then Over() else Going()
    {
      Land(input.stopBefore, reason);
      ended := Start(input);
      if !ended {
        StopInScanIsRead(cfg, View().(scans := ScansAfter(cfg, scans, input)), input);
        Land(input.stopInScan, reason);
        ended := ScanAndTurn(input, reason);
      }
    }

    method RunRounds(inputs: seq<RoundInput>, reason: string)
      requires Going() && View() == History([], [], [], stopRequested, None) && 0 <= cfg.maxRounds <= |inputs|
      modifies this
      ensures View() == Outcome(cfg, inputs, old(stopRequested)) && Over()
    {
      ghost var stop := stopRequested;
      var ended := false;
      var round := 1;
      while round <= cfg.maxRounds && !ended
        invariant 1 <= round <= cfg.maxRounds + 1
        invariant if ended then Over() && View() == Rounds(cfg, inputs, stop, cfg.maxRounds)
                  else Going() && View() == Rounds(cfg, inputs, stop, round - 1)
        decreases !ended, cfg.maxRounds - round
      {
        ended := RunRound(inputs[round - 1], reason);
        if ended {
          EndedStays(cfg, inputs, stop, round, cfg.maxRounds);
        }
        round := round + 1;
      }
      if !ended {
        state, stopNote, cause := Done, RoundsSpent(cfg.maxRounds), Some(AllRounds);
      }
    }

    /** The deferred end of every run: a run that was not aborted is done, and the report is built. */
    method Conclude()
      requires Over()
      modifies this`state, this`report
      ensures state == if cause == Some(BreakerOpen) then Aborted else Done
      ensures report.roundsRun == |timeline| == report.passed + report.rolledBack + report.skipped
      ensures report.changedFiles == |ChangedBy(timeline)| && report.lastVerify == LastVerdict(timeline)
      ensures report.completed <==> state == Done
    {
      if state == Running || state == Stopping {
        state := Done;
      }
      report := BuildLoopReport(timeline, state);
    }

    method RunToTheEnd(inputs: seq<RoundInput>, reason: string)
      requires Going() && View() == History([], [], [], stopRequested, None) && 0 <= cfg.maxRounds <= |inputs|
      modifies this
      ensures View() == Outcome(cfg, inputs, old(stopRequested)) && cause.Some? && tokensUsed == Sum(spent)
      ensures state == if cause == Some(BreakerOpen) then Aborted else Done
      ensures NoteShows()
      ensures report.roundsRun == |timeline| == report.passed + report.rolledBack + report.skipped
    {
      RunRounds(inputs, reason);
      Conclude();
    }

    /** The note of a run that is over, after its cause. */
    ghost predicate NoteShows()
      reads this
    {
      && (stopNote == WindowOver <==> cause == Some(WindowPassed))
      && (stopNote == BudgetSpent(tokensUsed, cfg.maxTokens) <==> cause == Some(TokensSpent))
      && (stopNote == QueueEmpty <==> cause == Some(NothingLeft))
      && (stopNote == GoalReached <==> cause == Some(GoalMet))
      && (stopNote == RoundsSpent(cfg.maxRounds) <==> cause == Some(AllRounds))
      && (cause == Some(StopSeen) ==> stopNote.Requested?)
    }

    /** loopExecute: the run's records, counted usage, scans and cause are exactly the outcome of its inputs, and
        its state, note and token total show it. */
    method LoopExecute(inputs: seq<RoundInput>, reason: string)
      requires Going() && View() == History([], [], [], stopRequested, None) && 0 <= cfg.maxRounds <= |inputs|
      modifies this
      ensures View() == Outcome(cfg, inputs, old(stopRequested)) && cause.Some? && tokensUsed == Sum(spent)
      ensures state == if cause == Some(BreakerOpen) then Aborted else Done
      ensures NoteShows()
      ensures state == Aborted <==>
                |timeline| >= 3 && forall i :: |timeline| - 3 <= i < |timeline| ==> timeline[i].verify == FailRolledBack
      ensures !cfg.exploratory ==> forall i :: 0 <= i < |timeline| && timeline[i].verify == Pass ==> i == |timeline| - 1
      ensures cfg.maxTokens > 0 ==> tokensUsed < cfg.maxTokens + if spent == [] then 0 else spent[|spent| - 1]
      ensures report.roundsRun == |timeline| == report.passed + report.rolledBack + report.skipped
    {
      RunToTheEnd(inputs, reason);
      LimitsHold(cfg, inputs, old(stopRequested));
    }
  }

  /** A stop that lands while the sensor runs is in the round's input already. */
  lemma StopInScanIsRead(cfg: Config, h: History, input: RoundInput)
    ensures AfterScan(cfg, h.(stop := input.stopInScan), input) == AfterScan(cfg, h, input)
  {}

  /** A run that has ended stays as it is. */
  lemma {:induction false} EndedStays(cfg: Config, inputs: seq<RoundInput>, stop: bool, k: nat, n: nat)
    requires k <= n <= |inputs| && Rounds(cfg, inputs, stop, k).cause.Some?
    ensures Rounds(cfg, inputs, stop, n) == Rounds(cfg, inputs, stop, k)
  {
    if k < n {
      EndedStays(cfg, inputs, stop, k, n - 1);
    }
  }
}
