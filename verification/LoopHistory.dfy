/** What a supervised loop run does with its rounds, read off histories alone: the records written, the usage
    counted, the scans made and why the run ended. Everything outside the engine is an input. */
module LoopHistory {
  import opened Wrappers

  datatype Verify = Pass | FailRolledBack | Skipped

  datatype Note = SensorFailed | NothingNew(scans: nat) | ReadOnlyPatrol | RollbackFailed | BreakerTripped(fails: nat)

  datatype Record = Record(round: int, changed: seq<string>, verify: Verify, notes: seq<Note>)

  datatype Config = Config(
    exploratory: bool, hasSensor: bool, hasVerify: bool, readOnly: bool,
    maxRounds: int, maxTokens: int, intervalSeconds: int)

  datatype Scan = Failed | Blank | Found

  /** What the outside does in one round. The stop fields say where a LoopStop call lands. */
  datatype RoundInput = RoundInput(
    stopBefore: bool, pastEnd: bool, scan: Scan, stopInScan: bool, stopInTurn: bool,
    changed: seq<string>, verifyOk: bool, rollbackOk: bool, stopInVerify: bool, usage: int, stopInPause: bool)

  /** Why a run ended. */
  datatype Cause = StopSeen | WindowPassed | TokensSpent | NothingLeft | BreakerOpen | GoalMet | AllRounds

  /** A run so far: its records, the usage counted for each, the scans made, whether a stop was requested and,
      once it is over, why. */
  datatype History = History(timeline: seq<Record>, spent: seq<int>, scans: seq<Scan>, stop: bool, cause: Option<Cause>)

  const BREAKER_LIMIT := 3
  const CLEAN_SCAN_LIMIT := 2

  // ---- reading a history ----

  function TrailingFails(timeline: seq<Record>): nat {
    if timeline == [] || timeline[|timeline| - 1].verify != FailRolledBack then 0
    else 1 + TrailingFails(timeline[..|timeline| - 1])
  }

  lemma {:induction false} TrailingFailsMeansLastOnes(timeline: seq<Record>, n: nat)
    ensures TrailingFails(timeline) >= n <==>
            |timeline| >= n && forall i :: |timeline| - n <= i < |timeline| ==> timeline[i].verify == FailRolledBack
  {
    if n > 0 && timeline != [] {
      var init := timeline[..|timeline| - 1];
      TrailingFailsMeansLastOnes(init, n - 1);
      if timeline[|timeline| - 1].verify == FailRolledBack && TrailingFails(init) >= n - 1 {
        assert forall i :: |timeline| - n <= i < |timeline| - 1 ==> timeline[i] == init[i];
      }
      if |timeline| >= n && forall i :: |timeline| - n <= i < |timeline| ==> timeline[i].verify == FailRolledBack {
        assert forall i :: |init| - (n - 1) <= i < |init| ==> init[i] == timeline[i];
      }
    }
  }

  lemma OneMoreFail(timeline: seq<Record>, r: Record)
    ensures TrailingFails(timeline + [r]) == if r.verify == FailRolledBack then TrailingFails(timeline) + 1 else 0
  {
    assert (timeline + [r])[..|timeline|] == timeline;
  }

  function Sum(s: seq<int>): int {
    if s == [] then 0 else Sum(s[..|s| - 1]) + s[|s| - 1]
  }

  lemma OneMoreSum(s: seq<int>, x: int)
    ensures Sum(s + [x]) == Sum(s) + x
  {
    assert (s + [x])[..|s|] == s;
  }

  /** Clean scans since the last one that found something; a failed scan neither counts nor resets. */
  function CleanScans(scans: seq<Scan>): nat {
    if scans == [] then 0
    else match scans[|scans| - 1]
      case Found => 0
      case Blank => CleanScans(scans[..|scans| - 1]) + 1
      case Failed => CleanScans(scans[..|scans| - 1])
  }

  lemma OneMoreScan(scans: seq<Scan>, x: Scan)
    ensures CleanScans(scans + [x]) ==
            match x case Found => 0 case Blank => CleanScans(scans) + 1 case Failed => CleanScans(scans)
  {
    assert (scans + [x])[..|scans|] == scans;
  }

  // ---- what one round does ----

  predicate Scanning(cfg: Config) { cfg.exploratory && cfg.hasSensor }

  predicate Verifies(cfg: Config) { !cfg.readOnly && cfg.hasVerify }

  function Verdict(cfg: Config, input: RoundInput): Verify {
    if !Verifies(cfg) then Skipped else if input.verifyOk then Pass else FailRolledBack
  }

  function Counted(usage: int): int { if usage > 0 then usage else 0 }

  function SensorNotes(cfg: Config, input: RoundInput): seq<Note> {
    if Scanning(cfg) && input.scan == Failed then [SensorFailed] else []
  }

  /** The record of a round that was verified, or that there was nothing to verify in. */
  function JudgedRecord(cfg: Config, input: RoundInput, round: int): Record {
    if !Verifies(cfg) then Record(round, [], Skipped, [ReadOnlyPatrol])
    else Record(round, input.changed, Verdict(cfg, input),
                if !input.verifyOk && !input.rollbackOk then [RollbackFailed] else SensorNotes(cfg, input))
  }

  /** The record of a round that a stop cut short. */
  function StoppedRecord(cfg: Config, input: RoundInput, round: int): Record {
    Record(round, [], Skipped, SensorNotes(cfg, input))
  }

  function QuietRecord(round: int): Record {
    Record(round, [], Skipped, [NothingNew(CLEAN_SCAN_LIMIT)])
  }

  function TrippedRecord(cfg: Config, input: RoundInput, round: int): Record {
    var rec := JudgedRecord(cfg, input, round);
    rec.(notes := rec.notes + [BreakerTripped(BREAKER_LIMIT)])
  }

  /** The checks at the top of a round. */
  function CauseAtTop(cfg: Config, h: History, input: RoundInput): Option<Cause> {
    if h.stop || input.stopBefore then Some(StopSeen)
    else if input.pastEnd then Some(WindowPassed)
    else if cfg.maxTokens > 0 && Sum(h.spent) >= cfg.maxTokens then Some(TokensSpent)
    else None
  }

  function With(h: History, rec: Record, usage: int, stop: bool, cause: Option<Cause>): History {
    History(h.timeline + [rec], h.spent + [usage], h.scans, stop, cause)
  }

  function AfterRound(cfg: Config, h: History, input: RoundInput): History
    requires h.cause.None?
  {
    var top := CauseAtTop(cfg, h, input);
    if top.Some? then h.(stop := h.stop || input.stopBefore, cause := top)
    else AfterScan(cfg, h.(scans := ScansAfter(cfg, h.scans, input)), input)
  }

  function ScansAfter(cfg: Config, scans: seq<Scan>, input: RoundInput): seq<Scan> {
    if Scanning(cfg) then scans + [input.scan] else scans
  }

  predicate QueueEmptied(cfg: Config, scans: seq<Scan>, input: RoundInput) {
    Scanning(cfg) && input.scan == Blank && CleanScans(scans) >= CLEAN_SCAN_LIMIT
  }

  /** The rest of the round: the second clean scan ends the run. */
  function AfterScan(cfg: Config, h: History, input: RoundInput): History {
    if QueueEmptied(cfg, h.scans, input) then
      With(h, QuietRecord(|h.timeline| + 1), 0, input.stopInScan, Some(NothingLeft))
    else AfterSensor(cfg, h, input)
  }

  /** A stop before or during the agent's turn ends the round unverified. */
  function AfterSensor(cfg: Config, h: History, input: RoundInput): History {
    if input.stopInScan || input.stopInTurn then
      With(h, StoppedRecord(cfg, input, |h.timeline| + 1), 0, true, Some(StopSeen))
    else AfterTurn(cfg, h, input)
  }

  /** Verification, the breaker, the goal and the pause. */
  function AfterTurn(cfg: Config, h: History, input: RoundInput): History {
    var round := |h.timeline| + 1;
    var rec := JudgedRecord(cfg, input, round);
    if TrailingFails(h.timeline + [rec]) >= BREAKER_LIMIT then
      With(h, TrippedRecord(cfg, input, round), 0, input.stopInVerify, Some(BreakerOpen))
    else if !cfg.exploratory && rec.verify == Pass then
      With(h, rec, Counted(input.usage), input.stopInVerify, Some(GoalMet))
    else
      var stop := input.stopInVerify || (cfg.intervalSeconds > 0 && input.stopInPause);
      With(h, rec, Counted(input.usage), stop, if cfg.intervalSeconds > 0 && stop then Some(StopSeen) else None)
  }

  /** The run after at most n rounds. */
  function Rounds(cfg: Config, inputs: seq<RoundInput>, stop: bool, n: nat): History
    requires n <= |inputs|
  {
    if n == 0 then History([], [], [], stop, None)
    else
      var h := Rounds(cfg, inputs, stop, n - 1);
      if h.cause.Some? then h else AfterRound(cfg, h, inputs[n - 1])
  }

  /** A whole run. stop says that a stop was requested before it began. */
  function Outcome(cfg: Config, inputs: seq<RoundInput>, stop: bool): History
    requires 0 <= cfg.maxRounds <= |inputs|
  {
    var h := Rounds(cfg, inputs, stop, cfg.maxRounds);
    if h.cause.Some? then h else h.(cause := Some(AllRounds))
  }

  // ---- what holds of every run ----

  /** Round i went on to the next: nothing in its input ends a run. */
  predicate WentOn(cfg: Config, input: RoundInput) {
    && !input.stopBefore && !input.pastEnd && !input.stopInScan && !input.stopInTurn
    && (cfg.intervalSeconds > 0 ==> !input.stopInVerify && !input.stopInPause)
    && !GoalIn(cfg, input)
  }

  /** Record and usage are those of a round that was judged and closed. */
  predicate Closed(cfg: Config, input: RoundInput, round: int, rec: Record, usage: int) {
    rec == JudgedRecord(cfg, input, round) && usage == Counted(input.usage)
  }

  /** A stop is pending when the round after k closed ones begins. */
  predicate Pending(cfg: Config, inputs: seq<RoundInput>, stop: bool, k: nat)
    requires k <= |inputs|
  {
    if k == 0 then stop else inputs[k - 1].stopInVerify && cfg.intervalSeconds <= 0
  }

  /** The round's verification ran and succeeded. */
  predicate VerifiedWell(cfg: Config, input: RoundInput) {
    !cfg.readOnly && cfg.hasVerify && input.verifyOk
  }

  predicate VerifiedBadly(cfg: Config, input: RoundInput) {
    !cfg.readOnly && cfg.hasVerify && !input.verifyOk
  }

  predicate GoalIn(cfg: Config, input: RoundInput) {
    !cfg.exploratory && VerifiedWell(cfg, input)
  }

  predicate AllClosed(cfg: Config, inputs: seq<RoundInput>, h: History, k: nat)
    requires |h.timeline| == |h.spent| <= |inputs| && k <= |h.timeline|
  {
    forall i :: 0 <= i < k ==> Closed(cfg, inputs[i], i + 1, h.timeline[i], h.spent[i])
  }

  /** The first k rounds were closed and nothing in them ended the run. */
  predicate AllWentOn(cfg: Config, inputs: seq<RoundInput>, h: History, k: nat)
    requires |h.timeline| == |h.spent| <= |inputs| && k <= |h.timeline|
  {
    AllClosed(cfg, inputs, h, k) && forall i :: 0 <= i < k ==> WentOn(cfg, inputs[i])
  }

  /** No stop was requested up to the top of round k. */
  predicate Unstopped(inputs: seq<RoundInput>, h: History, k: nat)
    requires k < |inputs|
  {
    !h.stop && !inputs[k].stopBefore && (k > 0 ==> !inputs[k - 1].stopInVerify)
  }

  /** The last record and the cause, in terms of the inputs. A stop comes before the window, and that before the
      budget. */
  predicate EndFits(cfg: Config, inputs: seq<RoundInput>, stop: bool, h: History)
    requires |h.timeline| == |h.spent| <= |inputs|
  {
    var k := |h.timeline|;
    match h.cause
    case None => AllWentOn(cfg, inputs, h, k) && h.stop == Pending(cfg, inputs, stop, k)
    case Some(cause) =>
      match cause
      case WindowPassed => AllWentOn(cfg, inputs, h, k) && k < |inputs| && Unstopped(inputs, h, k) && inputs[k].pastEnd
      case TokensSpent =>
        && AllWentOn(cfg, inputs, h, k) && k < |inputs| && Unstopped(inputs, h, k) && !inputs[k].pastEnd
        && cfg.maxTokens > 0 && Sum(h.spent) >= cfg.maxTokens
      case AllRounds => AllWentOn(cfg, inputs, h, k) && k == cfg.maxRounds
      case StopSeen => StopFits(cfg, inputs, stop, h)
      case NothingLeft => k > 0 && Scanning(cfg) && inputs[k - 1].scan == Blank && LastIs(h, QuietRecord(k))
      case BreakerOpen =>
        k > 0 && VerifiedBadly(cfg, inputs[k - 1]) && LastIs(h, TrippedRecord(cfg, inputs[k - 1], k))
      case GoalMet => k > 0 && GoalIn(cfg, inputs[k - 1]) && AllClosed(cfg, inputs, h, k)
  }

  /** The last record, of a round whose usage was not counted. */
  predicate LastIs(h: History, rec: Record) {
    h.timeline != [] && h.spent != [] && h.timeline[|h.timeline| - 1] == rec && h.spent[|h.spent| - 1] == 0
  }

  /** A stop is seen at the top of a round, within one, or in the pause after one. */
  predicate StopFits(cfg: Config, inputs: seq<RoundInput>, stop: bool, h: History)
    requires |h.timeline| == |h.spent| <= |inputs|
  {
    var k := |h.timeline|;
    || (k < |inputs| && (Pending(cfg, inputs, stop, k) || inputs[k].stopBefore) && AllWentOn(cfg, inputs, h, k))
    || (k > 0 && (inputs[k - 1].stopInScan || inputs[k - 1].stopInTurn) && LastIs(h, StoppedRecord(cfg, inputs[k - 1], k)))
    || (k > 0 && cfg.intervalSeconds > 0 && (inputs[k - 1].stopInVerify || inputs[k - 1].stopInPause)
        && !inputs[k - 1].stopInScan && !inputs[k - 1].stopInTurn && !GoalIn(cfg, inputs[k - 1]) && AllClosed(cfg, inputs, h, k))
  }

  /** All rounds but the last went on, and no round started after the window or under a stop. */
  predicate Follows(cfg: Config, inputs: seq<RoundInput>, h: History)
    requires |h.timeline| == |h.spent| <= |inputs|
  {
    var k := |h.timeline|;
    && (k > 0 ==> AllWentOn(cfg, inputs, h, k - 1))
    && (forall i :: 0 <= i < k ==> !inputs[i].stopBefore && !inputs[i].pastEnd)
  }

  predicate Numbered(timeline: seq<Record>) {
    forall i :: 0 <= i < |timeline| ==> timeline[i].round == i + 1
  }

  /** Every round started while the total so far was below the token budget. */
  predicate Budgeted(cfg: Config, spent: seq<int>) {
    && (forall i :: 0 <= i < |spent| ==> spent[i] >= 0)
    && (cfg.maxTokens > 0 ==> forall i :: 0 <= i < |spent| ==> Sum(spent[..i]) < cfg.maxTokens)
  }

  /** The scans made are those of the first k rounds. */
  predicate ScansTo(cfg: Config, inputs: seq<RoundInput>, scans: seq<Scan>, k: nat)
    requires k <= |inputs|
  {
    if Scanning(cfg) then |scans| == k && forall i :: 0 <= i < k ==> scans[i] == inputs[i].scan else scans == []
  }

  /** The breaker opens at the third failure in a row, the queue counts as empty at the second clean scan. */
  predicate Limits(h: History) {
    && (h.cause == Some(BreakerOpen) <==> TrailingFails(h.timeline) >= BREAKER_LIMIT)
    && (h.cause == Some(NothingLeft) <==> CleanScans(h.scans) >= CLEAN_SCAN_LIMIT)
    && CleanScans(h.scans) <= CLEAN_SCAN_LIMIT
  }

  predicate Sound(cfg: Config, inputs: seq<RoundInput>, stop: bool, h: History) {
    && |h.timeline| == |h.spent| <= |inputs|
    && Numbered(h.timeline) && Budgeted(cfg, h.spent) && ScansTo(cfg, inputs, h.scans, |h.timeline|) && Limits(h)
    && Follows(cfg, inputs, h) && EndFits(cfg, inputs, stop, h)
  }

  // ---- one round keeps it ----

  lemma TopKeepsSound(cfg: Config, inputs: seq<RoundInput>, stop: bool, h: History)
    requires Sound(cfg, inputs, stop, h) && h.cause.None? && |h.timeline| < |inputs|
    requires CauseAtTop(cfg, h, inputs[|h.timeline|]).Some?
    ensures Sound(cfg, inputs, stop, AfterRound(cfg, h, inputs[|h.timeline|]))
  {
    var e := AfterRound(cfg, h, inputs[|h.timeline|]);
    assert e.timeline == h.timeline && e.spent == h.spent && e.scans == h.scans;
  }

  /** One more round, with whatever record, keeps the first ones. */
  lemma StillWentOn(cfg: Config, inputs: seq<RoundInput>, h: History, e: History)
    requires |h.timeline| == |h.spent| < |inputs| && |e.timeline| == |e.spent| == |h.timeline| + 1
    requires h.timeline == e.timeline[..|h.timeline|] && h.spent == e.spent[..|h.timeline|]
    requires AllWentOn(cfg, inputs, h, |h.timeline|)
    ensures AllWentOn(cfg, inputs, e, |h.timeline|)
  {
    forall i | 0 <= i < |h.timeline|
      ensures Closed(cfg, inputs[i], i + 1, e.timeline[i], e.spent[i])
    {
      assert e.timeline[i] == h.timeline[i] && e.spent[i] == h.spent[i];
      assert Closed(cfg, inputs[i], i + 1, h.timeline[i], h.spent[i]);
    }
  }

  lemma StillBudgeted(cfg: Config, spent: seq<int>, x: int)
    requires Budgeted(cfg, spent) && x >= 0 && (cfg.maxTokens > 0 ==> Sum(spent) < cfg.maxTokens)
    ensures Budgeted(cfg, spent + [x])
  {
    var more := spent + [x];
    forall i | 0 <= i < |more| && cfg.maxTokens > 0
      ensures Sum(more[..i]) < cfg.maxTokens
    {
      if i < |spent| {
        assert more[..i] == spent[..i];
      } else {
        assert more[..i] == spent;
      }
    }
  }

  /** A round that got past the checks at the top, in which the sensor has run. */
  predicate InRound(cfg: Config, inputs: seq<RoundInput>, stop: bool, h: History) {
    && |h.timeline| == |h.spent| < |inputs|
    && h.cause.None? && !h.stop && AllWentOn(cfg, inputs, h, |h.timeline|)
    && Numbered(h.timeline) && Budgeted(cfg, h.spent) && (cfg.maxTokens > 0 ==> Sum(h.spent) < cfg.maxTokens)
    && TrailingFails(h.timeline) < BREAKER_LIMIT
    && (forall i :: 0 <= i <= |h.timeline| ==> !inputs[i].stopBefore && !inputs[i].pastEnd)
    && ScansTo(cfg, inputs, h.scans, |h.timeline| + 1)
    && CleanScans(h.scans) <= CLEAN_SCAN_LIMIT
    && (CleanScans(h.scans) == CLEAN_SCAN_LIMIT ==> Scanning(cfg) && inputs[|h.timeline|].scan == Blank)
  }

  lemma SensorEntersRound(cfg: Config, inputs: seq<RoundInput>, stop: bool, h: History)
    requires Sound(cfg, inputs, stop, h) && h.cause.None? && |h.timeline| < |inputs|
    requires CauseAtTop(cfg, h, inputs[|h.timeline|]).None?
    ensures InRound(cfg, inputs, stop, h.(scans := ScansAfter(cfg, h.scans, inputs[|h.timeline|])))
  {
    OneMoreScan(h.scans, inputs[|h.timeline|].scan);
  }

  /** What a round adds keeps the run sound if its end fits. */
  lemma RoundKeepsSound(cfg: Config, inputs: seq<RoundInput>, stop: bool, h: History, rec: Record, usage: int, stopped: bool, cause: Option<Cause>)
    requires InRound(cfg, inputs, stop, h) && rec.round == |h.timeline| + 1 && usage >= 0
    requires Limits(With(h, rec, usage, stopped, cause)) && EndFits(cfg, inputs, stop, With(h, rec, usage, stopped, cause))
    ensures Sound(cfg, inputs, stop, With(h, rec, usage, stopped, cause))
  {
    var e := With(h, rec, usage, stopped, cause);
    assert e.timeline[..|h.timeline|] == h.timeline && e.spent[..|h.timeline|] == h.spent;
    StillWentOn(cfg, inputs, h, e);
    StillBudgeted(cfg, h.spent, usage);
  }

  lemma QuietKeepsSound(cfg: Config, inputs: seq<RoundInput>, stop: bool, h: History)
    requires InRound(cfg, inputs, stop, h)
    requires QueueEmptied(cfg, h.scans, inputs[|h.timeline|])
    ensures Sound(cfg, inputs, stop, AfterScan(cfg, h, inputs[|h.timeline|]))
  {
    var rec := QuietRecord(|h.timeline| + 1);
    OneMoreFail(h.timeline, rec);
    RoundKeepsSound(cfg, inputs, stop, h, rec, 0, inputs[|h.timeline|].stopInScan, Some(NothingLeft));
  }

  lemma StopEndFits(cfg: Config, inputs: seq<RoundInput>, stop: bool, h: History)
    requires InRound(cfg, inputs, stop, h) && (inputs[|h.timeline|].stopInScan || inputs[|h.timeline|].stopInTurn)
    ensures var rec := StoppedRecord(cfg, inputs[|h.timeline|], |h.timeline| + 1);
            EndFits(cfg, inputs, stop, With(h, rec, 0, true, Some(StopSeen)))
  {
    var e := With(h, StoppedRecord(cfg, inputs[|h.timeline|], |h.timeline| + 1), 0, true, Some(StopSeen));
    assert StopFits(cfg, inputs, stop, e);
  }

  lemma StopKeepsSound(cfg: Config, inputs: seq<RoundInput>, stop: bool, h: History)
    requires InRound(cfg, inputs, stop, h) && CleanScans(h.scans) < CLEAN_SCAN_LIMIT
    requires inputs[|h.timeline|].stopInScan || inputs[|h.timeline|].stopInTurn
    ensures Sound(cfg, inputs, stop, AfterScan(cfg, h, inputs[|h.timeline|]))
  {
    var rec := StoppedRecord(cfg, inputs[|h.timeline|], |h.timeline| + 1);
    OneMoreFail(h.timeline, rec);
    StopEndFits(cfg, inputs, stop, h);
    RoundKeepsSound(cfg, inputs, stop, h, rec, 0, true, Some(StopSeen));
  }

  lemma TripKeepsSound(cfg: Config, inputs: seq<RoundInput>, stop: bool, h: History)
    requires InRound(cfg, inputs, stop, h) && CleanScans(h.scans) < CLEAN_SCAN_LIMIT
    requires TrailingFails(h.timeline + [JudgedRecord(cfg, inputs[|h.timeline|], |h.timeline| + 1)]) >= BREAKER_LIMIT
    ensures Sound(cfg, inputs, stop, AfterTurn(cfg, h, inputs[|h.timeline|]))
  {
    var input := inputs[|h.timeline|];
    OneMoreFail(h.timeline, JudgedRecord(cfg, input, |h.timeline| + 1));
    var rec := TrippedRecord(cfg, input, |h.timeline| + 1);
    OneMoreFail(h.timeline, rec);
    RoundKeepsSound(cfg, inputs, stop, h, rec, 0, input.stopInVerify, Some(BreakerOpen));
  }

  /** A round that closes: all its predecessors went on, and its own record and usage are its input's. */
  lemma ClosedRound(cfg: Config, inputs: seq<RoundInput>, stop: bool, h: History, stopped: bool, cause: Option<Cause>)
    requires InRound(cfg, inputs, stop, h)
    ensures var input := inputs[|h.timeline|];
            var e := With(h, JudgedRecord(cfg, input, |h.timeline| + 1), Counted(input.usage), stopped, cause);
            && AllClosed(cfg, inputs, e, |h.timeline| + 1)
            && (WentOn(cfg, input) ==> AllWentOn(cfg, inputs, e, |h.timeline| + 1))
  {
    var input := inputs[|h.timeline|];
    var e := With(h, JudgedRecord(cfg, input, |h.timeline| + 1), Counted(input.usage), stopped, cause);
    assert e.timeline[..|h.timeline|] == h.timeline && e.spent[..|h.timeline|] == h.spent;
    StillWentOn(cfg, inputs, h, e);
  }

  /** The history after the round was judged and closed. */
  function Judged(cfg: Config, h: History, input: RoundInput, stopped: bool, cause: Option<Cause>): History {
    With(h, JudgedRecord(cfg, input, |h.timeline| + 1), Counted(input.usage), stopped, cause)
  }

  lemma GoalEndFits(cfg: Config, inputs: seq<RoundInput>, stop: bool, h: History, stopped: bool)
    requires InRound(cfg, inputs, stop, h) && GoalIn(cfg, inputs[|h.timeline|])
    ensures EndFits(cfg, inputs, stop, Judged(cfg, h, inputs[|h.timeline|], stopped, Some(GoalMet)))
  {
    ClosedRound(cfg, inputs, stop, h, stopped, Some(GoalMet));
  }

  lemma PauseEndFits(cfg: Config, inputs: seq<RoundInput>, stop: bool, h: History)
    requires InRound(cfg, inputs, stop, h) && !GoalIn(cfg, inputs[|h.timeline|])
    requires !inputs[|h.timeline|].stopInScan && !inputs[|h.timeline|].stopInTurn
    requires cfg.intervalSeconds > 0 && (inputs[|h.timeline|].stopInVerify || inputs[|h.timeline|].stopInPause)
    ensures EndFits(cfg, inputs, stop, Judged(cfg, h, inputs[|h.timeline|], true, Some(StopSeen)))
  {
    var e := Judged(cfg, h, inputs[|h.timeline|], true, Some(StopSeen));
    ClosedRound(cfg, inputs, stop, h, true, Some(StopSeen));
    assert StopFits(cfg, inputs, stop, e);
  }

  lemma OnEndFits(cfg: Config, inputs: seq<RoundInput>, stop: bool, h: History)
    requires InRound(cfg, inputs, stop, h) && !GoalIn(cfg, inputs[|h.timeline|])
    requires !inputs[|h.timeline|].stopInScan && !inputs[|h.timeline|].stopInTurn
    requires cfg.intervalSeconds > 0 ==> !inputs[|h.timeline|].stopInVerify && !inputs[|h.timeline|].stopInPause
    ensures EndFits(cfg, inputs, stop, Judged(cfg, h, inputs[|h.timeline|], inputs[|h.timeline|].stopInVerify, None))
  {
    ClosedRound(cfg, inputs, stop, h, inputs[|h.timeline|].stopInVerify, None);
  }

  /** A judged round that opens no breaker closes: with the goal, with a stop in the pause, or to go on. */
  lemma EndOfClosedRound(cfg: Config, inputs: seq<RoundInput>, stop: bool, h: History)
    requires InRound(cfg, inputs, stop, h)
    requires !inputs[|h.timeline|].stopInScan && !inputs[|h.timeline|].stopInTurn
    requires TrailingFails(h.timeline + [JudgedRecord(cfg, inputs[|h.timeline|], |h.timeline| + 1)]) < BREAKER_LIMIT
    ensures EndFits(cfg, inputs, stop, AfterTurn(cfg, h, inputs[|h.timeline|]))
  {
    var input := inputs[|h.timeline|];
    if GoalIn(cfg, input) {
      GoalEndFits(cfg, inputs, stop, h, input.stopInVerify);
    } else if cfg.intervalSeconds > 0 && (input.stopInVerify || input.stopInPause) {
      PauseEndFits(cfg, inputs, stop, h);
    } else {
      OnEndFits(cfg, inputs, stop, h);
    }
  }

  lemma ClosedShape(cfg: Config, h: History, input: RoundInput)
    requires TrailingFails(h.timeline + [JudgedRecord(cfg, input, |h.timeline| + 1)]) < BREAKER_LIMIT
    ensures var e := AfterTurn(cfg, h, input);
            && e == Judged(cfg, h, input, e.stop, e.cause)
            && (e.cause.None? || e.cause == Some(GoalMet) || e.cause == Some(StopSeen))
            && TrailingFails(e.timeline) < BREAKER_LIMIT && e.scans == h.scans
  {}

  lemma CloseKeepsSound(cfg: Config, inputs: seq<RoundInput>, stop: bool, h: History)
    requires InRound(cfg, inputs, stop, h) && CleanScans(h.scans) < CLEAN_SCAN_LIMIT
    requires !inputs[|h.timeline|].stopInScan && !inputs[|h.timeline|].stopInTurn
    requires TrailingFails(h.timeline + [JudgedRecord(cfg, inputs[|h.timeline|], |h.timeline| + 1)]) < BREAKER_LIMIT
    ensures Sound(cfg, inputs, stop, AfterTurn(cfg, h, inputs[|h.timeline|]))
  {
    var input := inputs[|h.timeline|];
    var e := AfterTurn(cfg, h, input);
    EndOfClosedRound(cfg, inputs, stop, h);
    ClosedShape(cfg, h, input);
    assert Limits(e);
    RoundKeepsSound(cfg, inputs, stop, h, JudgedRecord(cfg, input, |h.timeline| + 1), Counted(input.usage), e.stop, e.cause);
  }

  lemma RoundIsSound(cfg: Config, inputs: seq<RoundInput>, stop: bool, h: History)
    requires Sound(cfg, inputs, stop, h) && h.cause.None? && |h.timeline| < |inputs|
    ensures Sound(cfg, inputs, stop, AfterRound(cfg, h, inputs[|h.timeline|]))
  {
    var input := inputs[|h.timeline|];
    if CauseAtTop(cfg, h, input).Some? {
      TopKeepsSound(cfg, inputs, stop, h);
    } else {
      SensorEntersRound(cfg, inputs, stop, h);
      ScannedRoundIsSound(cfg, inputs, stop, h.(scans := ScansAfter(cfg, h.scans, input)));
    }
  }

  lemma ScannedRoundIsSound(cfg: Config, inputs: seq<RoundInput>, stop: bool, h: History)
    requires InRound(cfg, inputs, stop, h)
    ensures Sound(cfg, inputs, stop, AfterScan(cfg, h, inputs[|h.timeline|]))
  {
    var input := inputs[|h.timeline|];
    if CleanScans(h.scans) >= CLEAN_SCAN_LIMIT {
      QuietKeepsSound(cfg, inputs, stop, h);
    } else if input.stopInScan || input.stopInTurn {
      StopKeepsSound(cfg, inputs, stop, h);
    } else if TrailingFails(h.timeline + [JudgedRecord(cfg, input, |h.timeline| + 1)]) >= BREAKER_LIMIT {
      TripKeepsSound(cfg, inputs, stop, h);
    } else {
      CloseKeepsSound(cfg, inputs, stop, h);
    }
  }

  lemma RoundCounts(cfg: Config, h: History, input: RoundInput)
    requires h.cause.None?
    ensures var e := AfterRound(cfg, h, input);
            && |h.timeline| <= |e.timeline| <= |h.timeline| + 1 && e.cause != Some(AllRounds)
            && (e.cause.None? ==> |e.timeline| == |h.timeline| + 1)
  {}

  lemma {:induction false} RoundsAreSound(cfg: Config, inputs: seq<RoundInput>, stop: bool, n: nat)
    requires n <= |inputs|
    ensures Sound(cfg, inputs, stop, Rounds(cfg, inputs, stop, n))
    ensures var h := Rounds(cfg, inputs, stop, n);
            |h.timeline| <= n && (h.cause.None? ==> |h.timeline| == n) && h.cause != Some(AllRounds)
  {
    if n > 0 {
      RoundsAreSound(cfg, inputs, stop, n - 1);
      var h := Rounds(cfg, inputs, stop, n - 1);
      if h.cause.None? {
        RoundIsSound(cfg, inputs, stop, h);
        RoundCounts(cfg, h, inputs[n - 1]);
      }
    }
  }

  /** Every run is numbered 1, 2, ..., follows its inputs, keeps its limits and ends for the cause it states. */
  lemma OutcomeIsSound(cfg: Config, inputs: seq<RoundInput>, stop: bool)
    requires 0 <= cfg.maxRounds <= |inputs|
    ensures var h := Outcome(cfg, inputs, stop);
            Sound(cfg, inputs, stop, h) && h.cause.Some? && |h.timeline| <= cfg.maxRounds
  {
    RoundsAreSound(cfg, inputs, stop, cfg.maxRounds);
    var h := Rounds(cfg, inputs, stop, cfg.maxRounds);
    if h.cause.None? {
      var e := h.(cause := Some(AllRounds));
      assert forall i :: 0 <= i < |h.timeline| ==> Closed(cfg, inputs[i], i + 1, h.timeline[i], h.spent[i]);
    }
  }

  // ---- what that means ----

  /** The last round of the run was cut short before it could be judged. */
  predicate CutShort(h: History, last: RoundInput) {
    h.cause == Some(NothingLeft) || (h.cause == Some(StopSeen) && (last.stopInScan || last.stopInTurn))
  }

  /** Every record is the judged one of its round's input, and the usage counted is that of the input, but for the
      last round if a stop or the empty queue cut it short; the round that opens the breaker counts no usage. */
  lemma RecordsAreJudged(cfg: Config, inputs: seq<RoundInput>, stop: bool, i: nat)
    requires 0 <= cfg.maxRounds <= |inputs| && i < |Outcome(cfg, inputs, stop).timeline|
    ensures var h := Outcome(cfg, inputs, stop);
            && |h.spent| == |h.timeline| <= |inputs|
            && if i == |h.timeline| - 1 && CutShort(h, inputs[i]) then
                 h.timeline[i].verify == Skipped && h.timeline[i].changed == [] && h.timeline[i].round == i + 1 && h.spent[i] == 0
               else if i == |h.timeline| - 1 && h.cause == Some(BreakerOpen) then
                 h.timeline[i] == TrippedRecord(cfg, inputs[i], i + 1) && h.spent[i] == 0
               else Closed(cfg, inputs[i], i + 1, h.timeline[i], h.spent[i])
  {
    OutcomeIsSound(cfg, inputs, stop);
    var h := Outcome(cfg, inputs, stop);
    if i < |h.timeline| - 1 {
      assert AllWentOn(cfg, inputs, h, |h.timeline| - 1);
    } else {
      LastIsJudged(cfg, inputs, stop, h);
    }
  }

  lemma LastIsJudged(cfg: Config, inputs: seq<RoundInput>, stop: bool, h: History)
    requires |h.timeline| == |h.spent| <= |inputs| && h.timeline != [] && Numbered(h.timeline)
    requires h.cause.Some? && EndFits(cfg, inputs, stop, h)
    ensures var i := |h.timeline| - 1;
            if CutShort(h, inputs[i]) then
              h.timeline[i].verify == Skipped && h.timeline[i].changed == [] && h.spent[i] == 0
            else if h.cause == Some(BreakerOpen) then h.timeline[i] == TrippedRecord(cfg, inputs[i], i + 1) && h.spent[i] == 0
            else Closed(cfg, inputs[i], i + 1, h.timeline[i], h.spent[i])
  {
    var i := |h.timeline| - 1;
    if AllClosed(cfg, inputs, h, |h.timeline|) {
      assert Closed(cfg, inputs[i], i + 1, h.timeline[i], h.spent[i]);
      assert AllWentOn(cfg, inputs, h, |h.timeline|) ==> WentOn(cfg, inputs[i]);
    }
  }

  /** A judged round is a pass exactly if its verification ran and succeeded, and a failure exactly if it ran and
      did not; only a last round that a stop or the empty queue cut short is not judged. The usage counted is the
      round's, none if it is negative, and none in the round that opens the breaker. */
  lemma RecordsFollowTheInputs(cfg: Config, inputs: seq<RoundInput>, stop: bool, i: nat)
    requires 0 <= cfg.maxRounds <= |inputs| && i < |Outcome(cfg, inputs, stop).timeline|
    ensures var h := Outcome(cfg, inputs, stop);
            && |h.spent| == |h.timeline| <= |inputs| && h.timeline[i].round == i + 1
            && if i == |h.timeline| - 1 && CutShort(h, inputs[i]) then
                 h.timeline[i].verify == Skipped && h.timeline[i].changed == [] && h.spent[i] == 0
               else
                 var rec, input := h.timeline[i], inputs[i];
                 && (rec.verify == Pass <==> !cfg.readOnly && cfg.hasVerify && input.verifyOk)
                 && (rec.verify == FailRolledBack <==> !cfg.readOnly && cfg.hasVerify && !input.verifyOk)
                 && rec.changed == (if cfg.readOnly || !cfg.hasVerify then [] else input.changed)
                 && (RollbackFailed in rec.notes <==> rec.verify == FailRolledBack && !input.rollbackOk)
                 && h.spent[i] == (if input.usage <= 0 || (i == |h.timeline| - 1 && h.cause == Some(BreakerOpen)) then 0 else input.usage)
  {
    RecordsAreJudged(cfg, inputs, stop, i);
  }

  /** A run ends before its last round only if a stop was requested, the window was over, the budget was spent,
      the queue was empty, the goal was reached or the breaker opened; and its inputs show which. */
  lemma EarlyEndHasItsCause(cfg: Config, inputs: seq<RoundInput>, stop: bool)
    requires 0 <= cfg.maxRounds <= |inputs|
    ensures var h := Outcome(cfg, inputs, stop); var k := |h.timeline|;
            && h.cause.Some? && |h.spent| == k <= |inputs| && EndFits(cfg, inputs, stop, h)
            && (k < cfg.maxRounds ==> h.cause != Some(AllRounds))
            && (forall i :: 0 <= i < k - 1 ==> WentOn(cfg, inputs[i]))
            && (forall i :: 0 <= i < k ==> !inputs[i].stopBefore && !inputs[i].pastEnd)
  {
    OutcomeIsSound(cfg, inputs, stop);
  }

  /** Aborted exactly if the last three records are failures; a goal-driven run has a pass only as its last
      record, and then it ends there; the total stays below the budget plus the last round's usage. */
  lemma LimitsHold(cfg: Config, inputs: seq<RoundInput>, stop: bool)
    requires 0 <= cfg.maxRounds <= |inputs|
    ensures var h := Outcome(cfg, inputs, stop); var k := |h.timeline|;
            && (h.cause == Some(BreakerOpen) <==>
                  k >= BREAKER_LIMIT && forall i :: k - BREAKER_LIMIT <= i < k ==> h.timeline[i].verify == FailRolledBack)
            && (!cfg.exploratory ==> forall i :: 0 <= i < k && h.timeline[i].verify == Pass ==> i == k - 1)
            && (cfg.maxTokens > 0 ==> Sum(h.spent) < cfg.maxTokens + if h.spent == [] then 0 else h.spent[|h.spent| - 1])
            && (cfg.maxTokens > 0 ==> forall i :: 0 <= i < |h.spent| ==> Sum(h.spent[..i]) < cfg.maxTokens)
  {
    OutcomeIsSound(cfg, inputs, stop);
    var h := Outcome(cfg, inputs, stop);
    var k := |h.timeline|;
    TrailingFailsMeansLastOnes(h.timeline, BREAKER_LIMIT);
    forall i | 0 <= i < k - 1 && !cfg.exploratory
      ensures h.timeline[i].verify != Pass
    {
      assert AllWentOn(cfg, inputs, h, k - 1);
      assert Closed(cfg, inputs[i], i + 1, h.timeline[i], h.spent[i]);
    }
    if h.spent != [] {
      assert Sum(h.spent) == Sum(h.spent[..|h.spent| - 1]) + h.spent[|h.spent| - 1];
    }
  }

  /** The run ended with a pass exactly if it is goal-driven and its last record is one. */
  lemma GoalMetExactlyIfLastPasses(cfg: Config, inputs: seq<RoundInput>, stop: bool)
    requires 0 <= cfg.maxRounds <= |inputs|
    ensures var h := Outcome(cfg, inputs, stop);
            h.cause == Some(GoalMet) <==>
            !cfg.exploratory && h.timeline != [] && h.timeline[|h.timeline| - 1].verify == Pass
  {
    OutcomeIsSound(cfg, inputs, stop);
    var h := Outcome(cfg, inputs, stop);
    var k := |h.timeline|;
    if k > 0 && AllClosed(cfg, inputs, h, k) {
      assert Closed(cfg, inputs[k - 1], k, h.timeline[k - 1], h.spent[k - 1]);
    }
  }

  /** The breaker opens exactly if the last three rounds were verified, all of them badly: the last one was not cut
      short, and the two before it never are. */
  lemma BreakerOpensExactlyIf(cfg: Config, inputs: seq<RoundInput>, stop: bool)
    requires 0 <= cfg.maxRounds <= |inputs|
    ensures var h := Outcome(cfg, inputs, stop); var k := |h.timeline|;
            && k <= |inputs|
            && (h.cause == Some(BreakerOpen) <==>
                  && k >= 3 && !CutShort(h, inputs[k - 1]) && !cfg.readOnly && cfg.hasVerify
                  && forall i :: k - 3 <= i < k ==> !inputs[i].verifyOk)
  {
    LimitsHold(cfg, inputs, stop);
    OutcomeIsSound(cfg, inputs, stop);
    var h := Outcome(cfg, inputs, stop);
    forall i | 0 <= i < |h.timeline|
      ensures !(i == |h.timeline| - 1 && CutShort(h, inputs[i])) ==>
                (h.timeline[i].verify == FailRolledBack <==> !cfg.readOnly && cfg.hasVerify && !inputs[i].verifyOk)
    {
      RecordsFollowTheInputs(cfg, inputs, stop, i);
    }
  }

  /** A run reaches its goal exactly if it is goal-driven and its last round was verified, well, and not cut short. */
  lemma GoalMetExactlyIfVerified(cfg: Config, inputs: seq<RoundInput>, stop: bool)
    requires 0 <= cfg.maxRounds <= |inputs|
    ensures var h := Outcome(cfg, inputs, stop); var k := |h.timeline|;
            && k <= |inputs|
            && (h.cause == Some(GoalMet) <==>
                  && k > 0 && !CutShort(h, inputs[k - 1]) && !cfg.exploratory
                  && !cfg.readOnly && cfg.hasVerify && inputs[k - 1].verifyOk)
  {
    GoalMetExactlyIfLastPasses(cfg, inputs, stop);
    OutcomeIsSound(cfg, inputs, stop);
    var h := Outcome(cfg, inputs, stop);
    if h.timeline != [] {
      RecordsFollowTheInputs(cfg, inputs, stop, |h.timeline| - 1);
    }
  }

  /** A judged round that opens no breaker, by its goal and its pause. */
  lemma ClosesAs(cfg: Config, h: History, input: RoundInput, rec: Record)
    requires rec == JudgedRecord(cfg, input, |h.timeline| + 1) && TrailingFails(h.timeline + [rec]) < BREAKER_LIMIT
    ensures !cfg.exploratory && rec.verify == Pass ==>
              AfterTurn(cfg, h, input) == With(h, rec, Counted(input.usage), input.stopInVerify, Some(GoalMet))
    ensures !(!cfg.exploratory && rec.verify == Pass) ==>
              var stop := input.stopInVerify || (cfg.intervalSeconds > 0 && input.stopInPause);
              AfterTurn(cfg, h, input) ==
                With(h, rec, Counted(input.usage), stop, if cfg.intervalSeconds > 0 && stop then Some(StopSeen) else None)
  {}

  // ---- clean scans ----

  /** The scans made are exactly those of the rounds that have a record. */
  lemma ScansAreTheInputs(cfg: Config, inputs: seq<RoundInput>, stop: bool)
    requires 0 <= cfg.maxRounds <= |inputs|
    ensures var h := Outcome(cfg, inputs, stop);
            && |h.timeline| <= |inputs|
            && (if Scanning(cfg) then |h.scans| == |h.timeline| && forall i :: 0 <= i < |h.scans| ==> h.scans[i] == inputs[i].scan
                else h.scans == [])
  {
    OutcomeIsSound(cfg, inputs, stop);
  }

  /** The limit speaks of consecutive clean scans. When a run ends for it, its last scan is clean, and the one
      before it is clean too exactly if it did not fail. */
  lemma CleanScansAreAdjacentExactlyIf(cfg: Config, inputs: seq<RoundInput>, stop: bool)
    requires 0 <= cfg.maxRounds <= |inputs| && Outcome(cfg, inputs, stop).cause == Some(NothingLeft)
    ensures var h := Outcome(cfg, inputs, stop); var k := |h.timeline|;
            && 2 <= k <= |inputs| && inputs[k - 1].scan == Blank
            && (inputs[k - 2].scan == Blank <==> inputs[k - 2].scan != Failed)
  {
    OutcomeIsSound(cfg, inputs, stop);
    var h := Outcome(cfg, inputs, stop);
    var k := |h.timeline|;
    assert |h.scans| == k && h.scans[k - 1] == Blank;
    var before := h.scans[..k - 1];
    assert CleanScans(h.scans) == CleanScans(before) + 1;
    assert before != [] && before[|before| - 1] == inputs[k - 2].scan;
  }

  function Patrol(maxRounds: int): Config { Config(true, true, false, true, maxRounds, 0, 0) }

  function QuietRound(scan: Scan): RoundInput {
    RoundInput(false, false, scan, false, false, [], true, true, false, 0, false)
  }

  lemma QuietStep(h: History, scan: Scan)
    requires h.cause.None? && !h.stop
    ensures var e := AfterRound(Patrol(3), h, QuietRound(scan));
            && e.scans == h.scans + [scan] && |e.timeline| == |h.timeline| + 1
            && (scan == Blank && CleanScans(h.scans) == 1 ==> e.cause == Some(NothingLeft))
            && (scan == Failed || CleanScans(h.scans) == 0 ==> e.cause.None? && !e.stop)
  {
    OneMoreScan(h.scans, scan);
    OneMoreFail(h.timeline, JudgedRecord(Patrol(3), QuietRound(scan), |h.timeline| + 1));
  }

  lemma NextOf(cfg: Config, inputs: seq<RoundInput>, n: nat)
    requires n < |inputs| && Rounds(cfg, inputs, false, n).cause.None?
    ensures Rounds(cfg, inputs, false, n + 1) == AfterRound(cfg, Rounds(cfg, inputs, false, n), inputs[n])
  {}

  function TwoCleanScans(): seq<RoundInput> { [QuietRound(Blank), QuietRound(Failed), QuietRound(Blank)] }

  lemma FirstCleanScan()
    ensures var h := Rounds(Patrol(3), TwoCleanScans(), false, 1);
            h.cause.None? && !h.stop && |h.timeline| == 1 && h.scans == [Blank] && CleanScans(h.scans) == 1
  {
    NextOf(Patrol(3), TwoCleanScans(), 0);
    QuietStep(Rounds(Patrol(3), TwoCleanScans(), false, 0), Blank);
    OneMoreScan([], Blank);
    assert [] + [Blank] == [Blank];
  }

  lemma ThenAFailedScan()
    ensures var h := Rounds(Patrol(3), TwoCleanScans(), false, 2);
            h.cause.None? && !h.stop && |h.timeline| == 2 && h.scans == [Blank, Failed] && CleanScans(h.scans) == 1
  {
    FirstCleanScan();
    var h := Rounds(Patrol(3), TwoCleanScans(), false, 1);
    NextOf(Patrol(3), TwoCleanScans(), 1);
    QuietStep(h, Failed);
    OneMoreScan(h.scans, Failed);
  }

  /** A failed scan between two clean ones does not keep them from ending the run. */
  lemma CleanScansNeedNotBeAdjacent()
    ensures var h := Outcome(Patrol(3), TwoCleanScans(), false);
            h.cause == Some(NothingLeft) && |h.timeline| == 3 && h.scans == [Blank, Failed, Blank]
  {
    ThenAFailedScan();
    NextOf(Patrol(3), TwoCleanScans(), 2);
    QuietStep(Rounds(Patrol(3), TwoCleanScans(), false, 2), Blank);
  }
}
