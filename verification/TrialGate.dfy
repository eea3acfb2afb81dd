/** The gate of the trial runs: one run at a time, whose parked steps are released by signals that travel over
    channels with one slot each.

    The gate is a state machine over the atomic steps of any number of trial runs and of any number of
    signalling calls, so that a history is any interleaving of them. Besides the state it keeps every accepted
    signal and every release. */
module TrialGate {
  import opened Wrappers

  type RunId = nat

  /** A signal the gate accepted for a run, whether or not there was room in the slot. */
  datatype Signal = Reply(run: RunId, text: string) | Abort(run: RunId)

  /** Where a run stands. The marks are how many signals had been accepted when the drain of the reply channel,
      and that of the abort channel, found its channel empty. */
  datatype Phase =
    | Between
    | DrainingReply(detect: bool)
    | DrainingAbort(detect: bool, replyMark: nat)
    | Waiting(detect: bool, replyMark: nat, abortMark: nat)
    | Gone

  datatype Run = Run(phase: Phase, reply: Option<string>, abort: bool)

  datatype Cause = ByReply(text: string) | ByAbort | ByTimeout | ByDetection

  /** A park that ended: it could use the signals with numbers start <= k < end. */
  datatype Release = Release(run: RunId, cause: Cause, start: nat, end: nat)

  datatype Sys = Sys(gate: Option<RunId>, runs: seq<Run>, log: seq<Signal>, releases: seq<Release>)

  datatype Step =
    | Enter
    | Leave(t: RunId)
    | Park(t: RunId, detect: bool)      // the "waiting" event is emitted
    | TakeReply(t: RunId)               // one iteration of drainReply
    | ReplyEmpty(t: RunId)
    | TakeAbort(t: RunId)               // one iteration of drainChan
    | AbortEmpty(t: RunId)
    | GetReply(t: RunId)                // the cases of the park's select
    | GetAbort(t: RunId)
    | TimeOut(t: RunId)
    | Detect(t: RunId)
    | SignalReply(text: string)         // signalResume and signalAbort
    | SignalAbort

  const INITIAL := Sys(None, [], [], [])

  predicate At(s: Sys, t: RunId) { t < |s.runs| }

  predicate GateOk(s: Sys) { s.gate.Some? ==> At(s, s.gate.value) }

  predicate IsWaiting(s: Sys, t: RunId) { At(s, t) && s.runs[t].phase.Waiting? }

  predicate Enabled(s: Sys, st: Step) {
    match st
    case Enter => true
    case Leave(t) => At(s, t) && s.runs[t].phase.Between?
    case Park(t, detect) => At(s, t) && s.runs[t].phase.Between?
    case TakeReply(t) => At(s, t) && s.runs[t].phase.DrainingReply? && s.runs[t].reply.Some?
    case ReplyEmpty(t) => At(s, t) && s.runs[t].phase.DrainingReply? && s.runs[t].reply.None?
    case TakeAbort(t) => At(s, t) && s.runs[t].phase.DrainingAbort? && s.runs[t].abort
    case AbortEmpty(t) => At(s, t) && s.runs[t].phase.DrainingAbort? && !s.runs[t].abort
    case GetReply(t) => IsWaiting(s, t) && s.runs[t].reply.Some?
    case GetAbort(t) => IsWaiting(s, t) && s.runs[t].abort
    case TimeOut(t) => IsWaiting(s, t)
    case Detect(t) => IsWaiting(s, t) && s.runs[t].phase.detect
    case SignalReply(text) => GateOk(s)
    case SignalAbort => GateOk(s)
  }

  function Goto(s: Sys, t: RunId, phase: Phase): Sys
    requires At(s, t)
  {
    s.(runs := s.runs[t := s.runs[t].(phase := phase)])
  }

  function Ended(s: Sys, t: RunId, cause: Cause): Sys
    requires IsWaiting(s, t)
  {
    var p := s.runs[t].phase;
    Goto(s, t, Between).(releases :=
      s.releases + [Release(t, cause, if cause.ByAbort? then p.abortMark else p.replyMark, |s.log|)])
  }

  function Next(s: Sys, st: Step): Sys
    requires Enabled(s, st)
  {
    match st
    case Enter =>
      if s.gate.Some? then s
      else s.(gate := Some(|s.runs|), runs := s.runs + [Run(Between, None, false)])
    case Leave(t) => Goto(s, t, Gone).(gate := None)
    case Park(t, detect) => Goto(s, t, DrainingReply(detect))
    case TakeReply(t) => s.(runs := s.runs[t := s.runs[t].(reply := None)])
    case ReplyEmpty(t) => Goto(s, t, DrainingAbort(s.runs[t].phase.detect, |s.log|))
    case TakeAbort(t) => s.(runs := s.runs[t := s.runs[t].(abort := false)])
    case AbortEmpty(t) => Goto(s, t, Waiting(s.runs[t].phase.detect, s.runs[t].phase.replyMark, |s.log|))
    case GetReply(t) =>
      var ended := Ended(s, t, ByReply(s.runs[t].reply.value));
      ended.(runs := ended.runs[t := ended.runs[t].(reply := None)])
    case GetAbort(t) =>
      var ended := Ended(s, t, ByAbort);
      ended.(runs := ended.runs[t := ended.runs[t].(abort := false)])
    case TimeOut(t) => Ended(s, t, ByTimeout)
    case Detect(t) => Ended(s, t, ByDetection)
    case SignalReply(text) => if s.gate.None? then s else Replied(s, s.gate.value, text)
    case SignalAbort => if s.gate.None? then s else Aborted(s, s.gate.value)
  }

  /** A reply is accepted; it is lost if the slot is full. */
  function Replied(s: Sys, t: RunId, text: string): Sys
    requires At(s, t)
  {
    var r := s.runs[t];
    s.(log := s.log + [Reply(t, text)],
       runs := s.runs[t := if r.reply.Some? then r else r.(reply := Some(text))])
  }

  function Aborted(s: Sys, t: RunId): Sys
    requires At(s, t)
  {
    s.(log := s.log + [Abort(t)], runs := s.runs[t := s.runs[t].(abort := true)])
  }

  predicate Legal(s: Sys, run: seq<Step>)
    decreases |run|
  {
    run == [] || (Enabled(s, run[0]) && Legal(Next(s, run[0]), run[1..]))
  }

  function Exec(s: Sys, run: seq<Step>): Sys
    requires Legal(s, run)
    decreases |run|
  {
    if run == [] then s else Exec(Next(s, run[0]), run[1..])
  }

  // ---- which signal a park may use ----

  predicate ReplyTo(x: Signal, t: RunId) { x.Reply? && x.run == t }

  /** The first reply to run t among the signals lo <= k < hi. */
  function FirstReply(log: seq<Signal>, lo: nat, hi: nat, t: RunId): Option<string>
    requires hi <= |log|
  {
    if hi <= lo then None
    else if FirstReply(log, lo, hi - 1, t).Some? then FirstReply(log, lo, hi - 1, t)
    else if ReplyTo(log[hi - 1], t) then Some(log[hi - 1].text) else None
  }

  predicate HasAbort(log: seq<Signal>, lo: nat, hi: nat, t: RunId)
    requires hi <= |log|
  {
    exists k :: lo <= k < hi && log[k] == Abort(t)
  }

  /** Signal k is a reply to run t, accepted in the window, and none before it in the window is. */
  predicate IsFirstReply(log: seq<Signal>, lo: nat, k: nat, hi: nat, t: RunId) {
    lo <= k < hi <= |log| && ReplyTo(log[k], t) && forall j :: lo <= j < k ==> !ReplyTo(log[j], t)
  }

  lemma {:induction false} FirstReplyIsFirst(log: seq<Signal>, lo: nat, hi: nat, t: RunId)
    requires hi <= |log|
    ensures FirstReply(log, lo, hi, t).Some? ==>
              exists k: nat :: IsFirstReply(log, lo, k, hi, t) && log[k].text == FirstReply(log, lo, hi, t).value
    ensures FirstReply(log, lo, hi, t).None? ==> forall j :: lo <= j < hi ==> !ReplyTo(log[j], t)
  {
    if lo < hi {
      FirstReplyIsFirst(log, lo, hi - 1, t);
      if FirstReply(log, lo, hi - 1, t).Some? {
        var k: nat :| IsFirstReply(log, lo, k, hi - 1, t) && log[k].text == FirstReply(log, lo, hi - 1, t).value;
        assert IsFirstReply(log, lo, k, hi, t);
      } else if ReplyTo(log[hi - 1], t) {
        assert IsFirstReply(log, lo, hi - 1, hi, t);
      }
    }
  }

  lemma {:induction false} FirstReplyOfLonger(log: seq<Signal>, x: Signal, lo: nat, hi: nat, t: RunId)
    requires hi <= |log|
    ensures FirstReply(log + [x], lo, hi, t) == FirstReply(log, lo, hi, t)
  {
    if lo < hi {
      FirstReplyOfLonger(log, x, lo, hi - 1, t);
    }
  }

  // ---- the invariant ----

  /** The windows of the releases so far end here. */
  function LastEnd(releases: seq<Release>): nat {
    if releases == [] then 0 else releases[|releases| - 1].end
  }

  /** Once its channels are drained, a run's slots hold the first signals accepted since. */
  predicate RunInv(s: Sys, t: RunId)
    requires At(s, t)
  {
    var r := s.runs[t];
    match r.phase
    case DrainingAbort(_, m) =>
      LastEnd(s.releases) <= m <= |s.log| && r.reply == FirstReply(s.log, m, |s.log|, t)
    case Waiting(_, m, a) =>
      && LastEnd(s.releases) <= m <= a <= |s.log| && r.reply == FirstReply(s.log, m, |s.log|, t)
      && (r.abort <==> HasAbort(s.log, a, |s.log|, t))
    case _ => true
  }

  /** The gate holds the channels of the one run that has not left. */
  predicate Live(s: Sys, t: RunId)
    requires At(s, t)
  {
    !s.runs[t].phase.Gone? <==> s.gate == Some(t)
  }

  /** What the release claims, read off the log alone. */
  predicate Justified(log: seq<Signal>, r: Release) {
    && r.start <= r.end <= |log|
    && (r.cause.ByReply? ==> FirstReply(log, r.start, r.end, r.run) == Some(r.cause.text))
    && (r.cause.ByAbort? ==> HasAbort(log, r.start, r.end, r.run))
  }

  predicate ReleaseInv(s: Sys, i: nat)
    requires i < |s.releases|
  {
    && Justified(s.log, s.releases[i])
    && LastEnd(s.releases[..i]) <= s.releases[i].start
  }

  predicate Inv(s: Sys) {
    && GateOk(s)
    && (forall t :: 0 <= t < |s.runs| ==> RunInv(s, t) && Live(s, t))
    && (forall i :: 0 <= i < |s.releases| ==> ReleaseInv(s, i))
  }

  predicate IsSignal(st: Step) { st.SignalReply? || st.SignalAbort? }

  // ---- every step keeps it ----

  lemma LongerStillJustifies(log: seq<Signal>, x: Signal, r: Release)
    requires Justified(log, r)
    ensures Justified(log + [x], r)
  {
    FirstReplyOfLonger(log, x, r.start, r.end, r.run);
    if r.cause.ByAbort? {
      var k :| r.start <= k < r.end && log[k] == Abort(r.run);
      assert (log + [x])[k] == Abort(r.run);
    }
  }

  lemma SignalKeepsReleases(s: Sys, e: Sys, x: Signal)
    requires Inv(s) && e.log == s.log + [x] && e.releases == s.releases
    ensures forall i :: 0 <= i < |e.releases| ==> ReleaseInv(e, i)
  {
    forall i | 0 <= i < |e.releases|
      ensures ReleaseInv(e, i)
    {
      assert ReleaseInv(s, i);
      LongerStillJustifies(s.log, x, s.releases[i]);
    }
  }

  lemma AbortsOfLonger(log: seq<Signal>, x: Signal, lo: nat, t: RunId)
    requires lo <= |log|
    ensures HasAbort(log + [x], lo, |log| + 1, t) <==> HasAbort(log, lo, |log|, t) || x == Abort(t)
  {
    var more := log + [x];
    if HasAbort(log, lo, |log|, t) {
      var k :| lo <= k < |log| && log[k] == Abort(t);
      assert more[k] == Abort(t);
    }
    if x == Abort(t) {
      assert more[|log|] == Abort(t);
    }
    if HasAbort(more, lo, |log| + 1, t) {
      var k :| lo <= k < |log| + 1 && more[k] == Abort(t);
      assert k < |log| ==> log[k] == Abort(t);
    }
  }

  lemma ReplyKeepsRun(s: Sys, text: string, t: RunId)
    requires Inv(s) && s.gate.Some? && At(s, t)
    ensures RunInv(Replied(s, s.gate.value, text), t)
  {
    var x := Reply(s.gate.value, text);
    var m := if s.runs[t].phase.DrainingAbort? || s.runs[t].phase.Waiting? then s.runs[t].phase.replyMark else 0;
    assert RunInv(s, t) && Live(s, t);
    FirstReplyOfLonger(s.log, x, m, |s.log|, t);
    if s.runs[t].phase.Waiting? {
      AbortsOfLonger(s.log, x, s.runs[t].phase.abortMark, t);
    }
  }

  lemma AbortKeepsRun(s: Sys, t: RunId)
    requires Inv(s) && s.gate.Some? && At(s, t)
    ensures RunInv(Aborted(s, s.gate.value), t)
  {
    var x := Abort(s.gate.value);
    var m := if s.runs[t].phase.DrainingAbort? || s.runs[t].phase.Waiting? then s.runs[t].phase.replyMark else 0;
    assert RunInv(s, t) && Live(s, t);
    FirstReplyOfLonger(s.log, x, m, |s.log|, t);
    if s.runs[t].phase.Waiting? {
      AbortsOfLonger(s.log, x, s.runs[t].phase.abortMark, t);
    }
  }

  lemma SignalKeepsInv(s: Sys, st: Step)
    requires Inv(s) && IsSignal(st)
    ensures Enabled(s, st) && Inv(Next(s, st))
  {
    if s.gate.Some? {
      var e := Next(s, st);
      var g := s.gate.value;
      SignalKeepsReleases(s, e, if st.SignalReply? then Reply(g, st.text) else Abort(g));
      forall t | 0 <= t < |e.runs|
        ensures RunInv(e, t) && Live(e, t)
      {
        assert Live(s, t);
        if st.SignalReply? {
          ReplyKeepsRun(s, st.text, t);
        } else {
          AbortKeepsRun(s, t);
        }
      }
    }
  }

  predicate IsRelease(st: Step) { st.GetReply? || st.GetAbort? || st.TimeOut? || st.Detect? }

  /** A park that ends does so within its own window, after every earlier one. */
  lemma ReleaseIsJustified(s: Sys, st: Step)
    requires Inv(s) && IsRelease(st) && Enabled(s, st)
    ensures var e := Next(s, st);
            && |e.releases| == |s.releases| + 1 && e.releases[..|s.releases|] == s.releases && e.log == s.log
            && Justified(e.log, e.releases[|s.releases|])
            && LastEnd(s.releases) <= e.releases[|s.releases|].start
            && LastEnd(e.releases) == |s.log|
  {
    assert RunInv(s, st.t);
  }

  lemma ReleaseKeepsReleases(s: Sys, st: Step)
    requires Inv(s) && IsRelease(st) && Enabled(s, st)
    ensures forall i :: 0 <= i < |Next(s, st).releases| ==> ReleaseInv(Next(s, st), i)
  {
    ReleaseIsJustified(s, st);
    var e := Next(s, st);
    forall i | 0 <= i < |e.releases|
      ensures ReleaseInv(e, i)
    {
      if i < |s.releases| {
        assert ReleaseInv(s, i);
        assert e.releases[..i] == s.releases[..i];
      }
    }
  }

  lemma ReleaseKeepsInv(s: Sys, st: Step)
    requires Inv(s) && IsRelease(st) && Enabled(s, st)
    ensures Inv(Next(s, st))
  {
    ReleaseKeepsReleases(s, st);
    var e := Next(s, st);
    assert Live(s, st.t);
    forall t | 0 <= t < |e.runs|
      ensures RunInv(e, t) && Live(e, t)
    {
      assert RunInv(s, t) && Live(s, t);
    }
  }

  /** A step of a run that takes no part in a release leaves the releases as they are. */
  lemma OwnStepKeepsInv(s: Sys, st: Step)
    requires Inv(s) && !IsSignal(st) && !IsRelease(st) && Enabled(s, st)
    ensures Inv(Next(s, st))
  {
    var e := Next(s, st);
    assert e.log == s.log && e.releases == s.releases;
    forall i | 0 <= i < |e.releases|
      ensures ReleaseInv(e, i)
    {
      assert ReleaseInv(s, i);
    }
    EndsWithin(s);
    forall t | 0 <= t < |e.runs|
      ensures RunInv(e, t) && Live(e, t)
    {
      if t < |s.runs| {
        assert RunInv(s, t) && Live(s, t);
        if st.Leave? {
          assert Live(s, st.t);
        }
      }
    }
  }

  lemma EndsWithin(s: Sys)
    requires Inv(s)
    ensures LastEnd(s.releases) <= |s.log|
  {
    if s.releases != [] {
      assert ReleaseInv(s, |s.releases| - 1);
    }
  }

  lemma KeepsInv(s: Sys, st: Step)
    requires Inv(s) && Enabled(s, st)
    ensures Inv(Next(s, st))
  {
    if IsSignal(st) {
      SignalKeepsInv(s, st);
    } else if IsRelease(st) {
      ReleaseKeepsInv(s, st);
    } else {
      OwnStepKeepsInv(s, st);
    }
  }

  lemma {:induction false} RunKeepsInv(s: Sys, run: seq<Step>)
    requires Inv(s) && Legal(s, run)
    ensures Inv(Exec(s, run))
    decreases |run|
  {
    if run != [] {
      KeepsInv(s, run[0]);
      RunKeepsInv(Next(s, run[0]), run[1..]);
    }
  }

  // ---- what holds of every history ----

  /** A release by a reply returns the first reply accepted for its run in its window, a release by an abort had
      one in its window. */
  ghost predicate UsesItsOwnSignal(log: seq<Signal>, r: Release) {
    && r.start <= r.end <= |log|
    && (r.cause.ByReply? ==> exists k: nat :: IsFirstReply(log, r.start, k, r.end, r.run) && log[k].text == r.cause.text)
    && (r.cause.ByAbort? ==> HasAbort(log, r.start, r.end, r.run))
  }

  lemma JustifiedUsesItsOwn(log: seq<Signal>, r: Release)
    requires Justified(log, r)
    ensures UsesItsOwnSignal(log, r)
  {
    FirstReplyIsFirst(log, r.start, r.end, r.run);
  }

  /** In every interleaving at most one run is active, every park that ended by a signal used the first one
      accepted in its own window, and the windows of different parks do not overlap: no signal, used or left
      over, ever releases two parks. */
  lemma EveryHistoryIsSafe(run: seq<Step>)
    requires Legal(INITIAL, run)
    ensures var s := Exec(INITIAL, run);
            && (forall t, u :: 0 <= t < |s.runs| && 0 <= u < |s.runs| && !s.runs[t].phase.Gone? && !s.runs[u].phase.Gone? ==> t == u)
            && (forall i :: 0 <= i < |s.releases| ==> UsesItsOwnSignal(s.log, s.releases[i]))
            && (forall i, j :: 0 <= i < j < |s.releases| ==> s.releases[i].end <= s.releases[j].start)
  {
    assert Inv(INITIAL);
    RunKeepsInv(INITIAL, run);
    var s := Exec(INITIAL, run);
    forall t, u | 0 <= t < |s.runs| && 0 <= u < |s.runs| && !s.runs[t].phase.Gone? && !s.runs[u].phase.Gone?
      ensures t == u
    {
      assert Live(s, t) && Live(s, u);
    }
    forall i | 0 <= i < |s.releases|
      ensures UsesItsOwnSignal(s.log, s.releases[i])
    {
      assert ReleaseInv(s, i);
      JustifiedUsesItsOwn(s.log, s.releases[i]);
    }
    forall i, j | 0 <= i < j < |s.releases|
      ensures s.releases[i].end <= s.releases[j].start
    {
      WindowsInOrder(s, i, j);
    }
  }

  lemma {:induction false} WindowsInOrder(s: Sys, i: nat, j: nat)
    requires Inv(s) && i < j < |s.releases|
    ensures s.releases[i].end <= s.releases[j].start
  {
    assert ReleaseInv(s, j);
    if i < j - 1 {
      WindowsInOrder(s, i, j - 1);
      assert ReleaseInv(s, j - 1);
    }
  }

  /** No run is past the drain of its reply channel. */
  predicate NonePastDrain(s: Sys) {
    forall t :: 0 <= t < |s.runs| ==> !s.runs[t].phase.DrainingAbort? && !s.runs[t].phase.Waiting?
  }

  /** Nothing that ended after the first `done` releases, and nothing waiting, can use the first n signals. */
  predicate Fresh(s: Sys, done: nat, n: nat) {
    && n <= |s.log| && done <= |s.releases|
    && (forall i :: done <= i < |s.releases| ==> n <= s.releases[i].start)
    && (forall t :: 0 <= t < |s.runs| ==> MarksFrom(s.runs[t].phase, n))
  }

  predicate MarksFrom(p: Phase, n: nat) {
    match p
    case DrainingAbort(_, m) => n <= m
    case Waiting(_, m, a) => n <= m && n <= a
    case _ => true
  }

  lemma KeepsFresh(s: Sys, st: Step, done: nat, n: nat)
    requires Fresh(s, done, n) && Enabled(s, st)
    ensures Fresh(Next(s, st), done, n)
  {}

  /** Signals accepted before a park has drained its reply channel are dead: whatever happens next, no later
      park, of this run or another, has them in its window. */
  lemma {:induction false} LeftoversNeverRelease(s: Sys, run: seq<Step>, done: nat, n: nat)
    requires Fresh(s, done, n) && Legal(s, run)
    ensures Fresh(Exec(s, run), done, n)
    decreases |run|
  {
    if run != [] {
      KeepsFresh(s, run[0], done, n);
      LeftoversNeverRelease(Next(s, run[0]), run[1..], done, n);
    }
  }

  lemma SignalsSoFarAreDead(s: Sys, run: seq<Step>)
    requires NonePastDrain(s) && Legal(s, run)
    ensures |s.releases| <= |Exec(s, run).releases|
    ensures forall i :: |s.releases| <= i < |Exec(s, run).releases| ==> |s.log| <= Exec(s, run).releases[i].start
  {
    LeftoversNeverRelease(s, run, |s.releases|, |s.log|);
  }

  /** A waiting park can be released by a reply exactly if one was accepted since its drain, and then by the
      first of them; likewise by an abort. */
  lemma ReleasableExactlyIfSignalled(s: Sys, t: RunId)
    requires Inv(s) && IsWaiting(s, t)
    ensures var p := s.runs[t].phase;
            && p.replyMark <= |s.log| && p.abortMark <= |s.log|
            && (Enabled(s, GetReply(t)) <==> exists k :: p.replyMark <= k < |s.log| && ReplyTo(s.log[k], t))
            && (Enabled(s, GetReply(t)) ==>
                  exists k: nat :: IsFirstReply(s.log, p.replyMark, k, |s.log|, t) && s.log[k].text == s.runs[t].reply.value)
            && (Enabled(s, GetAbort(t)) <==> HasAbort(s.log, p.abortMark, |s.log|, t))
  {
    assert RunInv(s, t);
    FirstReplyIsFirst(s.log, s.runs[t].phase.replyMark, |s.log|, t);
  }

  /** A signal sent to a parked run that waits is accepted for it, and the park can end by it. */
  lemma SignalsWakeAWaitingPark(s: Sys, t: RunId, text: string)
    requires Inv(s) && IsWaiting(s, t)
    ensures Next(s, SignalReply(text)).log == s.log + [Reply(t, text)] && Enabled(Next(s, SignalReply(text)), GetReply(t))
    ensures Next(s, SignalAbort).log == s.log + [Abort(t)] && Enabled(Next(s, SignalAbort), GetAbort(t))
  {
    assert Live(s, t);
  }

  /** A gate without a run accepts no signal. */
  lemma NoRunNoSignal(s: Sys, text: string)
    requires s.gate == None
    ensures Next(s, SignalReply(text)) == s && Next(s, SignalAbort) == s
  {}

  /** The "waiting" event comes before the drain: whatever reply is sent right after the event can be accepted
      and lost, so that the park waits with nothing to be released by. */
  lemma EarlyReplyCanBeLost(s: Sys, t: RunId, text: string)
    requires Inv(s) && s.gate == Some(t) && !s.runs[t].abort
    requires s.runs[t].phase.DrainingReply? && s.runs[t].reply.None?
    ensures var run := [SignalReply(text), TakeReply(t), ReplyEmpty(t), AbortEmpty(t)];
            && Legal(s, run) && IsWaiting(Exec(s, run), t) && Exec(s, run).log == s.log + [Reply(t, text)]
            && !Enabled(Exec(s, run), GetReply(t))
  {
    var s1 := Next(s, SignalReply(text));
    var s2 := Next(s1, TakeReply(t));
    var s3 := Next(s2, ReplyEmpty(t));
    var s4 := Next(s3, AbortEmpty(t));
    assert IsWaiting(s4, t) && s4.runs[t].reply.None? && s4.log == s.log + [Reply(t, text)];
    TwoSteps(s2, ReplyEmpty(t), AbortEmpty(t));
    LegalStep(s1, TakeReply(t), [ReplyEmpty(t), AbortEmpty(t)]);
    LegalStep(s, SignalReply(text), [TakeReply(t), ReplyEmpty(t), AbortEmpty(t)]);
    assert [SignalReply(text)] + [TakeReply(t), ReplyEmpty(t), AbortEmpty(t)] ==
           [SignalReply(text), TakeReply(t), ReplyEmpty(t), AbortEmpty(t)];
    assert [TakeReply(t)] + [ReplyEmpty(t), AbortEmpty(t)] == [TakeReply(t), ReplyEmpty(t), AbortEmpty(t)];
  }

  lemma TwoSteps(s: Sys, a: Step, b: Step)
    requires Enabled(s, a) && Enabled(Next(s, a), b)
    ensures Legal(s, [a, b]) && Exec(s, [a, b]) == Next(Next(s, a), b)
  {
    var m := Next(s, a);
    LegalStep(m, b, []);
    assert [b] + [] == [b];
    LegalStep(s, a, [b]);
    assert [a] + [b] == [a, b];
  }

  lemma LegalStep(s: Sys, st: Step, more: seq<Step>)
    requires Enabled(s, st) && Legal(Next(s, st), more)
    ensures Legal(s, [st] + more) && Exec(s, [st] + more) == Exec(Next(s, st), more)
  {}

  // ---- sequences of steps ----

  lemma {:induction false} LegalAppend(s: Sys, run: seq<Step>, more: seq<Step>)
    requires Legal(s, run) && Legal(Exec(s, run), more)
    ensures Legal(s, run + more) && Exec(s, run + more) == Exec(Exec(s, run), more)
    decreases |run|
  {
    if run == [] {
      assert run + more == more;
    } else {
      LegalAppend(Next(s, run[0]), run[1..], more);
      LegalStep(s, run[0], run[1..] + more);
      assert run + more == [run[0]] + (run[1..] + more);
    }
  }

  /** Some interleaving leads from s to e. */
  ghost predicate Reaches(s: Sys, e: Sys) {
    exists run :: Legal(s, run) && Exec(s, run) == e
  }

  lemma ReachesSelf(s: Sys)
    ensures Reaches(s, s)
  {
    var run: seq<Step> := [];
    assert Legal(s, run) && Exec(s, run) == s;
  }

  lemma ReachesOneMore(s: Sys, m: Sys, st: Step)
    requires Reaches(s, m) && Enabled(m, st)
    ensures Reaches(s, Next(m, st))
  {
    var run :| Legal(s, run) && Exec(s, run) == m;
    assert Legal(Next(m, st), []);
    LegalStep(m, st, []);
    assert [st] + [] == [st];
    LegalAppend(s, run, [st]);
  }
}
