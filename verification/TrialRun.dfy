/** A trial run: the steps one after the other, each with its references substituted right before it runs, the
    parked ones through the gate. */
module TrialRun {
  import opened Text
  import opened StepParams
  import opened TrialGate
  import opened TrialPark

  datatype TrialStep = TrialStep(
    kind: string, target: string, url: string, text: string, value: string, expression: string,
    condition: string, files: seq<string>)

  /** What a step came to. */
  datatype StepResult = Done(output: string) | Failed(reason: string)

  datatype Status = SRunning | SWaiting | SDone | SFailed

  /** A "browser:trial" event; index -1 ends the run. */
  datatype Event = Event(index: int, status: Status, awaitReply: bool, bind: string)

  datatype RunResult = Finished | NoSteps | AlreadyRunning | NoBrowser

  const PRIMITIVES: set<string> := {
    "navigate", "back", "forward", "click", "hover", "type", "key", "scroll", "select", "upload", "wait",
    "extract", "screenshot", "evaluate" }

  predicate Parks(s: TrialStep) { s.kind == "human" || s.kind == "ask" }

  // ---- parameters ----

  /** The substitution in one text; a run uses StepParams.Subst. */
  type Sub = (string, map<string, string>) -> string

  function SubstAll(sub: Sub, files: seq<string>, params: map<string, string>): (r: seq<string>)
    ensures |r| == |files| && forall i :: 0 <= i < |r| ==> r[i] == sub(files[i], params)
  {
    seq(|files|, i requires 0 <= i < |files| => sub(files[i], params))
  }

  /** substStepParams. */
  function SubstStep(sub: Sub, s: TrialStep, params: map<string, string>): TrialStep {
    TrialStep(s.kind, sub(s.target, params), sub(s.url, params), sub(s.text, params), sub(s.value, params),
              sub(s.expression, params), sub(s.condition, params), SubstAll(sub, s.files, params))
  }

  /** A step that was run as it stood after the substitution, what it came to, and the name its answer was bound
      to ("" if to none). */
  datatype Taken = Taken(step: TrialStep, result: StepResult, bound: string)

  /** An answered question binds its trimmed target. */
  function BoundName(s: TrialStep, r: StepResult): string {
    if s.kind == "ask" && r.Done? then TrimSpace(s.target) else ""
  }

  function Output(r: StepResult): string {
    if r.Done? then r.output else ""
  }

  predicate Binds(x: Taken, name: string) {
    name != "" && x.bound == name
  }

  /** The parameters after these steps. */
  function Params(seed: map<string, string>, taken: seq<Taken>): map<string, string> {
    if taken == [] then seed
    else
      var before := Params(seed, taken[..|taken| - 1]);
      var last := taken[|taken| - 1];
      if last.bound != "" then before[last.bound := Output(last.result)] else before
  }

  predicate IsLatestAnswer(taken: seq<Taken>, i: int, name: string) {
    0 <= i < |taken| && Binds(taken[i], name) && forall j :: i < j < |taken| ==> !Binds(taken[j], name)
  }

  /** No step answered for the name. */
  predicate Unanswered(taken: seq<Taken>, name: string) {
    forall i :: 0 <= i < |taken| ==> !Binds(taken[i], name)
  }

  lemma {:induction false} LatestAnswerWins(seed: map<string, string>, taken: seq<Taken>, i: int, name: string)
    requires IsLatestAnswer(taken, i, name)
    ensures name in Params(seed, taken) && Params(seed, taken)[name] == Output(taken[i].result)
  {
    var last := |taken| - 1;
    if i < last {
      assert IsLatestAnswer(taken[..last], i, name);
      LatestAnswerWins(seed, taken[..last], i, name);
      assert !Binds(taken[last], name);
    }
  }

  lemma {:induction false} UnansweredIsSeed(seed: map<string, string>, taken: seq<Taken>, name: string)
    requires Unanswered(taken, name)
    ensures name in Params(seed, taken) <==> name in seed
    ensures name in seed ==> Params(seed, taken)[name] == seed[name]
  {
    if taken != [] {
      var last := |taken| - 1;
      assert Unanswered(taken[..last], name);
      UnansweredIsSeed(seed, taken[..last], name);
      assert !Binds(taken[last], name);
    }
  }

  lemma {:induction false} AnsweredOrNot(taken: seq<Taken>, name: string)
    ensures Unanswered(taken, name) || exists i :: IsLatestAnswer(taken, i, name)
  {
    if taken != [] {
      var last := |taken| - 1;
      if Binds(taken[last], name) {
        assert IsLatestAnswer(taken, last, name);
      } else {
        AnsweredOrNot(taken[..last], name);
        if i :| IsLatestAnswer(taken[..last], i, name) {
          assert IsLatestAnswer(taken, i, name);
        }
      }
    }
  }

  /** The value of a name is the latest answer bound to it, or the seed's value if there is none. */
  lemma ParamIsLatestAnswer(seed: map<string, string>, taken: seq<Taken>, name: string)
    ensures if Unanswered(taken, name) then
              (name in Params(seed, taken) <==> name in seed) && (name in seed ==> Params(seed, taken)[name] == seed[name])
            else
              exists i :: IsLatestAnswer(taken, i, name) && name in Params(seed, taken)
                          && Params(seed, taken)[name] == Output(taken[i].result)
  {
    AnsweredOrNot(taken, name);
    if Unanswered(taken, name) {
      UnansweredIsSeed(seed, taken, name);
    } else {
      var i :| IsLatestAnswer(taken, i, name);
      LatestAnswerWins(seed, taken, i, name);
    }
  }

  // ---- events ----

  function StartEvent(i: nat, s: TrialStep): Event {
    if s.kind == "human" then Event(i, SWaiting, false, "")
    else if s.kind == "ask" then Event(i, SWaiting, true, TrimSpace(s.target))
    else Event(i, SRunning, false, "")
  }

  function Plain(i: int, status: Status): Event { Event(i, status, false, "") }

  /** Each step has its start event and its done or failed event, in order. */
  predicate StepEvents(events: seq<Event>, taken: seq<Taken>) {
    && |events| == 2 * |taken|
    && forall i :: 0 <= i < |taken| ==> StepPair(events, i, taken[i])
  }

  predicate StepPair(events: seq<Event>, i: nat, x: Taken) {
    && 2 * i + 1 < |events| && events[2 * i] == StartEvent(i, x.step)
    && events[2 * i + 1] == Plain(i, if x.result.Done? then SDone else SFailed)
  }

  predicate LastFailed(taken: seq<Taken>) {
    taken != [] && taken[|taken| - 1].result.Failed?
  }

  /** The events of a run: those of its steps, and one with index -1 that ends it. */
  predicate EventsOf(events: seq<Event>, taken: seq<Taken>) {
    && events != [] && StepEvents(events[..|events| - 1], taken)
    && events[|events| - 1] == Plain(-1, if LastFailed(taken) then SFailed else SDone)
  }

  lemma AddsEvents(events: seq<Event>, taken: seq<Taken>, x: Taken)
    requires StepEvents(events, taken)
    ensures StepEvents(events + [StartEvent(|taken|, x.step), Plain(|taken|, if x.result.Done? then SDone else SFailed)], taken + [x])
  {
    var start, end := StartEvent(|taken|, x.step), Plain(|taken|, if x.result.Done? then SDone else SFailed);
    var more := events + [start, end];
    forall i | 0 <= i < |taken| + 1
      ensures StepPair(more, i, (taken + [x])[i])
    {
      if i < |taken| {
        assert StepPair(events, i, taken[i]);
      }
    }
  }

  /** The event that ends a run comes once, last, and says whether the last step failed. */
  lemma OneFinalEvent(events: seq<Event>, taken: seq<Taken>, j: nat)
    requires EventsOf(events, taken) && j < |events|
    ensures events[j].index == -1 <==> j == |events| - 1
    ensures |events| == 2 * |taken| + 1
    ensures events[|events| - 1] == Event(-1, if taken != [] && taken[|taken| - 1].result.Failed? then SFailed else SDone, false, "")
  {
    if j < |events| - 1 {
      assert StepPair(events[..|events| - 1], j / 2, taken[j / 2]);
    }
  }

  // ---- one step ----

  /** What a parked step came to. */
  predicate ParkResult(s: TrialStep, r: StepResult, cause: Cause) {
    match cause
    case ByReply(text) => r.Done? && (s.kind == "ask" ==> r.output == text)
    case ByDetection => r.Done? && s.kind == "human" && TrimSpace(s.condition) != ""
    case _ => r.Failed?
  }

  /** The run closure. world is what the browser does with a substituted step; probes says which polls of a
      waiting step detect its condition. */
  method RunStep(gate: ConsoleTrialGate, ghost t: RunId, i: nat, s: TrialStep, world: (nat, TrialStep) -> StepResult,
                 probes: nat -> seq<bool>, budget: nat) returns (r: StepResult)
    requires gate.Holds(t, Between)
    modifies gate`sys, gate.resume, gate.abort
    ensures gate.Holds(t, Between) && Reaches(old(gate.sys), gate.sys)
    ensures !Parks(s) ==> gate.sys == old(gate.sys) && (s.kind in PRIMITIVES ==> r == world(i, s)) && (s.kind !in PRIMITIVES ==> r.Failed?)
    ensures Parks(s) ==>
              var n := |old(gate.sys.releases)|;
              && |gate.sys.releases| == n + 1 && gate.sys.releases[..n] == old(gate.sys.releases) && gate.sys.releases[n].run == t
              && gate.sys.releases[n].start >= |old(gate.sys.log)| && UsesItsOwnSignal(gate.sys.log, gate.sys.releases[n])
              && ParkResult(s, r, gate.sys.releases[n].cause)
  {
    ReachesSelf(gate.sys);
    if s.kind in PRIMITIVES {
      NoPrimitiveParks(s);
      return world(i, s);
    } else if Parks(s) {
      var o := gate.ParkTrialStep(t, s.kind == "human" && TrimSpace(s.condition) != "", probes(i), budget);
      match o
      case Continued(reply) => return Done(if s.kind == "ask" then reply else "continued");
      case Aborted => return Failed("aborted");
      case TimedOut => return Failed("timed out");
    } else {
      return Failed("unknown step type");
    }
  }

  /** The parked steps among those taken ended by these releases of run t, in that order, and their results are
      what released them. */
  predicate ParkedBy(taken: seq<Taken>, releases: seq<Release>, t: RunId)
    decreases |taken|
  {
    if taken == [] then releases == []
    else
      var k, n, x := |taken| - 1, |releases| - 1, taken[|taken| - 1];
      if Parks(x.step) then
        n >= 0 && releases[n].run == t && ParkResult(x.step, x.result, releases[n].cause) && ParkedBy(taken[..k], releases[..n], t)
      else ParkedBy(taken[..k], releases, t)
  }

  /** How many of the steps parked. */
  function Parked(taken: seq<Taken>): nat {
    if taken == [] then 0 else Parked(taken[..|taken| - 1]) + if Parks(taken[|taken| - 1].step) then 1 else 0
  }

  lemma {:induction false} ParkedCounts(taken: seq<Taken>, releases: seq<Release>, t: RunId)
    requires ParkedBy(taken, releases, t)
    ensures |releases| == Parked(taken)
    decreases |taken|
  {
    if taken != [] {
      var k := |taken| - 1;
      ParkedCounts(taken[..k], if Parks(taken[k].step) then releases[..|releases| - 1] else releases, t);
    }
  }

  /** The n-th parked step of a run is ended by the run's n-th release: a reply and a detected condition let it go
      on, with the reply as the answer of a question; an abort and the timeout fail it. */
  lemma {:induction false} ParkedStepsEndAsReleased(taken: seq<Taken>, releases: seq<Release>, t: RunId, i: nat)
    requires ParkedBy(taken, releases, t) && i < |taken| && (taken[i].step.kind == "human" || taken[i].step.kind == "ask")
    ensures Parked(taken[..i]) < |releases|
    ensures var r, x := releases[Parked(taken[..i])], taken[i];
            && r.run == t
            && (x.result.Done? <==> r.cause.ByReply? || r.cause.ByDetection?)
            && (x.step.kind == "ask" && r.cause.ByReply? ==> x.result == Done(r.cause.text))
            && (r.cause.ByDetection? ==> x.step.kind == "human" && TrimSpace(x.step.condition) != "")
    decreases |taken|
  {
    var k := |taken| - 1;
    ParkedCounts(taken, releases, t);
    if i < k {
      var rest := if Parks(taken[k].step) then releases[..|releases| - 1] else releases;
      ParkedStepsEndAsReleased(taken[..k], rest, t, i);
      assert taken[..k][..i] == taken[..i];
    }
  }

  lemma OneMoreParked(taken: seq<Taken>, releases: seq<Release>, x: Taken, r: Release, t: RunId)
    requires ParkedBy(taken, releases, t) && Parks(x.step) && r.run == t && ParkResult(x.step, x.result, r.cause)
    ensures ParkedBy(taken + [x], releases + [r], t)
  {
    assert (taken + [x])[..|taken|] == taken && (releases + [r])[..|releases|] == releases;
  }

  lemma OneMoreOther(taken: seq<Taken>, releases: seq<Release>, x: Taken, t: RunId)
    requires ParkedBy(taken, releases, t) && !Parks(x.step)
    ensures ParkedBy(taken + [x], releases, t)
  {
    assert (taken + [x])[..|taken|] == taken;
  }

  lemma OneMoreRelease(before: seq<Release>, after: seq<Release>, first: nat)
    requires first <= |before| && |after| == |before| + 1 && after[..|before|] == before
    ensures after[first..] == before[first..] + [after[|before|]]
  {
    assert after == before + [after[|before|]];
  }

  lemma ParkedByOneMore(taken: seq<Taken>, before: seq<Release>, x: Taken, after: seq<Release>, first: nat, t: RunId)
    requires first <= |before| && ParkedBy(taken, before[first..], t)
    requires if Parks(x.step) then
               |after| == |before| + 1 && after[..|before|] == before && after[|before|].run == t
               && ParkResult(x.step, x.result, after[|before|].cause)
             else after == before
    ensures ParkedBy(taken + [x], after[first..], t)
  {
    if Parks(x.step) {
      OneMoreRelease(before, after, first);
      OneMoreParked(taken, before[first..], x, after[|before|], t);
    } else {
      OneMoreOther(taken, before[first..], x, t);
    }
  }

  lemma NoPrimitiveParks(s: TrialStep)
    requires s.kind in PRIMITIVES
    ensures !Parks(s)
  {}

  // ---- the run ----

  /** Step i of the run: what was executed is the substituted step, with the parameters known by then. */
  predicate TakenAsWritten(sub: Sub, steps: seq<TrialStep>, seed: map<string, string>, taken: seq<Taken>, i: nat)
    requires i < |taken| <= |steps|
  {
    && taken[i].step == SubstStep(sub, steps[i], Params(seed, taken[..i]))
    && taken[i].bound == BoundName(taken[i].step, taken[i].result)
  }

  predicate ResultIs(world: (nat, TrialStep) -> StepResult, taken: seq<Taken>, i: nat)
    requires i < |taken|
  {
    !Parks(taken[i].step) ==>
      if taken[i].step.kind in PRIMITIVES then taken[i].result == world(i, taken[i].step) else taken[i].result.Failed?
  }

  /** The steps a run has taken so far: each as written, only the last one may have failed. */
  predicate Followed(sub: Sub, steps: seq<TrialStep>, seed: map<string, string>, taken: seq<Taken>,
                     world: (nat, TrialStep) -> StepResult)
  {
    && |taken| <= |steps|
    && (forall i :: 0 <= i < |taken| ==> TakenAsWritten(sub, steps, seed, taken, i) && ResultIs(world, taken, i))
    && (forall i :: 0 <= i < |taken| - 1 ==> taken[i].result.Done?)
  }

  /** The step loop. */
  method RunSteps(gate: ConsoleTrialGate, ghost t: RunId, sub: Sub, steps: seq<TrialStep>, seed: map<string, string>,
                  world: (nat, TrialStep) -> StepResult, probes: nat -> seq<bool>, budget: nat)
    returns (events: seq<Event>, taken: seq<Taken>)
    requires gate.Holds(t, Between) && steps != []
    modifies gate`sys, gate.resume, gate.abort
    ensures gate.Holds(t, Between)
    ensures EventsOf(events, taken) && taken != [] && Followed(sub, steps, seed, taken, world)
    ensures |taken| == |steps| || LastFailed(taken)
    ensures |old(gate.sys.releases)| <= |gate.sys.releases|
    ensures ParkedBy(taken, gate.sys.releases[|old(gate.sys.releases)|..], t)
  {
    events, taken := [], [];
    ghost var first := |gate.sys.releases|;
    var params := seed;
    var failed := false;
    for i := 0 to |steps|
      invariant i == |taken| && gate.Holds(t, Between) && params == Params(seed, taken)
      invariant StepEvents(events, taken) && Followed(sub, steps, seed, taken, world)
      invariant failed <==> LastFailed(taken)
      invariant !failed
      invariant first <= |gate.sys.releases| && ParkedBy(taken, gate.sys.releases[first..], t)
    {
      ghost var before := gate.sys.releases;
      var s := SubstStep(sub, steps[i], params);
      var r := RunStep(gate, t, i, s, world, probes, budget);
      var bind := BoundName(s, r);
      if bind != "" {
        params := params[bind := Output(r)];
      }
      TakesOneMore(sub, steps, seed, taken, Taken(s, r, bind), world);
      AddsEvents(events, taken, Taken(s, r, bind));
      ParkedByOneMore(taken, before, Taken(s, r, bind), gate.sys.releases, first, t);
      events := events + [StartEvent(i, s), Plain(i, if r.Done? then SDone else SFailed)];
      taken := taken + [Taken(s, r, bind)];
      failed := r.Failed?;
      if failed {
        break;
      }
    }
    ghost var before := events;
    events := events + [Plain(-1, if failed then SFailed else SDone)];
    assert events[..|events| - 1] == before;
  }

  /** BrowserConsoleTrialRun: opens says whether the browser session could be opened. */
  method BrowserConsoleTrialRun(gate: ConsoleTrialGate, steps: seq<TrialStep>, seed: map<string, string>, opens: bool,
                                world: (nat, TrialStep) -> StepResult, probes: nat -> seq<bool>, budget: nat)
    returns (result: RunResult, events: seq<Event>, taken: seq<Taken>)
    requires gate.Valid()
    modifies gate
    ensures gate.Valid() && gate.active == old(gate.active)
    ensures result == if steps == [] then NoSteps else if old(gate.active) then AlreadyRunning
                      else if !opens then NoBrowser else Finished
    ensures result != Finished ==> events == [] && taken == []
    ensures result == Finished ==> EventsOf(events, taken) && taken != []
    ensures result == Finished ==> |taken| == |steps| || LastFailed(taken)
    ensures Followed(Subst, steps, seed, taken, world)
    ensures |old(gate.sys.releases)| <= |gate.sys.releases|
    ensures ParkedBy(taken, gate.sys.releases[|old(gate.sys.releases)|..], |old(gate.sys.runs)|)
  {
    events, taken := [], [];
    if steps == [] {
      return NoSteps, events, taken;
    }
    ghost var t := |gate.sys.runs|;
    var ok := gate.Enter();
    if !ok {
      return AlreadyRunning, events, taken;
    }
    if !opens {
      gate.Leave(t);
      return NoBrowser, events, taken;
    }
    events, taken := RunSteps(gate, t, Subst, steps, seed, world, probes, budget);
    gate.Leave(t);
    result := Finished;
  }

  /** Every step runs as it was written: under its own kind, each of its texts with the references substituted by
      what was known then. */
  lemma StepsRunAsWritten(steps: seq<TrialStep>, seed: map<string, string>, taken: seq<Taken>,
                          world: (nat, TrialStep) -> StepResult, i: nat)
    requires Followed(Subst, steps, seed, taken, world) && i < |taken|
    ensures |taken| <= |steps|
    ensures var known := Params(seed, taken[..i]); var s, run := steps[i], taken[i].step;
            && run.kind == s.kind && run.target == Subst(s.target, known) && run.url == Subst(s.url, known)
            && run.text == Subst(s.text, known) && run.value == Subst(s.value, known)
            && run.expression == Subst(s.expression, known) && run.condition == Subst(s.condition, known)
            && |run.files| == |s.files| && (forall j :: 0 <= j < |s.files| ==> run.files[j] == Subst(s.files[j], known))
  {
    assert TakenAsWritten(Subst, steps, seed, taken, i);
  }

  /** A step's events say which it is and how it ended; a question announces its trimmed target, and binds it if it
      was answered. */
  lemma StepsAreReported(steps: seq<TrialStep>, seed: map<string, string>, taken: seq<Taken>,
                         world: (nat, TrialStep) -> StepResult, events: seq<Event>, i: nat)
    requires Followed(Subst, steps, seed, taken, world) && EventsOf(events, taken) && i < |taken|
    ensures |taken| <= |steps| && 2 * i + 1 < |events|
    ensures var target := TrimSpace(Subst(steps[i].target, Params(seed, taken[..i]))); var ask := steps[i].kind == "ask";
            && taken[i].bound == (if ask && taken[i].result.Done? then target else "")
            && events[2 * i] == Event(i, if ask || steps[i].kind == "human" then SWaiting else SRunning, ask, if ask then target else "")
            && events[2 * i + 1] == Event(i, if taken[i].result.Done? then SDone else SFailed, false, "")
  {
    StepsRunAsWritten(steps, seed, taken, world, i);
    assert taken[i].bound == BoundName(taken[i].step, taken[i].result) by {
      assert TakenAsWritten(Subst, steps, seed, taken, i);
    }
    assert StepPair(events[..|events| - 1], i, taken[i]);
  }

  /** The kinds that run in the browser; any other that does not park fails. */
  lemma OnlyTheseKindsRun(steps: seq<TrialStep>, seed: map<string, string>, taken: seq<Taken>,
                          world: (nat, TrialStep) -> StepResult, i: nat)
    requires Followed(Subst, steps, seed, taken, world) && i < |taken|
    ensures var kind := taken[i].step.kind;
            if kind in {"navigate", "back", "forward", "click", "hover", "type", "key", "scroll", "select", "upload", "wait",
                        "extract", "screenshot", "evaluate"} then taken[i].result == world(i, taken[i].step)
            else kind == "human" || kind == "ask" || taken[i].result.Failed?
  {
    assert ResultIs(world, taken, i);
    if taken[i].step.kind in PRIMITIVES {
      NoPrimitiveParks(taken[i].step);
    }
  }

  lemma TakesOneMore(sub: Sub, steps: seq<TrialStep>, seed: map<string, string>, taken: seq<Taken>, x: Taken,
                     world: (nat, TrialStep) -> StepResult)
    requires Followed(sub, steps, seed, taken, world) && !LastFailed(taken) && |taken| < |steps|
    requires x.step == SubstStep(sub, steps[|taken|], Params(seed, taken)) && x.bound == BoundName(x.step, x.result)
    requires !Parks(x.step) ==>
               if x.step.kind in PRIMITIVES then x.result == world(|taken|, x.step) else x.result.Failed?
    ensures Followed(sub, steps, seed, taken + [x], world)
    ensures Params(seed, taken + [x]) ==
            if x.bound != "" then Params(seed, taken)[x.bound := Output(x.result)] else Params(seed, taken)
  {
    var more := taken + [x];
    assert more[..|taken|] == taken;
    forall j | 0 <= j < |more|
      ensures TakenAsWritten(sub, steps, seed, more, j) && ResultIs(world, more, j)
    {
      if j < |taken| {
        assert TakenAsWritten(sub, steps, seed, taken, j) && ResultIs(world, taken, j);
        assert more[..j] == taken[..j];
      }
    }
  }
}
