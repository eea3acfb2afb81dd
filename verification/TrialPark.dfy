/** The gate object and the parking of a step, each one a sequence of steps of the TrialGate machine between
    which other goroutines may signal. */
module TrialPark {
  import opened TrialGate
  import opened Wrappers

  /** A channel with one slot, used with non-blocking sends and receives. */
  class Chan<T> {
    var item: Option<T>

    constructor ()
      ensures item == None
    {
      item := None;
    }

    method TrySend(x: T)
      modifies this
      ensures item == if old(item).Some? then old(item) else Some(x)
    {
      if item.None? {
        item := Some(x);
      }
    }

    method TryReceive() returns (x: Option<T>)
      modifies this
      ensures x == old(item) && item == None
    {
      x := item;
      item := None;
    }
  }

  datatype Outcome = Continued(reply: string) | Aborted | TimedOut

  class ConsoleTrialGate {
    var active: bool
    var resume: Chan?<string>
    var abort: Chan?<()>
    ghost var sys: Sys

    ghost predicate Valid()
      reads this, resume, abort
    {
      && Inv(sys)
      && (active <==> sys.gate.Some?)
      && (active <==> resume != null) && (active <==> abort != null)
      && (active ==> sys.runs[sys.gate.value].reply == resume.item && (sys.runs[sys.gate.value].abort <==> abort.item.Some?))
    }

    /** The gate of a program in which no trial run has started. */
    constructor ()
      ensures Valid() && sys == INITIAL
    {
      active, resume, abort, sys := false, null, null, INITIAL;
    }

    /** Bookkeeping of one step. */
    ghost method Took(start: Sys, st: Step)
      requires Inv(sys) && Enabled(sys, st) && Reaches(start, sys)
      modifies this`sys
      ensures sys == Next(old(sys), st) && Inv(sys) && Reaches(start, sys)
    {
      KeepsInv(sys, st);
      ReachesOneMore(start, sys, st);
      sys := Next(sys, st);
    }

    /** enter: claims the single slot, or is refused. */
    method Enter() returns (ok: bool)
      requires Valid()
      modifies this
      ensures Valid() && sys == Next(old(sys), TrialGate.Enter)
      ensures ok <==> !old(active)
      ensures ok ==> active && fresh(resume) && fresh(abort)
      ensures !ok ==> resume == old(resume) && abort == old(abort)
    {
      ghost var s := sys;
      ReachesSelf(s);
      if active {
        Took(s, TrialGate.Enter);
        return false;
      }
      active := true;
      resume := new Chan();
      abort := new Chan();
      Took(s, TrialGate.Enter);
      return true;
    }

    /** leave, by the run that holds the gate. */
    method Leave(ghost t: RunId)
      requires Valid() && At(sys, t) && sys.runs[t].phase.Between?
      modifies this
      ensures Valid() && !active && sys == Next(old(sys), TrialGate.Leave(t))
    {
      ReachesSelf(sys);
      active, resume, abort := false, null, null;
      Took(sys, TrialGate.Leave(t));
    }

    /** signalResume: false only if no run is active. */
    method SignalResume(reply: string) returns (ok: bool)
      requires Valid()
      modifies this`sys, resume
      ensures Valid() && sys == Next(old(sys), SignalReply(reply))
      ensures ok <==> active
    {
      ReachesSelf(sys);
      Took(sys, SignalReply(reply));
      if resume == null {
        return false;
      }
      resume.TrySend(reply);
      return true;
    }

    /** signalAbort. */
    method SignalAbort() returns (ok: bool)
      requires Valid()
      modifies this`sys, abort
      ensures Valid() && sys == Next(old(sys), TrialGate.SignalAbort)
      ensures ok <==> active
    {
      ReachesSelf(sys);
      Took(sys, TrialGate.SignalAbort);
      if abort == null {
        return false;
      }
      abort.TrySend(());
      return true;
    }

    // ---- parking ----

    /** Run t holds the gate and its step is in this phase; nobody else changes that. */
    ghost predicate Holds(t: RunId, phase: Phase)
      reads this, resume, abort
    {
      Valid() && active && sys.gate == Some(t) && sys.runs[t].phase == phase
    }

    /** Whatever signals other goroutines send before the next step of run t. At most `budget` more signals come
        in all; `left` is what remains of that. */
    method Others(ghost start: Sys, ghost t: RunId, ghost phase: Phase, budget: nat) returns (left: nat)
      requires Holds(t, phase) && Reaches(start, sys)
      modifies this`sys, resume, abort
      ensures Holds(t, phase) && Reaches(start, sys)
      ensures sys.releases == old(sys.releases) && |old(sys.log)| <= |sys.log|
      ensures left <= budget && (left == budget ==> resume.item == old(resume.item) && abort.item == old(abort.item))
    {
      left := budget;
      var more: bool := *;
      while more && left > 0
        invariant Holds(t, phase) && Reaches(start, sys)
        invariant sys.releases == old(sys.releases) && |old(sys.log)| <= |sys.log|
        invariant left <= budget && (left == budget ==> resume.item == old(resume.item) && abort.item == old(abort.item))
        decreases left
      {
        more := *;
        var isReply: bool := *;
        var reply: string := *;
        ghost var before := sys;
        if isReply {
          var ok := SignalResume(reply);
          ReachesOneMore(start, before, SignalReply(reply));
        } else {
          var ok := SignalAbort();
          ReachesOneMore(start, before, TrialGate.SignalAbort);
        }
        left := left - 1;
      }
    }

    /** drainReply: receives until the channel is found empty. */
    method DrainReply(ghost start: Sys, ghost t: RunId, ghost detect: bool, budget: nat) returns (left: nat)
      requires Holds(t, DrainingReply(detect)) && Reaches(start, sys)
      modifies this`sys, resume, abort
      ensures exists m :: |old(sys.log)| <= m <= |sys.log| && Holds(t, DrainingAbort(detect, m))
      ensures Reaches(start, sys) && sys.releases == old(sys.releases) && |old(sys.log)| <= |sys.log|
    {
      left := budget;
      while resume.item.Some?
        invariant Holds(t, DrainingReply(detect)) && Reaches(start, sys)
        invariant sys.releases == old(sys.releases) && |old(sys.log)| <= |sys.log|
        decreases left, resume.item.Some?
      {
        var x := resume.TryReceive();
        Took(start, TakeReply(t));
        left := Others(start, t, DrainingReply(detect), left);
      }
      Took(start, ReplyEmpty(t));
    }

    /** drainChan. */
    method DrainAbort(ghost start: Sys, ghost t: RunId, ghost detect: bool, ghost m: nat, budget: nat) returns (left: nat)
      requires Holds(t, DrainingAbort(detect, m)) && Reaches(start, sys)
      modifies this`sys, resume, abort
      ensures exists a :: Holds(t, Waiting(detect, m, a))
      ensures Reaches(start, sys) && sys.releases == old(sys.releases) && |old(sys.log)| <= |sys.log|
    {
      left := budget;
      while abort.item.Some?
        invariant Holds(t, DrainingAbort(detect, m)) && Reaches(start, sys)
        invariant sys.releases == old(sys.releases) && |old(sys.log)| <= |sys.log|
        decreases left, abort.item.Some?
      {
        var x := abort.TryReceive();
        Took(start, TakeAbort(t));
        left := Others(start, t, DrainingAbort(detect, m), left);
      }
      Took(start, AbortEmpty(t));
    }

    /** How a park ended, as its caller sees it and as the machine records it. */
    ghost predicate EndedAs(o: Outcome, detect: bool, cause: Cause) {
      match cause
      case ByReply(text) => o == Continued(text)
      case ByAbort => o == Outcome.Aborted
      case ByTimeout => o == TimedOut
      case ByDetection => o == Continued("") && detect
    }

    /** parkTrialStep's select loop. A tick of the poll is used up per round, `probes` says which of them detect
        the condition, and the deadline comes with the last; a ready channel may be picked in any round. */
    method Wait(ghost start: Sys, ghost t: RunId, detect: bool, ghost m: nat, ghost a: nat, probes: seq<bool>, budget: nat)
      returns (o: Outcome)
      requires Holds(t, Waiting(detect, m, a)) && Reaches(start, sys)
      modifies this`sys, resume, abort
      ensures Holds(t, Between) && Reaches(start, sys)
      ensures exists r: Release :: sys.releases == old(sys.releases) + [r] && r.run == t && r.start >= m && EndedAs(o, detect, r.cause)
    {
      var left := budget;
      assert RunInv(sys, t);
      for tick := 0 to |probes|
        invariant Holds(t, Waiting(detect, m, a)) && Reaches(start, sys) && sys.releases == old(sys.releases) && m <= a
      {
        left := Others(start, t, Waiting(detect, m, a), left);
        var pick: nat := *;
        if pick == 0 && resume.item.Some? {
          var x := resume.TryReceive();
          Took(start, GetReply(t));
          assert sys.releases == old(sys.releases) + [Release(t, ByReply(x.value), m, |sys.log|)];
          return Continued(x.value);
        } else if pick == 1 && abort.item.Some? {
          var x := abort.TryReceive();
          Took(start, GetAbort(t));
          assert sys.releases == old(sys.releases) + [Release(t, ByAbort, a, |sys.log|)];
          return Outcome.Aborted;
        } else if detect && probes[tick] {
          Took(start, TrialGate.Detect(t));
          assert sys.releases == old(sys.releases) + [Release(t, ByDetection, m, |sys.log|)];
          return Continued("");
        }
      }
      Took(start, TrialGate.TimeOut(t));
      assert sys.releases == old(sys.releases) + [Release(t, ByTimeout, m, |sys.log|)];
      return TimedOut;
    }

    /** parkTrialStep, right after the "waiting" event: the park uses no signal that was accepted before it, and a
        reply it returns is the first one accepted for this run in its window. */
    method ParkTrialStep(ghost t: RunId, detect: bool, probes: seq<bool>, budget: nat) returns (o: Outcome)
      requires Holds(t, Between)
      modifies this`sys, resume, abort
      ensures Holds(t, Between) && Reaches(old(sys), sys)
      ensures |sys.releases| == |old(sys.releases)| + 1 && sys.releases[..|old(sys.releases)|] == old(sys.releases)
      ensures var r := sys.releases[|old(sys.releases)|];
              && r.run == t && r.start >= |old(sys.log)| && EndedAs(o, detect, r.cause) && UsesItsOwnSignal(sys.log, r)
    {
      ghost var start := sys;
      ReachesSelf(start);
      Took(start, TrialGate.Park(t, detect));
      var left := Others(start, t, DrainingReply(detect), budget);
      left := DrainReply(start, t, detect, left);
      ghost var m :| |start.log| <= m <= |sys.log| && Holds(t, DrainingAbort(detect, m));
      left := Others(start, t, DrainingAbort(detect, m), left);
      left := DrainAbort(start, t, detect, m, left);
      ghost var a :| Holds(t, Waiting(detect, m, a));
      o := Wait(start, t, detect, m, a, probes, left);
      assert ReleaseInv(sys, |start.releases|);
      JustifiedUsesItsOwn(sys.log, sys.releases[|start.releases|]);
    }
  }
}
