/** The promise that a switch leaks nothing fails for effort and profile switches: a concrete interleaving. */
module SwapRace {
  import opened SharedHost
  import opened ControllerSwap
  import opened Wrappers

  /** One tab (root "r") whose controller 0 is open on host 0. */
  function OneTab(): Sys {
    Sys(map[0 := "r"], map[0 := Some(0)], map[0 := Controller("r", 0, 0)], Table(map["r" := Entry(0, 1)], {}, 1), map[], None)
  }

  lemma OneTabIsInitial()
    ensures Initial(OneTab())
  {
    var s := OneTab();
    forall r: Root
      ensures Counted(s, r)
    {
      assert OpenOn(s, r) == if r == "r" then {0} else {};
      assert HeldOn(s, r) == {};
    }
    assert s.tabs[0] == Some(0);
    assert Stray(s) == {};
  }

  /** Two switches of that tab by attempts 0 and 1, which build controllers 1 and 2. */
  function Race(kind: Kind, p: Phase, q: Phase, refs: int, ctrls: map<Ctrl, Controller>, owner: Ctrl, mu: Option<Id>): Sys {
    Sys(map[0 := "r"], map[0 := Some(owner)], ctrls, Table(map["r" := Entry(0, refs)], {}, 1),
        map[0 := Attempt(kind, 0, "r", Some(0), p), 1 := Attempt(kind, 0, "r", Some(0), q)], mu)
  }

  function C(closes: nat): Controller { Controller("r", 0, closes) }

  /** The interleaving, state by state. */
  function Stage(kind: Kind, n: nat): Sys {
    match n
    case 0 => Race(kind, Snapshotted, Snapshotted, 1, map[0 := C(0)], 0, None)
    case 1 => Race(kind, Acquired(0), Snapshotted, 2, map[0 := C(0)], 0, None)
    case 2 => Race(kind, Acquired(0), Acquired(0), 3, map[0 := C(0)], 0, None)
    case 3 => Race(kind, Built(1), Acquired(0), 3, map[0 := C(0), 1 := C(0)], 0, None)
    case 4 => Race(kind, Built(1), Built(2), 3, map[0 := C(0), 1 := C(0), 2 := C(0)], 0, None)
    case 5 => Race(kind, Installed, Built(2), 3, map[0 := C(0), 1 := C(0), 2 := C(0)], 1, Some(0))
    case 6 => Race(kind, OldClosed, Built(2), 3, map[0 := C(1), 1 := C(0), 2 := C(0)], 1, Some(0))
    case 7 => Race(kind, Settled, Built(2), 2, map[0 := C(1), 1 := C(0), 2 := C(0)], 1, Some(0))
    case 8 => Race(kind, Finished, Built(2), 2, map[0 := C(1), 1 := C(0), 2 := C(0)], 1, None)
    case 9 => Race(kind, Finished, Settled, 2, map[0 := C(1), 1 := C(0), 2 := C(0)], 2, Some(1))
    case _ => Race(kind, Finished, Finished, 2, map[0 := C(1), 1 := C(0), 2 := C(0)], 2, None)
  }

  ghost predicate Leads(s: Sys, st: Step, e: Sys) {
    Enabled(s, st) && Next(s, st) == e
  }

  lemma Builds(kind: Kind)
    ensures Leads(Stage(kind, 0), AcquireHost(0), Stage(kind, 1))
    ensures Leads(Stage(kind, 1), AcquireHost(1), Stage(kind, 2))
  {}

  lemma BuildsBoth(kind: Kind)
    ensures Leads(Stage(kind, 2), FinishBuild(0, 1), Stage(kind, 3))
    ensures Leads(Stage(kind, 3), FinishBuild(1, 2), Stage(kind, 4))
  {}

  lemma FirstInstalls(kind: Kind)
    requires kind == SetEffort || kind == SwitchProfile
    ensures Leads(Stage(kind, 4), Swap(0), Stage(kind, 5))
  {}

  lemma FirstCloses(kind: Kind)
    ensures Leads(Stage(kind, 5), CloseOld(0), Stage(kind, 6))
  {}

  lemma FirstFinishes(kind: Kind)
    ensures Leads(Stage(kind, 6), ReleaseOld(0), Stage(kind, 7))
  {}

  lemma FirstUnlocks(kind: Kind)
    ensures Leads(Stage(kind, 7), Unlock(0), Stage(kind, 8))
  {}

  lemma SecondOverwrites(kind: Kind)
    requires kind == SetEffort || kind == SwitchProfile
    ensures Leads(Stage(kind, 8), Swap(1), Stage(kind, 9))
  {}

  lemma SecondUnlocks(kind: Kind)
    ensures Leads(Stage(kind, 9), Unlock(1), Stage(kind, 10))
  {}

  lemma BothBegin(kind: Kind)
    requires kind == SetEffort || kind == SwitchProfile
    ensures Reaches(OneTab(), Stage(kind, 0))
  {
    var m := OneTab().(attempts := map[0 := Attempt(kind, 0, "r", Some(0), Snapshotted)]);
    assert Leads(OneTab(), Begin(0, kind, 0), m);
    ReachesByStep(OneTab(), Begin(0, kind, 0));
    assert Leads(m, Begin(1, kind, 0), Stage(kind, 0));
    ReachesByStep(m, Begin(1, kind, 0));
    ReachesTrans(OneTab(), m, Stage(kind, 0));
  }

  lemma StagesFollow(kind: Kind, n: nat) returns (st: Step)
    requires (kind == SetEffort || kind == SwitchProfile) && n < 10
    ensures Leads(Stage(kind, n), st, Stage(kind, n + 1))
  {
    Builds(kind);
    BuildsBoth(kind);
    FirstInstalls(kind);
    FirstCloses(kind);
    FirstFinishes(kind);
    FirstUnlocks(kind);
    SecondOverwrites(kind);
    SecondUnlocks(kind);
    st := [AcquireHost(0), AcquireHost(1), FinishBuild(0, 1), FinishBuild(1, 2), Swap(0), CloseOld(0), ReleaseOld(0), Unlock(0), Swap(1), Unlock(1)][n];
  }

  lemma {:induction false} StageReached(kind: Kind, n: nat)
    requires (kind == SetEffort || kind == SwitchProfile) && n <= 10
    ensures Reaches(OneTab(), Stage(kind, n))
  {
    if n == 0 {
      BothBegin(kind);
    } else {
      StageReached(kind, n - 1);
      var st := StagesFollow(kind, n - 1);
      ReachesByStep(Stage(kind, n - 1), st);
      ReachesTrans(OneTab(), Stage(kind, n - 1), Stage(kind, n));
    }
  }

  /** Two concurrent effort (or profile) switches of one tab end with both attempts finished, the tab pointing
      at controller 2 and controller 1 still open with a reference that nobody will release. */
  lemma ConcurrentEffortSwitchesLeak(kind: Kind)
    requires kind == SetEffort || kind == SwitchProfile
    ensures Initial(OneTab()) && Reaches(OneTab(), Stage(kind, 10)) && AllFinished(Stage(kind, 10))
    ensures Open(Stage(kind, 10)) == {1, 2} && InstalledCtrls(Stage(kind, 10)) == {2}
    ensures Refs(Stage(kind, 10).hosts, "r") == 2
  {
    OneTabIsInitial();
    StageReached(kind, 10);
    assert Stage(kind, 10).tabs[0] == Some(2);
  }
}
