/** Rebuilding the controller of a tab: every attempt snapshots the tab, acquires the shared host, builds
    (which may fail) and then, under the App lock, installs its controller or gives way to another attempt.

    The protocol is a state machine over the steps of any number of attempts, so that a run is any
    interleaving of them. */
module ControllerSwap {
  import opened SharedHost
  import opened Wrappers

  type Tab = nat
  type Ctrl = nat
  type Id = nat

  /** What started the attempt: SetModelForTab, SwitchProfileForTab, SetEffortForTab, buildTabController or
      runHeadlessScheduled (which has no tab). */
  datatype Kind = SetModel | SwitchProfile | SetEffort | OpenTab | Scheduled

  datatype Phase =
    | Snapshotted             // tab state read; no reference held
    | Acquired(host: HostId)  // holds one host reference; boot.Build is running
    | BuildFailed             // still holds the reference
    | Built(ctrl: Ctrl)      // the reference now belongs to the open controller
    | Installed               // App lock held; the replaced controller is still open
    | OldClosed               // App lock held; holds the replaced controller's reference
    | Settled                 // App lock held; nothing left to release
    | Losing(ctrl: Ctrl)     // lock dropped; the new controller is to be discarded
    | FreshClosed             // holds the discarded controller's reference
    | Finished

  datatype Attempt = Attempt(kind: Kind, tab: Tab, root: Root, prev: Option<Ctrl>, phase: Phase)

  datatype Controller = Controller(root: Root, host: HostId, closes: nat)

  datatype Sys = Sys(
    rootOf: map<Tab, Root>,
    tabs: map<Tab, Option<Ctrl>>,
    ctrls: map<Ctrl, Controller>,
    hosts: Table,
    attempts: map<Id, Attempt>,
    mu: Option<Id>)

  datatype Step =
    | Begin(a: Id, kind: Kind, tab: Tab)
    | BeginScheduled(a: Id, root: Root)
    | GiveUp(a: Id)
    | AcquireHost(a: Id)
    | FailBuild(a: Id)
    | DropAcquire(a: Id)
    | FinishBuild(a: Id, ctrl: Ctrl)
    | Swap(a: Id)
    | CloseOld(a: Id)
    | ReleaseOld(a: Id)
    | Unlock(a: Id)
    | CloseFresh(a: Id)
    | ReleaseFresh(a: Id)

  predicate In(s: Sys, a: Id, phase: Phase) {
    a in s.attempts && s.attempts[a].phase == phase
  }

  predicate Enabled(s: Sys, st: Step) {
    match st
    case Begin(a, kind, tab) => a !in s.attempts && kind != Scheduled && tab in s.tabs && tab in s.rootOf && s.mu == None
    case BeginScheduled(a, root) => a !in s.attempts
    case GiveUp(a) => In(s, a, Snapshotted)
    case AcquireHost(a) => In(s, a, Snapshotted)
    case FailBuild(a) => a in s.attempts && s.attempts[a].phase.Acquired?
    case DropAcquire(a) => In(s, a, BuildFailed)
    case FinishBuild(a, ctrl) => a in s.attempts && s.attempts[a].phase.Acquired? && ctrl !in s.ctrls
    case Swap(a) => a in s.attempts && s.attempts[a].phase.Built? && s.attempts[a].kind != Scheduled
                    && s.attempts[a].tab in s.tabs && s.mu == None
    case CloseOld(a) => In(s, a, Installed) && s.attempts[a].prev.Some? && s.attempts[a].prev.value in s.ctrls
    case ReleaseOld(a) => In(s, a, OldClosed)
    case Unlock(a) => In(s, a, Settled)
    case CloseFresh(a) => a in s.attempts && (s.attempts[a].phase.Losing? || (s.attempts[a].phase.Built? && s.attempts[a].kind == Scheduled))
                          && s.attempts[a].phase.ctrl in s.ctrls
    case ReleaseFresh(a) => In(s, a, FreshClosed)
  }

  function Goto(s: Sys, a: Id, phase: Phase): Sys
    requires a in s.attempts
  {
    s.(attempts := s.attempts[a := s.attempts[a].(phase := phase)])
  }

  function Close(s: Sys, c: Ctrl): Sys
    requires c in s.ctrls
  {
    s.(ctrls := s.ctrls[c := s.ctrls[c].(closes := s.ctrls[c].closes + 1)])
  }

  /** The lock-and-compare step of the three switch methods and of buildTabController. */
  function Swapped(s: Sys, a: Id): Sys
    requires Enabled(s, Swap(a))
  {
    var at := s.attempts[a];
    var installed := s.(tabs := s.tabs[at.tab := Some(at.phase.ctrl)], mu := Some(a));
    if s.tabs[at.tab] == at.prev then
      Goto(installed, a, if at.prev.Some? then Installed else Settled)
    else if at.kind == SetModel || at.kind == OpenTab then
      Goto(s, a, Losing(at.phase.ctrl))
    else
      Goto(installed, a, Settled)
  }

  function Next(s: Sys, st: Step): Sys
    requires Enabled(s, st)
  {
    match st
    case Begin(a, kind, tab) =>
      var before := if kind == OpenTab then None else s.tabs[tab];
      s.(attempts := s.attempts[a := Attempt(kind, tab, s.rootOf[tab], before, Snapshotted)])
    case BeginScheduled(a, root) =>
      s.(attempts := s.attempts[a := Attempt(Scheduled, 0, root, None, Snapshotted)])
    case GiveUp(a) => Goto(s, a, Finished)
    case AcquireHost(a) =>
      var root := s.attempts[a].root;
      var hosts := Acquire(s.hosts, root);
      Goto(s.(hosts := hosts), a, Acquired(hosts.live[root].host))
    case FailBuild(a) => Goto(s, a, BuildFailed)
    case DropAcquire(a) => Goto(s.(hosts := Release(s.hosts, s.attempts[a].root)), a, Finished)
    case FinishBuild(a, ctrl) =>
      var c := Controller(s.attempts[a].root, s.attempts[a].phase.host, 0);
      Goto(s.(ctrls := s.ctrls[ctrl := c]), a, Built(ctrl))
    case Swap(a) => Swapped(s, a)
    case CloseOld(a) => Goto(Close(s, s.attempts[a].prev.value), a, OldClosed)
    case ReleaseOld(a) => Goto(s.(hosts := Release(s.hosts, s.attempts[a].root)), a, Settled)
    case Unlock(a) => Goto(s.(mu := None), a, Finished)
    case CloseFresh(a) => Goto(Close(s, s.attempts[a].phase.ctrl), a, FreshClosed)
    case ReleaseFresh(a) => Goto(s.(hosts := Release(s.hosts, s.attempts[a].root)), a, Finished)
  }

  // ---- what is counted ----

  ghost predicate IsOpen(s: Sys, c: Ctrl) {
    c in s.ctrls && s.ctrls[c].closes == 0
  }

  ghost function Open(s: Sys): set<Ctrl> {
    set c | c in s.ctrls && s.ctrls[c].closes == 0
  }

  ghost function OpenOn(s: Sys, root: Root): set<Ctrl> {
    set c | c in s.ctrls && s.ctrls[c].closes == 0 && s.ctrls[c].root == root
  }

  ghost predicate HoldsRef(p: Phase) {
    p.Acquired? || p.BuildFailed? || p.OldClosed? || p.FreshClosed?
  }

  ghost function HeldOn(s: Sys, root: Root): set<Id> {
    set a | a in s.attempts && HoldsRef(s.attempts[a].phase) && s.attempts[a].root == root
  }

  /** The controller that an attempt is still responsible for. */
  ghost function Holding(at: Attempt): Option<Ctrl> {
    match at.phase
    case Built(c) => Some(c)
    case Losing(c) => Some(c)
    case Installed => at.prev
    case _ => None
  }

  /** Open controllers that neither a tab nor an attempt knows any more. */
  ghost function Stray(s: Sys): set<Ctrl> {
    set c | c in Open(s)
            && (forall t :: t in s.tabs ==> s.tabs[t] != Some(c))
            && (forall a :: a in s.attempts ==> Holding(s.attempts[a]) != Some(c))
  }

  ghost function InstalledCtrls(s: Sys): set<Ctrl> {
    set t | t in s.tabs && s.tabs[t].Some? :: s.tabs[t].value
  }

  // ---- the invariant ----

  /** A root's count is its open controllers plus the references held by unfinished attempts. */
  ghost predicate Counted(s: Sys, r: Root) {
    Refs(s.hosts, r) == |OpenOn(s, r)| + |HeldOn(s, r)|
  }

  ghost predicate CountInv(s: Sys) {
    Wf(s.hosts) && forall r: Root :: Counted(s, r)
  }

  ghost predicate CtrlInv(s: Sys, c: Ctrl)
    requires c in s.ctrls
  {
    && s.ctrls[c].closes <= 1
    && (s.ctrls[c].closes == 0 ==>
        && s.ctrls[c].root in s.hosts.live
        && s.hosts.live[s.ctrls[c].root].host == s.ctrls[c].host)
  }

  ghost predicate TabInv(s: Sys, t: Tab)
    requires t in s.tabs
  {
    && t in s.rootOf
    && (s.tabs[t].Some? ==> IsOpen(s, s.tabs[t].value) && s.ctrls[s.tabs[t].value].root == s.rootOf[t])
  }

  ghost predicate AttemptInv(s: Sys, a: Id)
    requires a in s.attempts
  {
    var at := s.attempts[a];
    && (at.kind != Scheduled ==> at.tab in s.tabs && at.tab in s.rootOf && at.root == s.rootOf[at.tab])
    && (at.kind == Scheduled ==> at.prev == None && !at.phase.Installed? && !at.phase.OldClosed? && !at.phase.Settled?)
    && (at.prev.Some? ==> at.prev.value in s.ctrls && s.ctrls[at.prev.value].root == at.root && s.tabs[at.tab].Some?)
    && (at.phase.Installed? ==> at.prev.Some?)
    && (at.phase.Acquired? ==> at.root in s.hosts.live && s.hosts.live[at.root].host == at.phase.host)
    && (Holding(at).Some? ==> IsOpen(s, Holding(at).value) && s.ctrls[Holding(at).value].root == at.root)
    && (at.phase.Installed? || at.phase.OldClosed? || at.phase.Settled? ==> s.mu == Some(a))
  }

  /** No two tabs, no two attempts and no tab and attempt are responsible for the same controller. */
  ghost predicate OwnersInv(s: Sys) {
    && (forall t, u :: t in s.tabs && u in s.tabs && t != u && s.tabs[t].Some? ==> s.tabs[t] != s.tabs[u])
    && (forall a, b :: a in s.attempts && b in s.attempts && a != b && Holding(s.attempts[a]).Some? ==>
          Holding(s.attempts[a]) != Holding(s.attempts[b]))
    && (forall t, a :: t in s.tabs && a in s.attempts && s.tabs[t].Some? ==> s.tabs[t] != Holding(s.attempts[a]))
  }

  ghost predicate Inv(s: Sys) {
    && CountInv(s)
    && (forall c :: c in s.ctrls ==> CtrlInv(s, c))
    && (forall t :: t in s.tabs ==> TabInv(s, t))
    && (forall a :: a in s.attempts ==> AttemptInv(s, a))
    && OwnersInv(s)
  }

  ghost predicate Initial(s: Sys) {
    Inv(s) && s.attempts == map[] && s.mu == None && Stray(s) == {}
  }

  // ---- runs ----

  ghost predicate Legal(s: Sys, run: seq<Step>)
    decreases |run|
  {
    run == [] || (Enabled(s, run[0]) && Legal(Next(s, run[0]), run[1..]))
  }

  ghost function Exec(s: Sys, run: seq<Step>): Sys
    requires Legal(s, run)
    decreases |run|
  {
    if run == [] then s else Exec(Next(s, run[0]), run[1..])
  }

  /** The steps that overwrite a tab's controller although another attempt had replaced the snapshotted one. */
  ghost predicate Overwrites(s: Sys, st: Step) {
    && st.Swap? && Enabled(s, st)
    && s.tabs[s.attempts[st.a].tab] != s.attempts[st.a].prev
    && s.attempts[st.a].kind != SetModel && s.attempts[st.a].kind != OpenTab
  }

  ghost function Overwritten(s: Sys, run: seq<Step>): nat
    requires Legal(s, run)
    decreases |run|
  {
    if run == [] then 0
    else (if Overwrites(s, run[0]) then 1 else 0) + Overwritten(Next(s, run[0]), run[1..])
  }

  // ---- every step keeps the invariant ----

  /** Two finite sets that differ at most in x. */
  lemma DifferAt<T>(p: set<T>, q: set<T>, x: T)
    requires p - {x} == q - {x}
    ensures |q| == |p| - (if x in p then 1 else 0) + (if x in q then 1 else 0)
  {
    assert p == (p - {x}) + (if x in p then {x} else {});
    assert q == (q - {x}) + (if x in q then {x} else {});
  }

  lemma HeldAfter(s: Sys, s': Sys, a: Id, r: Root)
    requires a in s'.attempts && s'.attempts == s.attempts[a := s'.attempts[a]]
    ensures |HeldOn(s', r)| == |HeldOn(s, r)| - (if a in HeldOn(s, r) then 1 else 0) + (if a in HeldOn(s', r) then 1 else 0)
  {
    assert HeldOn(s, r) - {a} == HeldOn(s', r) - {a};
    DifferAt(HeldOn(s, r), HeldOn(s', r), a);
  }

  lemma OpenAfter(s: Sys, s': Sys, c: Ctrl, r: Root)
    requires c in s'.ctrls && s'.ctrls == s.ctrls[c := s'.ctrls[c]]
    ensures |OpenOn(s', r)| == |OpenOn(s, r)| - (if c in OpenOn(s, r) then 1 else 0) + (if c in OpenOn(s', r) then 1 else 0)
  {
    assert OpenOn(s, r) - {c} == OpenOn(s', r) - {c};
    DifferAt(OpenOn(s, r), OpenOn(s', r), c);
  }

  /** An attempt that takes, keeps or drops one host reference. */
  lemma CountOfHostStep(s: Sys, st: Step, r: Root)
    requires Wf(s.hosts) && Counted(s, r) && Enabled(s, st)
    requires st.AcquireHost? || st.DropAcquire? || st.ReleaseOld? || st.ReleaseFresh?
    ensures Counted(Next(s, st), r)
  {
    var s' := Next(s, st);
    HeldAfter(s, s', st.a, r);
    assert OpenOn(s', r) == OpenOn(s, r);
    if r == s.attempts[st.a].root && !st.AcquireHost? {
      assert st.a in HeldOn(s, r);
      assert Refs(s.hosts, r) >= 1;
    }
  }

  /** A build that turns a held reference into an open controller, or a close that does the reverse. */
  lemma CountOfCtrlStep(s: Sys, st: Step, r: Root)
    requires Counted(s, r) && Enabled(s, st)
    requires st.FinishBuild? || st.CloseOld? || st.CloseFresh?
    requires st.a in s.attempts && AttemptInv(s, st.a)
    ensures Counted(Next(s, st), r)
  {
    var s' := Next(s, st);
    var at := s.attempts[st.a];
    HeldAfter(s, s', st.a, r);
    var c := if st.FinishBuild? then st.ctrl else if st.CloseOld? then at.prev.value else at.phase.ctrl;
    OpenAfter(s, s', c, r);
    if !st.FinishBuild? {
      assert Holding(at) == Some(c);
    }
  }

  lemma CountOfOtherStep(s: Sys, st: Step, r: Root)
    requires Counted(s, r) && Enabled(s, st)
    requires st.Begin? || st.BeginScheduled? || st.GiveUp? || st.FailBuild? || st.Swap? || st.Unlock?
    ensures Counted(Next(s, st), r)
  {
    var s' := Next(s, st);
    HeldAfter(s, s', st.a, r);
    assert OpenOn(s', r) == OpenOn(s, r);
  }

  lemma KeepsCount(s: Sys, st: Step)
    requires Inv(s) && Enabled(s, st)
    ensures CountInv(Next(s, st))
  {
    var s' := Next(s, st);
    if st.AcquireHost? {
      AcquireKeepsWf(s.hosts, s.attempts[st.a].root);
    } else if st.DropAcquire? || st.ReleaseOld? || st.ReleaseFresh? {
      ReleaseKeepsWf(s.hosts, s.attempts[st.a].root);
    }
    forall r: Root
      ensures Counted(s', r)
    {
      assert Counted(s, r);
      if st.AcquireHost? || st.DropAcquire? || st.ReleaseOld? || st.ReleaseFresh? {
        CountOfHostStep(s, st, r);
      } else if st.FinishBuild? || st.CloseOld? || st.CloseFresh? {
        CountOfCtrlStep(s, st, r);
      } else {
        CountOfOtherStep(s, st, r);
      }
    }
  }

  /** A counted reference keeps its host entry, and no step changes the host of an entry that stays. */
  lemma KeepsHost(s: Sys, st: Step, r: Root)
    requires Inv(s) && Enabled(s, st) && Counted(Next(s, st), r)
    requires OpenOn(Next(s, st), r) != {} || HeldOn(Next(s, st), r) != {}
    ensures r in Next(s, st).hosts.live
    ensures r in s.hosts.live ==> Next(s, st).hosts.live[r].host == s.hosts.live[r].host
  {
    var s' := Next(s, st);
    assert Refs(s'.hosts, r) >= 1;
  }

  lemma KeepsCtrls(s: Sys, st: Step)
    requires Inv(s) && Enabled(s, st) && CountInv(Next(s, st))
    ensures forall c :: c in Next(s, st).ctrls ==> CtrlInv(Next(s, st), c)
  {
    var s' := Next(s, st);
    assert st.a in s.attempts ==> AttemptInv(s, st.a);
    forall c | c in s'.ctrls
      ensures CtrlInv(s', c)
    {
      assert c in s.ctrls ==> CtrlInv(s, c);
      if s'.ctrls[c].closes == 0 {
        var r := s'.ctrls[c].root;
        assert c in OpenOn(s', r);
        assert Counted(s', r);
        KeepsHost(s, st, r);
      }
    }
  }

  lemma KeepsTabs(s: Sys, st: Step)
    requires Enabled(s, st) && (st.a in s.attempts ==> AttemptInv(s, st.a)) && OwnersInv(s)
    requires forall t :: t in s.tabs ==> TabInv(s, t)
    ensures forall t :: t in Next(s, st).tabs ==> TabInv(Next(s, st), t)
  {}

  /** What a step by attempt a may do to everything that is not a's own. */
  ghost predicate Frame(s: Sys, s': Sys, a: Id) {
    && a in s'.attempts && s'.attempts == s.attempts[a := s'.attempts[a]]
    && s'.rootOf == s.rootOf && s'.tabs.Keys == s.tabs.Keys
    && (forall t :: t in s.tabs && s.tabs[t].Some? ==> s'.tabs[t].Some?)
    && (forall c :: c in s.ctrls ==> c in s'.ctrls && s'.ctrls[c].root == s.ctrls[c].root)
    && (forall c :: c in s.ctrls && s'.ctrls[c] != s.ctrls[c] ==> a in s.attempts && Holding(s.attempts[a]) == Some(c))
    && (s'.mu == s.mu || s.mu == None || s.mu == Some(a))
  }

  lemma StepFrame(s: Sys, st: Step)
    requires Enabled(s, st) && (st.a in s.attempts ==> AttemptInv(s, st.a))
    ensures Frame(s, Next(s, st), st.a)
  {}

  lemma KeepsOtherAttempt(s: Sys, s': Sys, actor: Id, a: Id)
    requires Frame(s, s', actor) && OwnersInv(s)
    requires a in s.attempts && a != actor && AttemptInv(s, a)
    requires s.attempts[a].phase.Acquired? ==>
               && s.attempts[a].root in s'.hosts.live
               && s'.hosts.live[s.attempts[a].root].host == s.attempts[a].phase.host
    ensures AttemptInv(s', a)
  {}

  lemma KeepsOwnAttempt(s: Sys, st: Step)
    requires Enabled(s, st) && (st.a in s.attempts ==> AttemptInv(s, st.a))
    requires forall t :: t in s.tabs ==> TabInv(s, t)
    ensures st.a in Next(s, st).attempts && AttemptInv(Next(s, st), st.a)
  {}

  lemma KeepsAttempts(s: Sys, st: Step)
    requires Inv(s) && Enabled(s, st) && CountInv(Next(s, st))
    ensures forall a :: a in Next(s, st).attempts ==> AttemptInv(Next(s, st), a)
  {
    var s' := Next(s, st);
    StepFrame(s, st);
    KeepsOwnAttempt(s, st);
    forall a | a in s'.attempts && a != st.a
      ensures AttemptInv(s', a)
    {
      var at := s.attempts[a];
      if at.phase.Acquired? {
        assert a in HeldOn(s', at.root);
        assert Counted(s', at.root);
        KeepsHost(s, st, at.root);
      }
      KeepsOtherAttempt(s, s', st.a, a);
    }
  }

  // ---- ownership and strays ----

  /** A step that is not a swap: it adds a new open controller and its owner, removes both, or neither. */
  ghost predicate OwnershipKept(s: Sys, s': Sys, a: Id) {
    && a in s'.attempts && s'.attempts == s.attempts[a := s'.attempts[a]] && s'.tabs == s.tabs
    && var before := if a in s.attempts then Holding(s.attempts[a]) else None;
       var after := Holding(s'.attempts[a]);
       || (after == before && Open(s') == Open(s))
       || (before == None && after.Some? && after.value !in s.ctrls && Open(s') == Open(s) + {after.value})
       || (after == None && before.Some? && Open(s') == Open(s) - {before.value})
  }

  lemma StepKeepsOwnership(s: Sys, st: Step)
    requires Enabled(s, st) && !st.Swap? && (st.a in s.attempts ==> AttemptInv(s, st.a))
    ensures OwnershipKept(s, Next(s, st), st.a)
  {}

  lemma OwnersIfKept(s: Sys, s': Sys, a: Id)
    requires OwnershipKept(s, s', a) && OwnersInv(s)
    requires forall t :: t in s.tabs ==> TabInv(s, t)
    requires forall b :: b in s.attempts ==> AttemptInv(s, b)
    ensures OwnersInv(s') && Stray(s') == Stray(s)
  {
    assert forall b :: b in s'.attempts && b != a ==> s'.attempts[b] == s.attempts[b];
    forall b | b in s.attempts && b != a && Holding(s.attempts[b]).Some?
      ensures Holding(s.attempts[b]) != Holding(s'.attempts[a])
    {
      assert AttemptInv(s, b);
    }
    forall t | t in s.tabs && s.tabs[t].Some?
      ensures s.tabs[t] != Holding(s'.attempts[a])
    {
      assert TabInv(s, t);
    }
    StraysIfKept(s, s', a);
  }

  lemma StraysIfKept(s: Sys, s': Sys, a: Id)
    requires OwnershipKept(s, s', a)
    ensures Stray(s') == Stray(s)
  {
    assert forall b :: b in s'.attempts && b != a ==> s'.attempts[b] == s.attempts[b];
    forall c
      ensures c in Stray(s') <==> c in Stray(s)
    {
      if c in Stray(s) {
        assert c in s.ctrls;
        assert c in Open(s');
        assert forall b :: b in s'.attempts ==> Holding(s'.attempts[b]) != Some(c);
      }
    }
  }

  /** A swap that installs: the tab gets the attempt's controller; what the tab had before goes to the attempt
      or, if `displaced`, to nobody. */
  ghost predicate Handover(s: Sys, s': Sys, a: Id, t: Tab, displaced: bool) {
    && a in s.attempts && a in s'.attempts && s'.attempts == s.attempts[a := s'.attempts[a]]
    && t in s.tabs && Holding(s.attempts[a]).Some? && s'.tabs == s.tabs[t := Holding(s.attempts[a])]
    && Holding(s'.attempts[a]) == (if displaced then None else s.tabs[t])
    && Open(s') == Open(s)
  }

  lemma OwnersAfterHandover(s: Sys, s': Sys, a: Id, t: Tab, displaced: bool)
    requires Handover(s, s', a, t, displaced) && OwnersInv(s)
    ensures OwnersInv(s')
  {}

  /** Who is responsible for c after the handover, given who was before. */
  lemma OwnedAfterHandover(s: Sys, s': Sys, a: Id, t: Tab, displaced: bool, c: Ctrl)
    requires Handover(s, s', a, t, displaced) && OwnersInv(s) && c in Open(s)
    ensures c in Stray(s') <==> c in Stray(s) || (displaced && s.tabs[t] == Some(c))
  {
    assert s'.tabs[t] == Holding(s.attempts[a]);
    if s.tabs[t] == Some(c) {
      assert forall b :: b in s.attempts ==> Holding(s.attempts[b]) != Some(c);
      assert forall b :: b in s'.attempts && b != a ==> s'.attempts[b] == s.attempts[b];
      assert forall u :: u in s'.tabs && u != t ==> s'.tabs[u] == s.tabs[u];
    } else if c in Stray(s) {
      assert forall b :: b in s'.attempts ==> Holding(s'.attempts[b]) != Some(c);
      assert forall u :: u in s'.tabs ==> s'.tabs[u] != Some(c);
    } else if exists b :: b in s.attempts && b != a && Holding(s.attempts[b]) == Some(c) {
      var b :| b in s.attempts && b != a && Holding(s.attempts[b]) == Some(c);
      assert s'.attempts[b] == s.attempts[b];
    } else if exists u :: u in s.tabs && u != t && s.tabs[u] == Some(c) {
      var u :| u in s.tabs && u != t && s.tabs[u] == Some(c);
      assert s'.tabs[u] == s.tabs[u];
    }
  }

  lemma StraysAfterHandover(s: Sys, s': Sys, a: Id, t: Tab, displaced: bool)
    requires Handover(s, s', a, t, displaced) && OwnersInv(s) && TabInv(s, t)
    requires displaced ==> s.tabs[t].Some?
    ensures Stray(s) <= Stray(s')
    ensures |Stray(s')| == |Stray(s)| + if displaced then 1 else 0
  {
    forall c | c in Open(s)
      ensures c in Stray(s') <==> c in Stray(s) || (displaced && s.tabs[t] == Some(c))
    {
      OwnedAfterHandover(s, s', a, t, displaced, c);
    }
    if displaced {
      assert s.tabs[t].value !in Stray(s);
      assert Stray(s') == Stray(s) + {s.tabs[t].value};
    } else {
      assert Stray(s') == Stray(s);
    }
  }

  /** A swap either gives way, changing no owner, or is a handover that displaces exactly when it overwrites. */
  lemma SwapIsHandover(s: Sys, a: Id)
    requires Enabled(s, Swap(a)) && AttemptInv(s, a)
    ensures (OwnershipKept(s, Swapped(s, a), a) && !Overwrites(s, Swap(a)))
         || Handover(s, Swapped(s, a), a, s.attempts[a].tab, Overwrites(s, Swap(a)))
    ensures Overwrites(s, Swap(a)) ==> s.tabs[s.attempts[a].tab].Some?
  {}

  lemma KeepsOwners(s: Sys, st: Step)
    requires Inv(s) && Enabled(s, st)
    ensures OwnersInv(Next(s, st))
    ensures Stray(s) <= Stray(Next(s, st))
    ensures |Stray(Next(s, st))| == |Stray(s)| + if Overwrites(s, st) then 1 else 0
  {
    if st.Swap? {
      var t := s.attempts[st.a].tab;
      var displaced := Overwrites(s, st);
      SwapIsHandover(s, st.a);
      if Handover(s, Next(s, st), st.a, t, displaced) {
        OwnersAfterHandover(s, Next(s, st), st.a, t, displaced);
        StraysAfterHandover(s, Next(s, st), st.a, t, displaced);
      } else {
        OwnersIfKept(s, Next(s, st), st.a);
      }
    } else {
      StepKeepsOwnership(s, st);
      OwnersIfKept(s, Next(s, st), st.a);
    }
  }

  lemma KeepsInv(s: Sys, st: Step)
    requires Inv(s) && Enabled(s, st)
    ensures Inv(Next(s, st))
    ensures Stray(s) <= Stray(Next(s, st))
    ensures |Stray(Next(s, st))| == |Stray(s)| + if Overwrites(s, st) then 1 else 0
  {
    KeepsCount(s, st);
    KeepsCtrls(s, st);
    KeepsTabs(s, st);
    KeepsAttempts(s, st);
    KeepsOwners(s, st);
  }


  // ---- whole runs ----

  lemma {:induction false} RunKeepsInv(s: Sys, run: seq<Step>)
    requires Inv(s) && Legal(s, run)
    ensures Inv(Exec(s, run)) && Stray(s) <= Stray(Exec(s, run))
    ensures |Stray(Exec(s, run))| == |Stray(s)| + Overwritten(s, run)
    decreases |run|
  {
    if run != [] {
      KeepsInv(s, run[0]);
      RunKeepsInv(Next(s, run[0]), run[1..]);
    }
  }

  /** Safety of every interleaving: a root's count is its open controllers plus the references that unfinished
      attempts hold; nothing is closed twice; no tab points at a closed controller; and the host of an open
      controller is its root's live host, never one that was torn down. */
  lemma EveryRunIsSafe(s: Sys, run: seq<Step>)
    requires Initial(s) && Legal(s, run)
    ensures var e := Exec(s, run);
      && (forall r: Root :: Refs(e.hosts, r) == |OpenOn(e, r)| + |HeldOn(e, r)|)
      && (forall c :: c in e.ctrls ==> e.ctrls[c].closes <= 1)
      && (forall t :: t in e.tabs && e.tabs[t].Some? ==> IsOpen(e, e.tabs[t].value))
      && (forall c :: c in e.ctrls && e.ctrls[c].closes == 0 ==>
            e.ctrls[c].root in e.hosts.live && e.hosts.live[e.ctrls[c].root].host == e.ctrls[c].host && e.ctrls[c].host !in e.hosts.closed)
  {
    RunKeepsInv(s, run);
    var e := Exec(s, run);
    forall r: Root
      ensures Refs(e.hosts, r) == |OpenOn(e, r)| + |HeldOn(e, r)|
    {
      assert Counted(e, r);
    }
    forall c | c in e.ctrls
      ensures e.ctrls[c].closes <= 1
      ensures e.ctrls[c].closes == 0 ==> e.ctrls[c].root in e.hosts.live && e.hosts.live[e.ctrls[c].root].host == e.ctrls[c].host
    {
      assert CtrlInv(e, c);
    }
    assert forall t :: t in e.tabs ==> TabInv(e, t);
  }

  ghost predicate AllFinished(s: Sys) {
    forall a :: a in s.attempts ==> s.attempts[a].phase == Finished
  }

  lemma NothingHeldAtRest(e: Sys)
    requires Inv(e) && AllFinished(e)
    ensures Open(e) == InstalledCtrls(e) + Stray(e) && InstalledCtrls(e) !! Stray(e)
    ensures forall r: Root :: Refs(e.hosts, r) == |OpenOn(e, r)|
  {
    forall c
      ensures c in InstalledCtrls(e) ==> c in Open(e) && c !in Stray(e)
      ensures c in Open(e) ==> c in InstalledCtrls(e) || c in Stray(e)
    {
      if c in InstalledCtrls(e) {
        var t :| t in e.tabs && e.tabs[t] == Some(c);
        assert TabInv(e, t);
      } else if c in Open(e) {
        assert forall a :: a in e.attempts ==> Holding(e.attempts[a]) != Some(c);
        assert forall t :: t in e.tabs ==> e.tabs[t] != Some(c);
      }
    }
    forall r: Root
      ensures Refs(e.hosts, r) == |OpenOn(e, r)|
    {
      assert Counted(e, r);
      assert HeldOn(e, r) == {};
    }
  }

  /** When all attempts are done, the open controllers are the installed ones and one more for each step that
      overwrote a concurrently installed controller. So exactly the installed ones are open, and each root's
      count is the number of open controllers on it, if and only if no step of the run overwrote one. */
  lemma AtRestOpenIsInstalled(s: Sys, run: seq<Step>)
    requires Initial(s) && Legal(s, run) && AllFinished(Exec(s, run))
    ensures var e := Exec(s, run);
      && (Open(e) == InstalledCtrls(e) <==> Overwritten(s, run) == 0)
      && |Open(e)| == |InstalledCtrls(e)| + Overwritten(s, run)
      && (forall r: Root :: Refs(e.hosts, r) == |OpenOn(e, r)|)
  {
    RunKeepsInv(s, run);
    var e := Exec(s, run);
    NothingHeldAtRest(e);
    assert |Open(e)| == |InstalledCtrls(e)| + |Stray(e)|;
  }

  ghost predicate NoOverwritingKind(run: seq<Step>) {
    forall i :: 0 <= i < |run| && run[i].Begin? ==> run[i].kind == SetModel || run[i].kind == OpenTab
  }

  ghost predicate Careful(s: Sys) {
    forall a :: a in s.attempts ==> s.attempts[a].kind in {SetModel, OpenTab, Scheduled}
  }

  lemma StaysCareful(s: Sys, st: Step)
    requires Enabled(s, st) && Careful(s) && (st.Begin? ==> st.kind == SetModel || st.kind == OpenTab)
    ensures Careful(Next(s, st)) && !Overwrites(s, st)
  {}

  lemma {:induction false} CarefulNeverOverwrites(s: Sys, run: seq<Step>)
    requires Legal(s, run) && Careful(s) && NoOverwritingKind(run)
    ensures Overwritten(s, run) == 0
    decreases |run|
  {
    if run != [] {
      StaysCareful(s, run[0]);
      forall i | 0 <= i < |run[1..]| && run[1..][i].Begin?
        ensures run[1..][i].kind == SetModel || run[1..][i].kind == OpenTab
      {
        assert run[1..][i] == run[i + 1];
      }
      CarefulNeverOverwrites(Next(s, run[0]), run[1..]);
    }
  }

  lemma {:induction false} TabsStayFilled(s: Sys, run: seq<Step>, t: Tab)
    requires Inv(s) && Legal(s, run) && t in s.tabs && s.tabs[t].Some?
    ensures t in Exec(s, run).tabs && Exec(s, run).tabs[t].Some?
    decreases |run|
  {
    if run != [] {
      KeepsInv(s, run[0]);
      assert run[0].a in s.attempts ==> AttemptInv(s, run[0].a);
      StepFrame(s, run[0]);
      TabsStayFilled(Next(s, run[0]), run[1..], t);
    }
  }

  /** The promise of SetModelForTab: if every attempt is a model switch (or a tab opening or a scheduled run),
      then once all are done every tab that began with a controller has one, and the open controllers are
      exactly the installed ones. */
  lemma ModelSwitchesLeakNothing(s: Sys, run: seq<Step>)
    requires Initial(s) && Legal(s, run) && AllFinished(Exec(s, run)) && NoOverwritingKind(run)
    ensures Open(Exec(s, run)) == InstalledCtrls(Exec(s, run))
    ensures forall t :: t in s.tabs && s.tabs[t].Some? ==> t in Exec(s, run).tabs && Exec(s, run).tabs[t].Some?
  {
    CarefulNeverOverwrites(s, run);
    AtRestOpenIsInstalled(s, run);
    forall t | t in s.tabs && s.tabs[t].Some?
      ensures t in Exec(s, run).tabs && Exec(s, run).tabs[t].Some?
    {
      TabsStayFilled(s, run, t);
    }
  }

  /** What an overwriting swap costs: the displaced controller stays open through every later run, and with it
      the root's host, because no attempt is left that would close it. */
  lemma OverwrittenCtrlLeaks(s: Sys, a: Id, run: seq<Step>)
    requires Inv(s) && Enabled(s, Swap(a)) && Overwrites(s, Swap(a)) && Legal(Next(s, Swap(a)), run)
    ensures s.tabs[s.attempts[a].tab].Some?
    ensures var c := s.tabs[s.attempts[a].tab].value; var e := Exec(Next(s, Swap(a)), run);
      && c in Stray(e) && e.ctrls[c].root in e.hosts.live
      && e.hosts.live[e.ctrls[c].root].host == e.ctrls[c].host && e.ctrls[c].host !in e.hosts.closed
  {
    var t := s.attempts[a].tab;
    assert AttemptInv(s, a) && TabInv(s, t);
    SwapIsHandover(s, a);
    var c := s.tabs[t].value;
    OwnedAfterHandover(s, Next(s, Swap(a)), a, t, true, c);
    KeepsInv(s, Swap(a));
    RunKeepsInv(Next(s, Swap(a)), run);
    assert CtrlInv(Exec(Next(s, Swap(a)), run), c);
  }

  lemma {:induction false} LegalAppend(s: Sys, run: seq<Step>, more: seq<Step>)
    requires Legal(s, run) && Legal(Exec(s, run), more)
    ensures Legal(s, run + more) && Exec(s, run + more) == Exec(Exec(s, run), more)
    decreases |run|
  {
    if run == [] {
      assert run + more == more;
    } else {
      LegalAppend(Next(s, run[0]), run[1..], more);
      assert (run + more)[0] == run[0] && (run + more)[1..] == run[1..] + more;
    }
  }

  /** Some interleaving leads from s to e. */
  ghost predicate Reaches(s: Sys, e: Sys) {
    exists run :: Legal(s, run) && Exec(s, run) == e
  }

  lemma ReachesByStep(s: Sys, st: Step)
    requires Enabled(s, st)
    ensures Reaches(s, Next(s, st))
  {
    var run := [st];
    assert Legal(Next(s, st), run[1..]);
    assert Legal(s, run) && Exec(s, run) == Next(s, st);
  }

  lemma ReachesTrans(s: Sys, m: Sys, e: Sys)
    requires Reaches(s, m) && Reaches(m, e)
    ensures Reaches(s, e)
  {
    var run :| Legal(s, run) && Exec(s, run) == m;
    var more :| Legal(m, more) && Exec(m, more) == e;
    LegalAppend(s, run, more);
  }
}
