/** The switch methods themselves, each one a sequence of steps of the ControllerSwap machine. Between the steps
    other attempts may take any of theirs, and have the App lock whenever this one does not have it. */
module TabControllers {
  import opened SharedHost
  import opened ControllerSwap
  import opened SwitchOutcome
  import opened Wrappers

  datatype Result = Ok | NoOp | BuildError | Aborted

  lemma ReachesSelf(s: Sys)
    ensures Reaches(s, s)
  {
    var run: seq<Step> := [];
    assert Legal(s, run) && Exec(s, run) == s;
  }

  /** Who has the App lock is replacing a controller. */
  ghost predicate HolderIsSwapping(s: Sys) {
    s.mu.Some? ==> In(s, s.mu.value, Installed) || In(s, s.mu.value, OldClosed) || In(s, s.mu.value, Settled)
  }

  lemma KeepsHolderSwapping(s: Sys, st: Step)
    requires HolderIsSwapping(s) && Enabled(s, st)
    ensures HolderIsSwapping(Next(s, st))
  {}

  ghost predicate ClosesGrow(before: map<Ctrl, Controller>, after: map<Ctrl, Controller>) {
    forall c :: c in before ==> c in after && before[c].closes <= after[c].closes
  }

  /** What attempt me finds unchanged after steps of the others, whether or not me has begun. */
  ghost predicate Untouched(s: Sys, s': Sys, me: Id) {
    && (me in s.attempts <==> me in s'.attempts)
    && (me in s.attempts ==> s'.attempts[me] == s.attempts[me])
    && (s.mu == Some(me) <==> s'.mu == Some(me))
    && (s.mu == Some(me) ==> s'.tabs == s.tabs)
    && s'.rootOf == s.rootOf && s'.tabs.Keys == s.tabs.Keys
    && ClosesGrow(s.ctrls, s'.ctrls)
  }

  lemma OthersStep(s: Sys, st: Step, me: Id)
    requires Enabled(s, st) && st.a != me
    requires st.Unlock? ==> AttemptInv(s, st.a)
    ensures Untouched(s, Next(s, st), me)
  {}

  /** So every run of other attempts' steps, however long, leaves what me relies on. */
  lemma {:induction false} OthersRun(s: Sys, run: seq<Step>, me: Id)
    requires Inv(s) && Legal(s, run)
    requires forall st :: st in run ==> st.a != me
    ensures Untouched(s, Exec(s, run), me)
    decreases |run|
  {
    if run != [] {
      assert run[0] in run;
      assert run[0].Unlock? ==> AttemptInv(s, run[0].a);
      OthersStep(s, run[0], me);
      KeepsInv(s, run[0]);
      OthersRun(Next(s, run[0]), run[1..], me);
    }
  }

  /** These tabs have the controllers they had. */
  ghost predicate Kept(s: Sys, s': Sys, tabs: set<Tab>) {
    forall t :: t in tabs ==> Owner(s', t) == Owner(s, t)
  }

  /** A run without a swap on these tabs leaves them their controllers. */
  lemma UnswappedAreKept(s: Sys, run: seq<Step>, tabs: set<Tab>)
    requires Inv(s) && Legal(s, run)
    requires forall t :: t in tabs ==> !SwapsOn(s, run, t)
    ensures Kept(s, Exec(s, run), tabs)
  {
    TabsRemain(s, run);
    forall t | t in tabs
      ensures Owner(Exec(s, run), t) == Owner(s, t)
    {
      NoSwapNoChange(s, run, t);
      if t in s.tabs {
        SameOwnerExactlyIfUnchanged(s, run, t);
      }
    }
  }

  ghost predicate OthersKept(before: map<Id, Attempt>, after: map<Id, Attempt>, holder: Id) {
    forall a :: a != holder ==> (a in before <==> a in after) && (a in before ==> after[a] == before[a])
  }

  ghost predicate ClosedIfSome(prev: Option<Ctrl>, ctrls: map<Ctrl, Controller>) {
    prev.Some? ==> prev.value in ctrls && ctrls[prev.value].closes == 1
  }

  /** A controller that was overwritten: open, though no tab and no attempt knows it any more. */
  ghost predicate LeftOpen(c: Option<Ctrl>, s: Sys) {
    c.Some? && IsOpen(s, c.value) && c.value in Stray(s)
  }

  /** On the way from s to s', the attempt began with a look at the tab in state begun. */
  ghost predicate Snapshots(s: Sys, begun: Sys, s': Sys, me: Id, kind: Kind, tab: Tab) {
    && Reaches(s, begun) && me !in begun.attempts && tab in begun.tabs
    && Enabled(begun, Begin(me, kind, tab)) && Reaches(Next(begun, Begin(me, kind, tab)), s')
  }

  lemma SnapshotsThen(s: Sys, begun: Sys, m: Sys, s': Sys, me: Id, kind: Kind, tab: Tab)
    requires Snapshots(s, begun, m, me, kind, tab) && Reaches(m, s')
    ensures Snapshots(s, begun, s', me, kind, tab) && Reaches(s, s') && Reaches(s, m)
  {
    ReachesTrans(Next(begun, Begin(me, kind, tab)), m, s');
    ReachesByStep(begun, Begin(me, kind, tab));
    ReachesTrans(s, begun, Next(begun, Begin(me, kind, tab)));
    ReachesTrans(s, Next(begun, Begin(me, kind, tab)), m);
    ReachesTrans(s, m, s');
  }

  /** On the way from s to s', the attempt compared and installed in state met. */
  ghost predicate SwappedAt(s: Sys, met: Sys, s': Sys, me: Id, tab: Tab) {
    && Reaches(s, met) && tab in met.tabs
    && me in met.attempts && me in s'.attempts && met.attempts[me].prev == s'.attempts[me].prev
    && Enabled(met, Swap(me)) && met.attempts[me].tab == tab
    && Reaches(Next(met, Swap(me)), s')
  }

  lemma EndsAsSnapshotted(s: Sys, begun: Sys, e: Sys, me: Id, kind: Kind, tab: Tab)
    requires Snapshots(s, begun, e, me, kind, tab)
    ensures Reaches(s, e)
  {
    ReachesSelf(e);
    SnapshotsThen(s, begun, e, e, me, kind, tab);
  }

  lemma EndsAsSwapped(s: Sys, begun: Sys, met: Sys, e: Sys, me: Id, kind: Kind, tab: Tab)
    requires Snapshots(s, begun, met, me, kind, tab) && Enabled(met, Swap(me)) && Reaches(Next(met, Swap(me)), e)
    ensures Reaches(s, met) && Reaches(s, e) && Snapshots(s, begun, e, me, kind, tab)
  {
    ReachesByStep(met, Swap(me));
    ReachesTrans(met, Next(met, Swap(me)), e);
    SnapshotsThen(s, begun, met, e, me, kind, tab);
  }

  /** Whatever happens after the swap, a controller that was overwritten stays open and nobody's. */
  lemma OverwrittenIsStray(met: Sys, me: Id, tab: Tab, s': Sys)
    requires Inv(met) && me in met.attempts && met.attempts[me].tab == tab && tab in met.tabs
    requires met.attempts[me].kind in {SwitchProfile, SetEffort} && met.tabs[tab] != met.attempts[me].prev
    requires Enabled(met, Swap(me)) && Reaches(Next(met, Swap(me)), s')
    ensures LeftOpen(met.tabs[tab], s')
  {
    var run :| Legal(Next(met, Swap(me)), run) && Exec(Next(met, Swap(me)), run) == s';
    OverwrittenCtrlLeaks(met, me, run);
  }

  /** An open controller has not been closed yet. */
  lemma HeldIsOpen(s: Sys, me: Id, c: Ctrl)
    requires Inv(s) && me in s.attempts && Holding(s.attempts[me]) == Some(c)
    ensures c in s.ctrls && s.ctrls[c].closes == 0
  {}

  /** Closing a held controller is the first close of it. */
  lemma CloseStep(s: Sys, me: Id, c: Ctrl, st: Step)
    requires Inv(s) && me in s.attempts && Holding(s.attempts[me]) == Some(c)
    requires (st == CloseOld(me) || st == CloseFresh(me)) && ClosesNow(s.attempts[me], st)
    ensures Enabled(s, st) && c in s.ctrls && s.ctrls[c].closes == 0
    ensures Next(s, st).ctrls == s.ctrls[c := s.ctrls[c].(closes := 1)]
    ensures Next(s, st).attempts == s.attempts[me := s.attempts[me].(phase := if st.CloseOld? then OldClosed else FreshClosed)]
    ensures Next(s, st).rootOf == s.rootOf && Next(s, st).tabs == s.tabs && Next(s, st).hosts == s.hosts && Next(s, st).mu == s.mu
    ensures ClosesGrow(s.ctrls, Next(s, st).ctrls)
  {
    HeldIsOpen(s, me, c);
  }

  /** The attempt's phase is one in which it closes the controller it holds. */
  predicate ClosesNow(at: Attempt, st: Step) {
    if st.CloseOld? then at.phase.Installed?
    else at.phase.Losing? || (at.phase.Built? && at.kind == Scheduled)
  }

  class App {
    /** The host key of each tab's workspace root. */
    const rootOf: map<Tab, Root>
    const hosts: SharedHosts
    var tabs: map<Tab, Option<Ctrl>>
    var ctrls: map<Ctrl, Controller>
    var next: Ctrl
    var attempts: map<Id, Attempt>
    var mu: Option<Id>

    function View(): Sys
      reads this, hosts
    {
      Sys(rootOf, tabs, ctrls, hosts.View(), attempts, mu)
    }

    ghost predicate Valid()
      reads this, hosts
    {
      Inv(View()) && HolderIsSwapping(View()) && forall c :: c in ctrls ==> c < next
    }

    /** An app whose tabs have no controller yet. */
    constructor (wd: string, rootOf: map<Tab, Root>)
      ensures Valid() && Initial(View()) && this.rootOf == rootOf && tabs.Keys == rootOf.Keys && fresh(hosts)
    {
      this.rootOf := rootOf;
      this.hosts := new SharedHosts(wd);
      tabs := map t | t in rootOf :: None;
      ctrls, next, attempts, mu := map[], 0, map[], None;
      new;
      forall r: Root
        ensures Counted(View(), r)
      {
        assert OpenOn(View(), r) == {} && HeldOn(View(), r) == {};
      }
      assert Stray(View()) == {};
    }

    /** Any steps of other attempts, of which none swaps a tab in kept. Callers may rely on the postconditions
        only, which every such run of other attempts' steps meets (OthersRun, UnswappedAreKept). */
    method Others(me: Id, ghost kept: set<Tab>)
      requires Valid()
      modifies this, hosts
      ensures Valid() && Reaches(old(View()), View())
      ensures Untouched(old(View()), View(), me) && Kept(old(View()), View(), kept)
    {
      ReachesSelf(View());
    }

    method Interfere(ghost start: Sys, me: Id, ghost kept: set<Tab>)
      requires Valid() && Reaches(start, View())
      modifies this, hosts
      ensures Valid() && Reaches(start, View())
      ensures Untouched(old(View()), View(), me) && Kept(old(View()), View(), kept)
    {
      Others(me, kept);
      ReachesTrans(start, old(View()), View());
    }

    /** Bookkeeping of one step: the code has just changed the fields as the step says. */
    method Took(ghost start: Sys, before: Sys, st: Step)
      requires Reaches(start, before) && Inv(before) && HolderIsSwapping(before) && Enabled(before, st)
      requires Next(before, st).(attempts := attempts, mu := mu) == View()
      requires forall c :: c in ctrls ==> c < next
      modifies this`attempts, this`mu
      ensures View() == Next(before, st) && Valid() && Reaches(start, View())
    {
      attempts := Next(before, st).attempts;
      mu := Next(before, st).mu;
      KeepsInv(before, st);
      KeepsHolderSwapping(before, st);
      ReachesByStep(before, st);
      ReachesTrans(start, before, Next(before, st));
    }

    /** Reads the tab under the read lock. */
    method Snapshot(ghost start: Sys, me: Id, kind: Kind, tab: Tab) returns (prev: Option<Ctrl>)
      requires Valid() && Reaches(start, View())
      requires me !in attempts && kind in {SetModel, SwitchProfile, SetEffort} && tab in tabs && tab in rootOf && mu == None
      modifies this`attempts, this`mu
      ensures Valid() && Reaches(start, View()) && View() == Next(old(View()), Begin(me, kind, tab))
      ensures prev == tabs[tab]
    {
      prev := tabs[tab];
      var s := View();
      Took(start, s, Begin(me, kind, tab));
    }

    /** Takes a reference to the shared host. */
    method AcquireFor(ghost start: Sys, me: Id, root: Root) returns (host: HostId)
      requires Valid() && Reaches(start, View())
      requires In(View(), me, Snapshotted) && attempts[me].root == root
      modifies this`attempts, this`mu, hosts
      ensures Valid() && Reaches(start, View())
      ensures me in attempts && attempts[me] == old(attempts[me]).(phase := Acquired(host))
      ensures mu == old(mu)
    {
      var s := View();
      host := hosts.AcquireKey(root);
      Took(start, s, AcquireHost(me));
    }

    /** The build succeeded: the reference now belongs to the new controller. */
    method BuildWith(ghost start: Sys, me: Id, root: Root, host: HostId) returns (c: Ctrl)
      requires Valid() && Reaches(start, View())
      requires In(View(), me, Acquired(host)) && attempts[me].root == root
      modifies this
      ensures Valid() && Reaches(start, View())
      ensures c !in old(ctrls) && mu == old(mu) && tabs == old(tabs)
      ensures me in attempts && attempts[me] == old(attempts[me]).(phase := Built(c))
    {
      var s := View();
      c := next;
      next := next + 1;
      ctrls := ctrls[c := Controller(root, host, 0)];
      Took(start, s, FinishBuild(me, c));
    }

    /** The build failed: the reference is given back. */
    method GiveBack(ghost start: Sys, me: Id, root: Root, host: HostId)
      requires Valid() && Reaches(start, View())
      requires In(View(), me, Acquired(host)) && attempts[me].root == root
      modifies this`attempts, this`mu, hosts
      ensures Valid() && Reaches(start, View())
      ensures mu == old(mu)
      ensures me in attempts && attempts[me] == old(attempts[me]).(phase := Finished)
    {
      var s := View();
      Took(start, s, FailBuild(me));
      s := View();
      hosts.ReleaseKey(root);
      Took(start, s, DropAcquire(me));
    }

    method AcquireAmongOthers(ghost start: Sys, me: Id, root: Root, ghost kept: set<Tab>) returns (host: HostId)
      requires Valid() && Reaches(start, View())
      requires In(View(), me, Snapshotted) && attempts[me].root == root && mu != Some(me)
      modifies this, hosts
      ensures Valid() && Reaches(start, View())
      ensures me in attempts && attempts[me] == old(attempts[me]).(phase := Acquired(host))
      ensures mu != Some(me) && tabs.Keys == old(tabs.Keys) && old(ctrls.Keys) <= ctrls.Keys && Kept(old(View()), View(), kept)
    {
      Interfere(start, me, kept);
      host := AcquireFor(start, me, root);
      Interfere(start, me, kept);
    }

    /** Acquires the host and builds; a failed build gives the reference back. `builds` is boot.Build's outcome. */
    method AcquireAndBuild(ghost start: Sys, me: Id, root: Root, builds: bool, ghost kept: set<Tab>)
      returns (ctrl: Option<Ctrl>)
      requires Valid() && Reaches(start, View())
      requires In(View(), me, Snapshotted) && attempts[me].root == root && mu != Some(me)
      modifies this, hosts
      ensures Valid() && Reaches(start, View())
      ensures ctrl.Some? <==> builds
      ensures ctrl.Some? ==> ctrl.value !in old(ctrls)
      ensures me in attempts && attempts[me] == old(attempts[me]).(phase := if builds then Built(ctrl.value) else Finished)
      ensures mu != Some(me) && tabs.Keys == old(tabs.Keys) && Kept(old(View()), View(), kept)
    {
      var host := AcquireAmongOthers(start, me, root, kept);
      if builds {
        var c := BuildWith(start, me, root, host);
        ctrl := Some(c);
      } else {
        GiveBack(start, me, root, host);
        ctrl := None;
      }
    }

    /** Closes a controller that attempt me is responsible for. */
    method CloseCtrl(ghost start: Sys, me: Id, c: Ctrl, st: Step)
      requires Valid() && Reaches(start, View()) && me in attempts && Holding(attempts[me]) == Some(c)
      requires st == CloseOld(me) || st == CloseFresh(me)
      requires ClosesNow(attempts[me], st)
      modifies this`ctrls, this`attempts, this`mu
      ensures Valid() && Reaches(start, View()) && Enabled(old(View()), st) && View() == Next(old(View()), st)
    {
      var s := View();
      CloseStep(s, me, c, st);
      ghost var e := Next(s, st);
      ctrls := ctrls[c := ctrls[c].(closes := ctrls[c].closes + 1)];
      assert e.(attempts := attempts, mu := mu) == View();
      Took(start, s, st);
    }

    method ReleaseHeld(ghost start: Sys, me: Id, root: Root, st: Step)
      requires Valid() && Reaches(start, View()) && me in attempts && attempts[me].root == root
      requires st == ReleaseOld(me) || st == ReleaseFresh(me)
      requires Enabled(View(), st)
      modifies this`attempts, this`mu, hosts
      ensures Valid() && Reaches(start, View())
      ensures mu == old(mu)
      ensures attempts == old(attempts)[me := old(attempts[me]).(phase := if st.ReleaseOld? then Settled else Finished)]
    {
      var s := View();
      hosts.ReleaseKey(root);
      Took(start, s, st);
    }

    /** Waits for the App lock: whoever has it finishes, while the others take steps as well. */
    method AwaitLock(ghost start: Sys, me: Id, ghost kept: set<Tab>)
      requires Valid() && Reaches(start, View()) && mu != Some(me)
      modifies this, hosts
      ensures Valid() && Reaches(start, View()) && Untouched(old(View()), View(), me) && mu == None
      ensures Kept(old(View()), View(), kept)
    {
      Interfere(start, me, kept);
      if mu.Some? {
        LetFinish(start, mu.value);
      }
    }

    /** The remaining steps of the attempt that has the lock. */
    method LetFinish(ghost start: Sys, holder: Id)
      requires Valid() && Reaches(start, View()) && mu == Some(holder)
      modifies this, hosts
      ensures Valid() && Reaches(start, View()) && mu == None && tabs == old(tabs)
      ensures OthersKept(old(attempts), attempts, holder)
      ensures ClosesGrow(old(ctrls), ctrls)
    {
      CloseHeld(start, holder);
      SettleHeld(start, holder);
    }

    /** Under the App lock: drops the replaced controller's reference, if there is one, and unlocks. */
    method SettleHeld(ghost start: Sys, holder: Id)
      requires Valid() && Reaches(start, View()) && mu == Some(holder)
      requires In(View(), holder, OldClosed) || In(View(), holder, Settled)
      modifies this`attempts, this`mu, hosts
      ensures Valid() && Reaches(start, View()) && mu == None
      ensures OthersKept(old(attempts), attempts, holder)
    {
      if attempts[holder].phase.OldClosed? {
        ReleaseHeld(start, holder, attempts[holder].root, ReleaseOld(holder));
      }
      Release(start, holder);
    }

    /** Under the App lock: closes the replaced controller, if there is one. */
    method CloseHeld(ghost start: Sys, holder: Id)
      requires Valid() && Reaches(start, View()) && mu == Some(holder)
      modifies this`ctrls, this`attempts, this`mu
      ensures Valid() && Reaches(start, View()) && mu == old(mu) && tabs == old(tabs)
      ensures In(View(), holder, OldClosed) || In(View(), holder, Settled)
      ensures OthersKept(old(attempts), attempts, holder)
      ensures ClosesGrow(old(ctrls), ctrls)
    {
      var at := attempts[holder];
      if at.phase.Installed? {
        CloseStep(View(), holder, at.prev.value, CloseOld(holder));
        CloseCtrl(start, holder, at.prev.value, CloseOld(holder));
      }
    }

    /** Under the App lock: closes the replaced controller, then drops its host reference. */
    method CloseReplaced(ghost start: Sys, me: Id, prev: Option<Ctrl>, root: Root)
      requires Valid() && Reaches(start, View())
      requires me in attempts && attempts[me].prev == prev && attempts[me].root == root && mu == Some(me)
      requires attempts[me].phase == if prev.Some? then Installed else Settled
      modifies this, hosts
      ensures Valid() && Reaches(start, View())
      ensures me in attempts && attempts[me] == old(attempts[me]).(phase := Settled)
      ensures mu == Some(me) && tabs == old(tabs) && ClosesGrow(old(ctrls), ctrls)
      ensures prev.Some? ==> prev.value in ctrls && ctrls[prev.value].closes == 1
    {
      if prev.Some? {
        CloseAmongOthers(start, me, prev.value, CloseOld(me));
        ReleaseHeld(start, me, root, ReleaseOld(me));
      }
    }

    /** Closes a controller, with steps of others before and after the close. */
    method CloseAmongOthers(ghost start: Sys, me: Id, c: Ctrl, st: Step)
      requires Valid() && Reaches(start, View()) && me in attempts && Holding(attempts[me]) == Some(c)
      requires st == CloseOld(me) || st == CloseFresh(me)
      requires ClosesNow(attempts[me], st)
      modifies this, hosts
      ensures Valid() && Reaches(start, View())
      ensures mu == Some(me) <==> old(mu) == Some(me)
      ensures mu == Some(me) ==> tabs == old(tabs)
      ensures me in attempts && attempts[me] == old(attempts[me]).(phase := if st.CloseOld? then OldClosed else FreshClosed)
      ensures c in ctrls && ctrls[c].closes == 1 && ClosesGrow(old(ctrls), ctrls)
    {
      Interfere(start, me, {});
      HeldIsOpen(View(), me, c);
      CloseStep(View(), me, c, st);
      CloseCtrl(start, me, c, st);
      Interfere(start, me, {});
      ClosedOnce(c);
    }

    /** No controller has been closed more than once. */
    lemma ClosedOnce(c: Ctrl)
      requires Valid() && c in ctrls
      ensures ctrls[c].closes <= 1
    {
      assert CtrlInv(View(), c);
    }

    /** After the lock: closes the attempt's own controller, then drops the reference acquired for it. */
    method DiscardBuilt(ghost start: Sys, me: Id, c: Ctrl, root: Root)
      requires Valid() && Reaches(start, View())
      requires me in attempts && attempts[me].root == root && mu != Some(me)
      requires attempts[me].phase == Losing(c) || (attempts[me].phase == Built(c) && attempts[me].kind == Scheduled)
      modifies this, hosts
      ensures Valid() && Reaches(start, View()) && mu != Some(me)
      ensures me in attempts && attempts[me] == old(attempts[me]).(phase := Finished)
      ensures c in ctrls && ctrls[c].closes == 1
    {
      CloseAmongOthers(start, me, c, CloseFresh(me));
      ReleaseHeld(start, me, root, ReleaseFresh(me));
    }

    method Release(ghost start: Sys, me: Id)
      requires Valid() && Reaches(start, View()) && In(View(), me, Settled)
      modifies this`attempts, this`mu
      ensures Valid() && Reaches(start, View()) && mu == None
      ensures attempts == old(attempts)[me := old(attempts[me]).(phase := Finished)]
    {
      var s := View();
      Took(start, s, Unlock(me));
    }

    /** Unlocks, after steps of others that need no lock. */
    method ReleaseAmongOthers(ghost start: Sys, me: Id)
      requires Valid() && Reaches(start, View()) && In(View(), me, Settled) && mu == Some(me)
      modifies this, hosts
      ensures Valid() && Reaches(start, View()) && mu == None && tabs == old(tabs)
      ensures me in attempts && attempts[me] == old(attempts[me]).(phase := Finished)
      ensures ClosesGrow(old(ctrls), ctrls)
    {
      Interfere(start, me, {});
      Release(start, me);
    }

    /** Under the lock: compares. Installs if the tab still has prev; otherwise installs only if `overwrite`. */
    method CompareAndInstall(ghost start: Sys, me: Id, tab: Tab, prev: Option<Ctrl>, ctrl: Ctrl, overwrite: bool)
      returns (won: bool)
      requires Valid() && Reaches(start, View()) && tab in tabs && mu == None
      requires me in attempts && attempts[me].phase == Built(ctrl) && attempts[me].tab == tab && attempts[me].prev == prev
      requires if overwrite then attempts[me].kind in {SwitchProfile, SetEffort} else attempts[me].kind == SetModel
      modifies this
      ensures Valid() && Reaches(start, View()) && View() == Next(old(View()), Swap(me))
      ensures won <==> old(tabs[tab]) == prev
      ensures won || overwrite ==> mu == Some(me) && tabs == old(tabs)[tab := Some(ctrl)]
      ensures !won && !overwrite ==> mu == None && tabs == old(tabs)
      ensures ctrls == old(ctrls)
      ensures me in attempts && attempts[me] == old(attempts[me]).(phase :=
                if won && prev.Some? then Installed else if won || overwrite then Settled else Losing(ctrl))
    {
      var s := View();
      won := tabs[tab] == prev;
      if won {
        tabs := tabs[tab := Some(ctrl)];
      } else if overwrite {
        tabs := tabs[tab := Some(ctrl)];
      }
      Took(start, s, Swap(me));
    }

    /** The winner's tail: close what was replaced, unlock. */
    method FinishInstall(ghost start: Sys, me: Id, tab: Tab, prev: Option<Ctrl>, won: bool, root: Root)
      requires Valid() && Reaches(start, View()) && tab in tabs && tabs[tab].Some?
      requires me in attempts && attempts[me].root == root && attempts[me].prev == prev && mu == Some(me)
      requires attempts[me].phase == if won && prev.Some? then Installed else Settled
      modifies this, hosts
      ensures Valid() && Reaches(start, View()) && mu == None && tabs == old(tabs)
      ensures me in attempts && attempts[me] == old(attempts[me]).(phase := Finished)
      ensures tab in tabs && tabs[tab].Some? && IsOpen(View(), tabs[tab].value)
      ensures won && prev.Some? ==> prev.value in ctrls && ctrls[prev.value].closes == 1
    {
      if won {
        CloseReplaced(start, me, prev, root);
      }
      ReleaseAmongOthers(start, me);
      if won && prev.Some? {
        ClosedOnce(prev.value);
      }
      TabIsOpen(tab);
    }

    lemma TabIsOpen(tab: Tab)
      requires Valid() && tab in tabs && tabs[tab].Some?
      ensures IsOpen(View(), tabs[tab].value)
    {}

    /** The checks found nothing to do. */
    method Decline(ghost start: Sys, me: Id)
      requires Valid() && Reaches(start, View()) && In(View(), me, Snapshotted)
      modifies this`attempts, this`mu
      ensures Valid() && Reaches(start, View()) && mu == old(mu)
      ensures me in attempts && attempts[me] == old(attempts[me]).(phase := Finished)
    {
      var s := View();
      Took(start, s, GiveUp(me));
    }

    /** After the snapshot: the checks, acquire, build and waiting for the lock. Anything but Ok ends the attempt. */
    method Build(ghost start: Sys, me: Id, root: Root, accepted: bool, builds: bool, ghost kept: set<Tab>)
      returns (r: Result, ctrl: Option<Ctrl>)
      requires Valid() && Reaches(start, View()) && In(View(), me, Snapshotted) && attempts[me].root == root && mu != Some(me)
      modifies this, hosts
      ensures Valid() && Reaches(start, View()) && mu != Some(me) && tabs.Keys == old(tabs.Keys)
      ensures r == if !accepted then NoOp else if !builds then BuildError else Ok
      ensures r == Ok <==> ctrl.Some?
      ensures r == Ok ==> mu == None
      ensures me in attempts && attempts[me] == old(attempts[me]).(phase := if r == Ok then Built(ctrl.value) else Finished)
      ensures Kept(old(View()), View(), kept)
    {
      if !accepted {
        Decline(start, me);
        return NoOp, None;
      }
      ctrl := AcquireAndBuild(start, me, root, builds, kept);
      if ctrl.None? {
        return BuildError, None;
      }
      AwaitLock(start, me, kept);
      r := Ok;
    }

    /** Waits for the lock and snapshots the tab. */
    method Look(me: Id, kind: Kind, tab: Tab, ghost kept: set<Tab>) returns (prev: Option<Ctrl>, ghost begun: Sys)
      requires Valid()
      requires me !in attempts && kind in {SetModel, SwitchProfile, SetEffort} && tab in tabs && tab in rootOf && mu != Some(me)
      modifies this, hosts
      ensures Valid() && Reaches(old(View()), begun) && Kept(old(View()), begun, kept)
      ensures me !in begun.attempts && tab in begun.tabs && begun.tabs[tab] == prev && Enabled(begun, Begin(me, kind, tab))
      ensures View() == Next(begun, Begin(me, kind, tab)) && mu == None
    {
      ghost var start := View();
      ReachesSelf(start);
      AwaitLock(start, me, kept);
      begun := View();
      prev := Snapshot(start, me, kind, tab);
    }

    /** The common first half of a switch: waiting for the lock, snapshot, and what follows it. The tab is
        snapshotted in state `begun`. */
    method Prepare(ghost start: Sys, me: Id, kind: Kind, tab: Tab, accepted: bool, builds: bool, ghost kept: set<Tab>)
      returns (r: Result, prev: Option<Ctrl>, ctrl: Option<Ctrl>, ghost begun: Sys)
      requires Valid() && start == View()
      requires me !in attempts && kind in {SetModel, SwitchProfile, SetEffort} && tab in tabs && tab in rootOf && mu != Some(me)
      modifies this, hosts
      ensures Valid() && mu != Some(me) && tab in tabs
      ensures Snapshots(start, begun, View(), me, kind, tab) && prev == begun.tabs[tab]
      ensures r == if !accepted then NoOp else if !builds then BuildError else Ok
      ensures r == Ok <==> ctrl.Some?
      ensures r == Ok ==> mu == None
      ensures me in attempts
      ensures attempts[me] == Attempt(kind, tab, rootOf[tab], prev, if r == Ok then Built(ctrl.value) else Finished)
      ensures Kept(start, begun, kept) && Kept(begun, View(), kept)
    {
      prev, begun := Look(me, kind, tab, kept);
      ghost var snapshotted := View();
      ReachesSelf(snapshotted);
      r, ctrl := Build(snapshotted, me, rootOf[tab], accepted, builds, kept);
    }

    /** SetModelForTab: installs only if the tab still has the snapshotted controller, else discards its own.
        `accepted` is the outcome of the checks before the host is acquired; `begun` is the state in which the
        tab was snapshotted and `met` the one in which the lock was had. If no other attempt swaps the tab
        meanwhile (tab in kept), the switch succeeds. */
    method SetModelForTab(me: Id, tab: Tab, accepted: bool, builds: bool, ghost kept: set<Tab>)
      returns (r: Result, ctrl: Option<Ctrl>, ghost begun: Sys, ghost met: Sys)
      requires Valid() && me !in attempts && tab in tabs && tab in rootOf && mu != Some(me)
      modifies this, hosts
      ensures Valid() && Reaches(old(View()), View()) && mu != Some(me)
      ensures me in attempts && attempts[me].kind == SetModel && attempts[me].phase == Finished
      ensures Snapshots(old(View()), begun, View(), me, SetModel, tab) && attempts[me].prev == begun.tabs[tab]
      ensures r == NoOp <==> !accepted
      ensures r == BuildError <==> accepted && !builds
      ensures accepted && builds ==> SwappedAt(old(View()), met, View(), me, tab)
      ensures accepted && builds ==> (r == Ok <==> met.tabs[tab] == begun.tabs[tab])
      ensures r == Ok ==> tab in tabs && ctrl.Some? && tabs[tab] == ctrl && IsOpen(View(), ctrl.value)
      ensures r == Ok ==> ClosedIfSome(begun.tabs[tab], ctrls)
      ensures r == Aborted ==> ctrl.Some? && ctrl.value in ctrls && ctrls[ctrl.value].closes == 1
      ensures tab in kept ==> begun.tabs[tab] == old(tabs[tab]) && (accepted && builds ==> r == Ok)
    {
      ghost var start := View();
      var root := rootOf[tab];
      var prev;
      r, prev, ctrl, begun := Prepare(start, me, SetModel, tab, accepted, builds, kept);
      met := View();
      if r != Ok {
        EndsAsSnapshotted(start, begun, met, me, SetModel, tab);
        return r, None, begun, met;
      }
      var won := InstallOrDiscard(me, tab, prev, ctrl.value, root);
      r := if won then Ok else Aborted;
      EndsAsSwapped(start, begun, met, View(), me, SetModel, tab);
    }

    /** Under the lock: install and close what was replaced, or give way and discard. */
    method InstallOrDiscard(me: Id, tab: Tab, prev: Option<Ctrl>, ctrl: Ctrl, root: Root) returns (won: bool)
      requires Valid() && tab in tabs && mu == None
      requires me in attempts && attempts[me] == Attempt(SetModel, tab, root, prev, Built(ctrl))
      modifies this, hosts
      ensures Valid() && mu != Some(me)
      ensures Enabled(old(View()), Swap(me)) && Reaches(Next(old(View()), Swap(me)), View())
      ensures me in attempts && attempts[me] == old(attempts[me]).(phase := Finished)
      ensures won <==> old(tabs[tab]) == prev
      ensures won ==> tab in tabs && tabs[tab] == Some(ctrl) && IsOpen(View(), ctrl) && ClosedIfSome(prev, ctrls)
      ensures !won ==> ctrl in ctrls && ctrls[ctrl].closes == 1
    {
      ReachesSelf(View());
      ghost var before := View();
      won := CompareAndInstall(before, me, tab, prev, ctrl, false);
      ReachesSelf(View());
      ghost var swapped := View();
      if won {
        FinishInstall(swapped, me, tab, prev, won, root);
      } else {
        DiscardBuilt(swapped, me, ctrl, root);
      }
    }

    /** SwitchProfileForTab and SetEffortForTab: install in any case. The snapshotted controller is closed only
        if the tab still had it; a controller installed in the meantime is overwritten and left open. */
    method SwitchProfileOrEffort(me: Id, effort: bool, tab: Tab, accepted: bool, builds: bool, ghost kept: set<Tab>)
      returns (r: Result, ctrl: Option<Ctrl>, ghost begun: Sys, ghost met: Sys)
      requires Valid() && me !in attempts && tab in tabs && tab in rootOf && mu != Some(me)
      modifies this, hosts
      ensures Valid() && Reaches(old(View()), View()) && mu != Some(me)
      ensures me in attempts && attempts[me].phase == Finished
      ensures var kind := if effort then SetEffort else SwitchProfile;
              Snapshots(old(View()), begun, View(), me, kind, tab) && attempts[me].prev == begun.tabs[tab]
      ensures r == if !accepted then NoOp else if !builds then BuildError else Ok
      ensures r == Ok ==> SwappedAt(old(View()), met, View(), me, tab)
      ensures r == Ok ==> tab in tabs && ctrl.Some? && tabs[tab] == ctrl && IsOpen(View(), ctrl.value)
      ensures r == Ok && met.tabs[tab] == begun.tabs[tab] ==> ClosedIfSome(begun.tabs[tab], ctrls)
      ensures r == Ok && met.tabs[tab] != begun.tabs[tab] ==> LeftOpen(met.tabs[tab], View())
      ensures tab in kept ==> begun.tabs[tab] == old(tabs[tab]) && (r == Ok ==> met.tabs[tab] == begun.tabs[tab])
    {
      ghost var start := View();
      var root := rootOf[tab];
      var kind := if effort then SetEffort else SwitchProfile;
      var prev;
      r, prev, ctrl, begun := Prepare(start, me, kind, tab, accepted, builds, kept);
      met := View();
      if r != Ok {
        EndsAsSnapshotted(start, begun, met, me, kind, tab);
        return r, None, begun, met;
      }
      InstallAnyway(me, tab, prev, ctrl.value, root);
      EndsAsSwapped(start, begun, met, View(), me, kind, tab);
    }

    /** Under the lock: install whatever the tab has by now; close what was snapshotted if the tab still had it. */
    method InstallAnyway(me: Id, tab: Tab, prev: Option<Ctrl>, ctrl: Ctrl, root: Root)
      requires Valid() && tab in tabs && mu == None
      requires me in attempts && attempts[me].kind in {SwitchProfile, SetEffort}
      requires attempts[me] == Attempt(attempts[me].kind, tab, root, prev, Built(ctrl))
      modifies this, hosts
      ensures Valid() && mu != Some(me)
      ensures Enabled(old(View()), Swap(me)) && Reaches(Next(old(View()), Swap(me)), View())
      ensures me in attempts && attempts[me] == old(attempts[me]).(phase := Finished)
      ensures tab in tabs && tabs[tab] == Some(ctrl) && IsOpen(View(), ctrl)
      ensures old(tabs[tab]) == prev ==> ClosedIfSome(prev, ctrls)
      ensures old(tabs[tab]) != prev ==> LeftOpen(old(tabs[tab]), View())
    {
      ReachesSelf(View());
      ghost var before := View();
      var won := CompareAndInstall(before, me, tab, prev, ctrl, true);
      ReachesSelf(View());
      ghost var swapped := View();
      FinishInstall(swapped, me, tab, prev, won, root);
      if !won {
        OverwrittenIsStray(before, me, tab, View());
      }
    }

    /** runHeadlessScheduled: a throwaway controller, closed and released when the prompt is done. */
    method RunHeadlessScheduled(me: Id, root: Root, builds: bool)
      requires Valid() && me !in attempts && mu != Some(me)
      modifies this, hosts
      ensures Valid() && Reaches(old(View()), View()) && mu != Some(me)
      ensures me in attempts && attempts[me].kind == Scheduled && attempts[me].phase == Finished
    {
      var start := View();
      ReachesSelf(start);
      Took(start, start, BeginScheduled(me, root));
      var ctrl := AcquireAndBuild(start, me, root, builds, {});
      if ctrl.Some? {
        DiscardBuilt(start, me, ctrl.value, root);
      }
    }
  }
}
