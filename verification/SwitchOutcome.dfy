/** Which attempt wins a tab: a switch installs its controller exactly if the tab kept its controller from the
    moment the switch looked at it to the moment it took the lock. */
module SwitchOutcome {
  import opened ControllerSwap
  import opened Wrappers

  /** Some step of the run gave the tab another controller. */
  ghost predicate Changes(s: Sys, run: seq<Step>, t: Tab)
    requires Legal(s, run)
    decreases |run|
  {
    run != [] && (Owner(Next(s, run[0]), t) != Owner(s, t) || Changes(Next(s, run[0]), run[1..], t))
  }

  /** Some step of the run is another attempt's swap on the tab. */
  ghost predicate SwapsOn(s: Sys, run: seq<Step>, t: Tab)
    requires Legal(s, run)
    decreases |run|
  {
    run != [] && ((run[0].Swap? && s.attempts[run[0].a].tab == t) || SwapsOn(Next(s, run[0]), run[1..], t))
  }

  /** The controller the tab points at. */
  function Owner(s: Sys, t: Tab): Option<Ctrl> {
    if t in s.tabs then s.tabs[t] else None
  }

  /** A controller that no tab points at and no attempt will install. */
  ghost predicate Gone(s: Sys, c: Ctrl) {
    && c in s.ctrls
    && (forall t :: t in s.tabs ==> s.tabs[t] != Some(c))
    && (forall a :: a in s.attempts ==> s.attempts[a].phase != Built(c))
  }

  lemma StaysGone(s: Sys, st: Step, c: Ctrl)
    requires Enabled(s, st) && Gone(s, c)
    ensures Gone(Next(s, st), c)
  {}

  lemma {:induction false} RunStaysGone(s: Sys, run: seq<Step>, c: Ctrl)
    requires Legal(s, run) && Gone(s, c)
    ensures Gone(Exec(s, run), c)
    decreases |run|
  {
    if run != [] {
      StaysGone(s, run[0], c);
      RunStaysGone(Next(s, run[0]), run[1..], c);
    }
  }

  /** What a step displaces from a tab is gone. */
  lemma DisplacedIsGone(s: Sys, st: Step, t: Tab)
    requires Inv(s) && Enabled(s, st) && t in s.tabs && s.tabs[t].Some? && Owner(Next(s, st), t) != s.tabs[t]
    ensures Gone(Next(s, st), s.tabs[t].value)
  {
    var c := s.tabs[t].value;
    assert TabInv(s, t);
    forall a | a in s.attempts
      ensures s.attempts[a].phase != Built(c)
    {
      assert Holding(s.attempts[a]) != Some(c);
    }
  }

  lemma {:induction false} TabsRemain(s: Sys, run: seq<Step>)
    requires Legal(s, run)
    ensures Exec(s, run).tabs.Keys == s.tabs.Keys
    decreases |run|
  {
    if run != [] {
      TabsRemain(Next(s, run[0]), run[1..]);
    }
  }

  /** A tab has the controller it had exactly if it kept it throughout: none that was displaced comes back. */
  lemma {:induction false} SameOwnerExactlyIfUnchanged(s: Sys, run: seq<Step>, t: Tab)
    requires Inv(s) && Legal(s, run) && t in s.tabs
    ensures Owner(Exec(s, run), t) == Owner(s, t) <==> !Changes(s, run, t)
    decreases |run|
  {
    if run != [] {
      var s' := Next(s, run[0]);
      KeepsInv(s, run[0]);
      SameOwnerExactlyIfUnchanged(s', run[1..], t);
      TabsRemain(s', run[1..]);
      if Owner(s', t) != Owner(s, t) {
        if s.tabs[t].Some? {
          DisplacedIsGone(s, run[0], t);
          RunStaysGone(s', run[1..], s.tabs[t].value);
        } else {
          TabsStayFilled(s', run[1..], t);
        }
      }
    }
  }

  lemma {:induction false} NoSwapNoChange(s: Sys, run: seq<Step>, t: Tab)
    requires Legal(s, run) && !SwapsOn(s, run, t)
    ensures !Changes(s, run, t)
    decreases |run|
  {
    if run != [] {
      NoSwapNoChange(Next(s, run[0]), run[1..], t);
    }
  }

  lemma KeepsAttempt(s: Sys, st: Step, a: Id)
    requires Enabled(s, st) && a in s.attempts
    ensures a in Next(s, st).attempts
    ensures var at, at' := s.attempts[a], Next(s, st).attempts[a]; at'.(phase := at.phase) == at
  {}

  /** What an attempt snapshotted, and for which tab, stays. */
  lemma {:induction false} AttemptStays(s: Sys, run: seq<Step>, a: Id)
    requires Legal(s, run) && a in s.attempts
    ensures a in Exec(s, run).attempts
    ensures var at, at' := s.attempts[a], Exec(s, run).attempts[a]; at'.(phase := at.phase) == at
    decreases |run|
  {
    if run != [] {
      KeepsAttempt(s, run[0], a);
      AttemptStays(Next(s, run[0]), run[1..], a);
    }
  }

  /** Attempt a's controller is now the tab's, and a is responsible for `before`. */
  ghost predicate Installs(m: Sys, a: Id, t: Tab, before: Option<Ctrl>)
    requires Enabled(m, Swap(a))
  {
    var e := Next(m, Swap(a));
    && m.attempts[a].tab == t && e.tabs == m.tabs[t := Some(m.attempts[a].phase.ctrl)]
    && a in e.attempts && Holding(e.attempts[a]) == before
  }

  /** Attempt a gives way: no tab changes, and a is to discard its controller. */
  ghost predicate GivesWay(m: Sys, a: Id)
    requires Enabled(m, Swap(a))
  {
    var e := Next(m, Swap(a));
    e.tabs == m.tabs && a in e.attempts && e.attempts[a].phase == Losing(m.attempts[a].phase.ctrl)
  }

  lemma SwapDecides(m: Sys, a: Id, t: Tab)
    requires Enabled(m, Swap(a)) && m.attempts[a].tab == t
    ensures var at := m.attempts[a];
            if m.tabs[t] == at.prev then Installs(m, a, t, at.prev)
            else if at.kind in {SetModel, OpenTab} then GivesWay(m, a) else Installs(m, a, t, None)
  {}

  /** Between the begin of a switch of tab t and its swap any steps may happen. If none of them changed the tab's
      controller, the switch installs its own and is responsible for the one the tab had when it began. If some
      did, a model switch gives way, and a profile or effort switch installs its own and is responsible for none. */
  lemma SwitchInstallsExactlyIf(s: Sys, a: Id, kind: Kind, t: Tab, run: seq<Step>)
    requires Inv(s) && Enabled(s, Begin(a, kind, t)) && Legal(Next(s, Begin(a, kind, t)), run)
    requires kind in {SetModel, SwitchProfile, SetEffort} && Enabled(Exec(Next(s, Begin(a, kind, t)), run), Swap(a))
    ensures var b := Next(s, Begin(a, kind, t)); var m := Exec(b, run);
            && t in s.tabs
            && (!Changes(b, run, t) ==> Installs(m, a, t, s.tabs[t]))
            && (Changes(b, run, t) ==> if kind == SetModel then GivesWay(m, a) else Installs(m, a, t, None))
  {
    var b := Next(s, Begin(a, kind, t));
    KeepsInv(s, Begin(a, kind, t));
    AttemptStays(b, run, a);
    TabsRemain(b, run);
    SameOwnerExactlyIfUnchanged(b, run, t);
    SwapDecides(Exec(b, run), a, t);
  }

  /** So a switch without a swap of another on its tab installs its controller and replaces what the tab had. */
  lemma LoneSwitchInstalls(s: Sys, a: Id, kind: Kind, t: Tab, run: seq<Step>)
    requires Inv(s) && Enabled(s, Begin(a, kind, t)) && Legal(Next(s, Begin(a, kind, t)), run)
    requires kind in {SetModel, SwitchProfile, SetEffort} && Enabled(Exec(Next(s, Begin(a, kind, t)), run), Swap(a))
    requires !SwapsOn(Next(s, Begin(a, kind, t)), run, t)
    ensures t in s.tabs && Installs(Exec(Next(s, Begin(a, kind, t)), run), a, t, s.tabs[t])
  {
    NoSwapNoChange(Next(s, Begin(a, kind, t)), run, t);
    SwitchInstallsExactlyIf(s, a, kind, t, run);
  }

  /** The opening of a tab installs its controller exactly if the tab has none by then. */
  lemma OpeningInstallsExactlyIfEmpty(s: Sys, a: Id, t: Tab, run: seq<Step>)
    requires Enabled(s, Begin(a, OpenTab, t)) && Legal(Next(s, Begin(a, OpenTab, t)), run)
    requires Enabled(Exec(Next(s, Begin(a, OpenTab, t)), run), Swap(a))
    ensures var m := Exec(Next(s, Begin(a, OpenTab, t)), run);
            && t in m.tabs
            && if m.tabs[t] == None then Installs(m, a, t, None) else GivesWay(m, a)
  {
    AttemptStays(Next(s, Begin(a, OpenTab, t)), run, a);
    SwapDecides(Exec(Next(s, Begin(a, OpenTab, t)), run), a, t);
  }
}
