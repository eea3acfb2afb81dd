/** Concurrent SetWatch calls: each changes the watcher table under one mutex and then, under a second one,
    takes a fresh snapshot of it and writes that to disk. A run is any interleaving of any number of calls. */
module WatchPersistence {
  import opened Wrappers

  datatype Route = Route(platform: string, chatType: string, chatId: string) {
    function Key(): string {
      platform + "|" + chatType + "|" + chatId
    }
  }

  type Watchers = map<string, Route>

  /** The watcher table after one SetWatch: an enabled route is added only if its key is new. */
  function Toggled(w: Watchers, route: Route, enable: bool): Watchers {
    if enable then (if route.Key() in w then w else w[route.Key() := route])
    else w - {route.Key()}
  }

  ghost predicate KeyedWatchers(w: Watchers) {
    forall k :: k in w ==> w[k].Key() == k
  }

  // ---- what a history of settings leaves ----

  datatype Setting = Setting(route: Route, enable: bool)

  function AfterSettings(w: Watchers, settings: seq<Setting>): Watchers {
    if settings == [] then w
    else Toggled(AfterSettings(w, settings[..|settings| - 1]), settings[|settings| - 1].route, settings[|settings| - 1].enable)
  }

  /** Setting i is the last one for the key. */
  predicate LastFor(settings: seq<Setting>, key: string, i: int) {
    && 0 <= i < |settings| && settings[i].route.Key() == key
    && forall j :: i < j < |settings| ==> settings[j].route.Key() != key
  }

  /** A chat is watching exactly if the last setting for its key enabled it, or if there was none and it was
      watching before. */
  lemma {:induction false} WatchingExactlyIfLastEnabled(w: Watchers, settings: seq<Setting>, key: string)
    ensures key in AfterSettings(w, settings) <==>
            (exists i :: LastFor(settings, key, i) && settings[i].enable)
            || (key in w && forall i :: 0 <= i < |settings| ==> settings[i].route.Key() != key)
  {
    if settings != [] {
      var init, last := settings[..|settings| - 1], settings[|settings| - 1];
      WatchingExactlyIfLastEnabled(w, init, key);
      if last.route.Key() == key {
        assert LastFor(settings, key, |settings| - 1);
      } else {
        forall i
          ensures LastFor(settings, key, i) <==> LastFor(init, key, i)
        {}
      }
    }
  }

  /** What comes before the first bar, and what comes after it. */
  lemma AtFirstBar(a: string, x: string, b: string, y: string)
    requires '|' !in a && '|' !in b && a + "|" + x == b + "|" + y
    ensures a == b && x == y
  {
    var s := a + "|" + x;
    assert forall i :: 0 <= i < |a| ==> s[i] == a[i];
    assert forall i :: 0 <= i < |b| ==> s[i] == b[i];
    assert s[|a|] == '|' && s[|b|] == '|';
    assert a == s[..|a|] && x == s[|a| + 1..] && y == s[|b| + 1..];
  }

  /** Routes are told apart by their keys, as long as only chat ids contain a bar. */
  lemma KeysTellRoutesApart(r: Route, q: Route)
    requires '|' !in r.platform && '|' !in r.chatType && '|' !in q.platform && '|' !in q.chatType
    ensures r.Key() == q.Key() <==> r == q
  {
    if r.Key() == q.Key() {
      var x, y := r.chatType + "|" + r.chatId, q.chatType + "|" + q.chatId;
      assert r.Key() == r.platform + "|" + x && q.Key() == q.platform + "|" + y;
      AtFirstBar(r.platform, x, q.platform, y);
      AtFirstBar(r.chatType, r.chatId, q.chatType, q.chatId);
    }
  }

  /** So the watch of a chat does not depend on the settings of another that differs only in its id. */
  lemma OtherChatsDoNotMatter(w: Watchers, settings: seq<Setting>, route: Route, enable: bool, chatId: string)
    requires chatId != route.chatId
    ensures var other := route.(chatId := chatId);
            other.Key() in AfterSettings(w, settings + [Setting(route, enable)]) <==> other.Key() in AfterSettings(w, settings)
  {
    assert (settings + [Setting(route, enable)])[..|settings|] == settings;
    var front, other := route.platform + "|" + route.chatType + "|", route.(chatId := chatId);
    assert other.Key()[|front|..] == chatId && route.Key()[|front|..] == route.chatId;
  }

  /** A list that a loop over the table may produce: every route once, in any order. */
  ghost predicate Lists(list: seq<Route>, w: Watchers) {
    && (forall i, j :: 0 <= i < j < |list| ==> list[i] != list[j])
    && (forall r :: r in list <==> r in w.Values)
  }

  datatype Pc =
    | Wanting                              // the table is changed; persistMu not yet taken
    | Holding                              // persistMu held, no snapshot yet
    | Snapped(list: seq<Route>, at: nat)   // persistMu held; the snapshot is of version `at`
    | Written                              // persistMu held; the write is over
    | Returned

  /** history: every version the table has had; the current one is the last. disk is a list of version
      diskAt. failed: the most recent write, if any, failed. */
  datatype Sys = Sys(
    history: seq<Watchers>,
    disk: seq<Route>,
    diskAt: nat,
    failed: bool,
    persistMu: Option<nat>,
    calls: map<nat, Pc>)
  {
    function Current(): Watchers
      requires |history| > 0
    {
      history[|history| - 1]
    }
  }

  datatype Step =
    | Change(call: nat, route: Route, enable: bool)
    | Lock(call: nat)
    | Snap(call: nat, list: seq<Route>)
    | Write(call: nat, ok: bool)
    | Unlock(call: nat)

  ghost predicate Enabled(s: Sys, st: Step)
    requires |s.history| > 0
  {
    match st
    case Change(c, _, _) => c !in s.calls
    case Lock(c) => c in s.calls && s.calls[c] == Wanting && s.persistMu == None
    case Snap(c, list) => c in s.calls && s.calls[c] == Holding && Lists(list, s.Current())
    case Write(c, _) => c in s.calls && s.calls[c].Snapped?
    case Unlock(c) => c in s.calls && s.calls[c] == Written
  }

  ghost function Next(s: Sys, st: Step): Sys
    requires |s.history| > 0 && Enabled(s, st)
  {
    match st
    case Change(c, route, enable) =>
      var w := Toggled(s.Current(), route, enable);
      if w == s.Current() then s.(calls := s.calls[c := Returned])
      else s.(history := s.history + [w], calls := s.calls[c := Wanting])
    case Lock(c) => s.(persistMu := Some(c), calls := s.calls[c := Holding])
    case Snap(c, list) => s.(calls := s.calls[c := Snapped(list, |s.history| - 1)])
    case Write(c, ok) =>
      var pc := s.calls[c];
      if ok then s.(disk := pc.list, diskAt := pc.at, failed := false, calls := s.calls[c := Written])
      else s.(failed := true, calls := s.calls[c := Written])
    case Unlock(c) => s.(persistMu := None, calls := s.calls[c := Returned])
  }

  ghost predicate Critical(pc: Pc) {
    pc == Holding || pc.Snapped? || pc == Written
  }

  /** A call that has not taken its snapshot, or has taken it of the current version, will write the current one. */
  ghost predicate WillWriteCurrent(s: Sys, c: nat) {
    c in s.calls && (s.calls[c] == Wanting || s.calls[c] == Holding || (s.calls[c].Snapped? && s.calls[c].at == |s.history| - 1))
  }

  ghost predicate Inv(s: Sys) {
    && |s.history| > 0 && s.diskAt < |s.history|
    && (forall v :: 0 <= v < |s.history| ==> KeyedWatchers(s.history[v]))
    && Lists(s.disk, s.history[s.diskAt])
    && (forall c :: c in s.calls && Critical(s.calls[c]) ==> s.persistMu == Some(c))
    && (s.persistMu.Some? ==> s.persistMu.value in s.calls && Critical(s.calls[s.persistMu.value]))
    && (forall c :: c in s.calls && s.calls[c].Snapped? ==>
          s.diskAt <= s.calls[c].at < |s.history| && Lists(s.calls[c].list, s.history[s.calls[c].at]))
    && (s.diskAt == |s.history| - 1 || s.failed || exists c :: WillWriteCurrent(s, c))
    // A snapshot that is already old implies a call that still has to take its own.
    && (forall c :: c in s.calls && s.calls[c].Snapped? && s.calls[c].at < |s.history| - 1 ==>
          exists d :: d in s.calls && s.calls[d] == Wanting)
  }

  ghost predicate Initial(s: Sys) {
    && |s.history| == 1 && KeyedWatchers(s.Current())
    && Lists(s.disk, s.Current()) && s.diskAt == 0 && !s.failed
    && s.persistMu == None && s.calls == map[]
  }

  /** A call that finds nothing to change returns at once. */
  lemma IdleChangeKeepsInv(s: Sys, c: nat)
    requires Inv(s) && c !in s.calls
    ensures Inv(s.(calls := s.calls[c := Returned]))
  {
    var s' := s.(calls := s.calls[c := Returned]);
    if d :| WillWriteCurrent(s, d) {
      assert WillWriteCurrent(s', d);
    }
    forall d | d in s'.calls && s'.calls[d].Snapped? && s'.calls[d].at < |s'.history| - 1
      ensures exists e :: e in s'.calls && s'.calls[e] == Wanting
    {
      assert s.calls[d] == s'.calls[d];
      var e :| e in s.calls && s.calls[e] == Wanting;
      assert s'.calls[e] == Wanting;
    }
  }

  /** A change makes what is on disk old, and its own call the one that will write it. */
  lemma RealChangeKeepsInv(s: Sys, c: nat, w: Watchers)
    requires Inv(s) && c !in s.calls && KeyedWatchers(w)
    ensures Inv(s.(history := s.history + [w], calls := s.calls[c := Wanting]))
  {
    var s' := s.(history := s.history + [w], calls := s.calls[c := Wanting]);
    assert WillWriteCurrent(s', c);
    assert s'.calls[c] == Wanting;
  }

  lemma ChangeKeepsInv(s: Sys, c: nat, route: Route, enable: bool)
    requires Inv(s) && c !in s.calls
    ensures Inv(Next(s, Change(c, route, enable)))
  {
    var w := Toggled(s.Current(), route, enable);
    assert KeyedWatchers(s.Current());
    assert KeyedWatchers(w);
    if w == s.Current() {
      IdleChangeKeepsInv(s, c);
    } else {
      RealChangeKeepsInv(s, c, w);
    }
  }

  /** Nobody else is in the critical section. */
  ghost predicate OnlyCritical(s: Sys, c: nat) {
    forall d :: d in s.calls && d != c ==> !Critical(s.calls[d])
  }

  lemma LockKeepsInv(s: Sys, c: nat)
    requires Inv(s) && Enabled(s, Lock(c))
    ensures Inv(Next(s, Lock(c)))
  {
    var s' := Next(s, Lock(c));
    if d :| WillWriteCurrent(s, d) {
      assert WillWriteCurrent(s', d);
    }
    assert OnlyCritical(s', c);
  }

  lemma SnapKeepsInv(s: Sys, c: nat, list: seq<Route>)
    requires Inv(s) && Enabled(s, Snap(c, list))
    ensures Inv(Next(s, Snap(c, list)))
  {
    var s' := Next(s, Snap(c, list));
    assert OnlyCritical(s, c);
    assert WillWriteCurrent(s', c);
  }

  lemma WriteKeepsInv(s: Sys, c: nat, ok: bool)
    requires Inv(s) && Enabled(s, Write(c, ok))
    ensures Inv(Next(s, Write(c, ok))) && s.diskAt <= Next(s, Write(c, ok)).diskAt
  {
    var s' := Next(s, Write(c, ok));
    assert OnlyCritical(s, c);
    if ok && s'.diskAt != |s.history| - 1 {
      var d :| d in s.calls && s.calls[d] == Wanting;
      assert WillWriteCurrent(s', d);
    }
  }

  lemma UnlockKeepsInv(s: Sys, c: nat)
    requires Inv(s) && Enabled(s, Unlock(c))
    ensures Inv(Next(s, Unlock(c)))
  {
    var s' := Next(s, Unlock(c));
    assert OnlyCritical(s, c);
    if d :| WillWriteCurrent(s, d) {
      assert WillWriteCurrent(s', d);
    }
  }

  lemma CriticalStepKeepsInv(s: Sys, st: Step)
    requires Inv(s) && Enabled(s, st) && !st.Change?
    ensures Inv(Next(s, st)) && s.diskAt <= Next(s, st).diskAt
  {
    match st
    case Lock(c) => LockKeepsInv(s, c);
    case Snap(c, list) => SnapKeepsInv(s, c, list);
    case Write(c, ok) => WriteKeepsInv(s, c, ok);
    case Unlock(c) => UnlockKeepsInv(s, c);
  }

  ghost predicate Legal(s: Sys, run: seq<Step>)
    decreases |run|
  {
    run == [] || (|s.history| > 0 && Enabled(s, run[0]) && Legal(Next(s, run[0]), run[1..]))
  }

  ghost function Exec(s: Sys, run: seq<Step>): Sys
    requires Legal(s, run)
    decreases |run|
  {
    if run == [] then s else Exec(Next(s, run[0]), run[1..])
  }

  /** The settings a run makes, in the order of their changes. */
  function SettingsOf(run: seq<Step>): seq<Setting> {
    if run == [] then []
    else SettingsOf(run[..|run| - 1]) + SettingOf(run[|run| - 1])
  }

  lemma {:induction false} LegalPrefix(s: Sys, run: seq<Step>, st: Step)
    requires |s.history| > 0 && Legal(s, run + [st])
    ensures Legal(s, run) && |Exec(s, run).history| > 0 && Enabled(Exec(s, run), st)
    ensures Exec(s, run + [st]) == Next(Exec(s, run), st)
    decreases |run|
  {
    if run == [] {
      assert run + [st] == [st];
      assert Legal(Next(s, st), [st][1..]);
    } else {
      assert (run + [st])[0] == run[0] && (run + [st])[1..] == run[1..] + [st];
      LegalPrefix(Next(s, run[0]), run[1..], st);
    }
  }

  function SettingOf(st: Step): seq<Setting> {
    match st case Change(_, route, enable) => [Setting(route, enable)] case _ => []
  }

  lemma SettingsOneMore(init: seq<Step>, st: Step)
    ensures SettingsOf(init + [st]) == SettingsOf(init) + SettingOf(st)
  {
    assert (init + [st])[..|init|] == init;
  }

  lemma OneMoreSetting(w: Watchers, settings: seq<Setting>, more: Setting)
    ensures AfterSettings(w, settings + [more]) == Toggled(AfterSettings(w, settings), more.route, more.enable)
  {
    assert (settings + [more])[..|settings|] == settings;
  }

  lemma StepMakesItsSetting(s: Sys, st: Step, w: Watchers, settings: seq<Setting>)
    requires |s.history| > 0 && Enabled(s, st) && s.Current() == AfterSettings(w, settings)
    ensures |Next(s, st).history| > 0 && Next(s, st).Current() == AfterSettings(w, settings + SettingOf(st))
  {
    if st.Change? {
      OneMoreSetting(w, settings, Setting(st.route, st.enable));
    } else {
      assert settings + [] == settings;
    }
  }

  /** In every interleaving the table is what the changes made so far, in their order, make of the first one. */
  lemma {:induction false} TableFollowsTheChanges(s: Sys, run: seq<Step>)
    requires |s.history| > 0 && Legal(s, run)
    ensures |Exec(s, run).history| > 0 && Exec(s, run).Current() == AfterSettings(s.Current(), SettingsOf(run))
  {
    if run != [] {
      var init, st := run[..|run| - 1], run[|run| - 1];
      assert run == init + [st];
      LegalPrefix(s, init, st);
      TableFollowsTheChanges(s, init);
      StepMakesItsSetting(Exec(s, init), st, s.Current(), SettingsOf(init));
      SettingsOneMore(init, st);
    }
  }

  /** The version on disk only ever moves forward: no write puts an older snapshot over a newer one. */
  lemma {:induction false} DiskNeverGoesBack(s: Sys, run: seq<Step>)
    requires Inv(s) && Legal(s, run)
    ensures Inv(Exec(s, run)) && s.diskAt <= Exec(s, run).diskAt
    decreases |run|
  {
    if run != [] {
      if run[0].Change? {
        ChangeKeepsInv(s, run[0].call, run[0].route, run[0].enable);
      } else {
        CriticalStepKeepsInv(s, run[0]);
      }
      DiskNeverGoesBack(Next(s, run[0]), run[1..]);
    }
  }

  ghost predicate AllReturned(s: Sys) {
    forall c :: c in s.calls ==> s.calls[c] == Returned
  }

  /** Once every call has returned and the most recent write succeeded (earlier ones may have failed), the
      list on disk is exactly the watcher table in memory. */
  lemma AtRestDiskIsCurrent(s: Sys, run: seq<Step>)
    requires Initial(s) && Legal(s, run) && AllReturned(Exec(s, run)) && !Exec(s, run).failed
    ensures |Exec(s, run).history| > 0 && Lists(Exec(s, run).disk, Exec(s, run).Current())
  {
    DiskNeverGoesBack(s, run);
  }

  lemma {:induction false} NoFailureWithoutFailedWrite(s: Sys, run: seq<Step>)
    requires Legal(s, run) && !s.failed && (forall i :: 0 <= i < |run| && run[i].Write? ==> run[i].ok)
    ensures !Exec(s, run).failed
    decreases |run|
  {
    if run != [] {
      NoFailureWithoutFailedWrite(Next(s, run[0]), run[1..]);
    }
  }

  /** The design's promise: with successful writes, any interleaving of SetWatch calls ends with the disk
      list equal to the in-memory set. */
  lemma ConcurrentSetWatchPersistsTheLastSet(s: Sys, run: seq<Step>)
    requires Initial(s) && Legal(s, run) && AllReturned(Exec(s, run))
    requires forall i :: 0 <= i < |run| && run[i].Write? ==> run[i].ok
    ensures |Exec(s, run).history| > 0 && Lists(Exec(s, run).disk, Exec(s, run).Current())
  {
    NoFailureWithoutFailedWrite(s, run);
    AtRestDiskIsCurrent(s, run);
  }

  /** Some successful write of the run wrote a snapshot of version v. */
  ghost predicate Wrote(s: Sys, run: seq<Step>, v: nat)
    requires Legal(s, run)
    decreases |run|
  {
    run != [] && ((run[0].Write? && run[0].ok && s.calls[run[0].call].at == v) || Wrote(Next(s, run[0]), run[1..], v))
  }

  lemma StepKeepsInv(s: Sys, st: Step)
    requires Inv(s) && Enabled(s, st)
    ensures Inv(Next(s, st))
  {
    if st.Change? {
      ChangeKeepsInv(s, st.call, st.route, st.enable);
    } else {
      CriticalStepKeepsInv(s, st);
    }
  }

  lemma {:induction false} DiskIsFromAWrite(s: Sys, run: seq<Step>, v: nat)
    requires Inv(s) && Legal(s, run)
    ensures Exec(s, run).diskAt == v ==> s.diskAt == v || Wrote(s, run, v)
    ensures Wrote(s, run, v) ==> v <= Exec(s, run).diskAt
    decreases |run|
  {
    if run != [] {
      StepKeepsInv(s, run[0]);
      DiskIsFromAWrite(Next(s, run[0]), run[1..], v);
      DiskNeverGoesBack(Next(s, run[0]), run[1..]);
    }
  }

  lemma SameList(list: seq<Route>, w: Watchers, v: Watchers)
    requires Lists(list, w) && Lists(list, v) && KeyedWatchers(w) && KeyedWatchers(v)
    ensures w == v
  {
    ListedIn(list, w, v);
    ListedIn(list, v, w);
  }

  lemma ListedIn(list: seq<Route>, w: Watchers, v: Watchers)
    requires Lists(list, w) && Lists(list, v) && KeyedWatchers(w) && KeyedWatchers(v)
    ensures forall k :: k in w ==> k in v && v[k] == w[k]
  {
    forall k | k in w
      ensures k in v && v[k] == w[k]
    {
      assert w[k] in w.Values && w[k] in list;
      var j :| j in v && v[j] == w[k];
      assert j == v[j].Key() == k;
    }
  }

  /** When the disk is up to date, failed writes or not, calls under way or not: the version on disk is the last one
      exactly if it was from the beginning or some successful write took its snapshot after the last change; and the
      list on disk is the table exactly if the version on disk equals the last one. */
  lemma DiskIsCurrentExactlyIf(s: Sys, run: seq<Step>)
    requires Inv(s) && Legal(s, run)
    ensures var e := Exec(s, run); var last := |e.history| - 1;
            && last >= 0 && 0 <= e.diskAt <= last
            && (e.diskAt == last <==> s.diskAt == last || Wrote(s, run, last))
            && (Lists(e.disk, e.Current()) <==> e.history[e.diskAt] == e.Current())
  {
    DiskNeverGoesBack(s, run);
    var e := Exec(s, run);
    DiskIsFromAWrite(s, run, |e.history| - 1);
    assert KeyedWatchers(e.history[e.diskAt]) && KeyedWatchers(e.Current());
    if Lists(e.disk, e.Current()) {
      SameList(e.disk, e.history[e.diskAt], e.Current());
    }
  }

  /** The condition on the last write is needed: one call whose write fails leaves the old list on disk. */
  lemma FailedLastWriteLeavesOldList(r: Route) returns (s: Sys, run: seq<Step>)
    ensures Initial(s) && Legal(s, run) && AllReturned(Exec(s, run)) && |Exec(s, run).history| > 0
    ensures Exec(s, run).disk == [] && Exec(s, run).Current() == map[r.Key() := r]
  {
    s := Sys([map[]], [], 0, false, None, map[]);
    var w: Watchers := map[r.Key() := r];
    assert r.Key() in w && w.Values == {r};
    var s1 := Sys([map[], w], [], 0, false, None, map[0 := Wanting]);
    var s2 := s1.(persistMu := Some(0), calls := map[0 := Holding]);
    var s3 := s2.(calls := map[0 := Snapped([r], 1)]);
    var s4 := s3.(failed := true, calls := map[0 := Written]);
    var s5 := s4.(persistMu := None, calls := map[0 := Returned]);
    var r4 := [Unlock(0)] + [];
    var r3 := [Write(0, false)] + r4;
    var r2 := [Snap(0, [r])] + r3;
    var r1 := [Lock(0)] + r2;
    assert Next(s4, Unlock(0)) == s5;
    Prepend(s4, Unlock(0), [], s5);
    assert Next(s3, Write(0, false)) == s4;
    Prepend(s3, Write(0, false), r4, s5);
    assert s2.Current() == w && Next(s2, Snap(0, [r])) == s3;
    Prepend(s2, Snap(0, [r]), r3, s5);
    assert Next(s1, Lock(0)) == s2;
    Prepend(s1, Lock(0), r2, s5);
    assert s1.history == s.history + [w] && w != s.Current();
    Prepend(s, Change(0, r, true), r1, s5);
    run := [Change(0, r, true)] + r1;
  }

  lemma Prepend(s: Sys, st: Step, rest: seq<Step>, e: Sys)
    requires |s.history| > 0 && Enabled(s, st) && Legal(Next(s, st), rest) && Exec(Next(s, st), rest) == e
    ensures Legal(s, [st] + rest) && Exec(s, [st] + rest) == e
  {}

  // ---- sequences of steps ----

  lemma {:induction false} LegalAppend(s: Sys, run: seq<Step>, st: Step)
    requires Legal(s, run) && |Exec(s, run).history| > 0 && Enabled(Exec(s, run), st)
    ensures Legal(s, run + [st]) && Exec(s, run + [st]) == Next(Exec(s, run), st)
    decreases |run|
  {
    if run == [] {
      assert run + [st] == [st];
      Prepend(s, st, [], Next(s, st));
      assert [st] + [] == [st];
    } else {
      LegalAppend(Next(s, run[0]), run[1..], st);
      Prepend(s, run[0], run[1..] + [st], Next(Exec(s, run), st));
      assert run + [st] == [run[0]] + (run[1..] + [st]);
    }
  }

  /** Some interleaving leads from s to e. */
  ghost predicate Reaches(s: Sys, e: Sys) {
    exists run :: Legal(s, run) && Exec(s, run) == e
  }

  lemma ReachesSelf(s: Sys)
    ensures Reaches(s, s)
  {
    var run: seq<Step> := [];
    assert Legal(s, run) && Exec(s, run) == s;
  }

  lemma ReachesOneMore(s: Sys, m: Sys, st: Step)
    requires Reaches(s, m) && |m.history| > 0 && Enabled(m, st)
    ensures Reaches(s, Next(m, st))
  {
    var run :| Legal(s, run) && Exec(s, run) == m;
    LegalAppend(s, run, st);
  }
}
