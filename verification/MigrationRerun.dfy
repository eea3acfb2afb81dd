/** What an interrupted migration pass leaves behind, and when running it again puts that right. */
module MigrationRerun {
  import opened SessionMoves
  import opened ProfileRouting

  /** The entries of d are at their places f: each where it was or where it belongs. */
  ghost predicate Partway(l: Layout, d: Disk, mid: Disk, read: MetaReader, f: Path -> Path) {
    && Placed(d, mid, f)
    && forall p :: p in d ==> f(p) == p || f(p) == Home(l, d, read, p)
  }

  /** Entry n of the flat directory has left it. */
  predicate Left(l: Layout, f: Path -> Path, n: string) {
    f(Path(Flat(l), n)) != Path(Flat(l), n)
  }

  /** For a session that does not belong in dev: once it has left, all its companions have; and its .meta has not
      left before it. */
  ghost predicate TidySession(l: Layout, d: Disk, read: MetaReader, f: Path -> Path, s: string) {
    && (Left(l, f, s) ==> forall n :: Owns(s, n) && Path(Flat(l), n) in d ==> Left(l, f, n))
    && (!Left(l, f, s) ==> !Left(l, f, s + ".meta") || Path(Flat(l), s + ".meta") !in d)
  }

  ghost predicate Tidy(l: Layout, d: Disk, read: MetaReader, f: Path -> Path) {
    forall s :: SessionAt(d, Flat(l), s) && ProfileOf(d, Flat(l), s, read) != Dev ==> TidySession(l, d, read, f, s)
  }

  /** The next pass takes every entry where it belonged at first. */
  ghost predicate Resumes(l: Layout, d: Disk, mid: Disk, read: MetaReader, f: Path -> Path) {
    forall p :: p in d ==> Home(l, mid, read, f(p)) == Home(l, d, read, p)
  }

  lemma InFlatUnmoved(l: Layout, d: Disk, mid: Disk, read: MetaReader, f: Path -> Path, q: Path)
    requires Partway(l, d, mid, read, f) && q.dir == Flat(l)
    ensures q in mid <==> q in d && f(q) == q
    ensures q in mid ==> mid[q] == d[q]
  {}

  /** The sessions left in the flat directory were there at first. */
  lemma SessionsInMid(l: Layout, d: Disk, mid: Disk, read: MetaReader, f: Path -> Path, s: string)
    requires Partway(l, d, mid, read, f)
    ensures SessionAt(mid, Flat(l), s) <==> SessionAt(d, Flat(l), s) && !Left(l, f, s)
  {}

  lemma ProfileInMid(l: Layout, d: Disk, mid: Disk, read: MetaReader, f: Path -> Path, s: string)
    requires Partway(l, d, mid, read, f)
    ensures ProfileOf(mid, Flat(l), s, read) ==
            if Path(Flat(l), s + ".meta") in d && Left(l, f, s + ".meta") then Dev else ProfileOf(d, Flat(l), s, read)
  {}

  lemma NoOwnerInMid(l: Layout, d: Disk, mid: Disk, read: MetaReader, f: Path -> Path, n: string)
    requires Partway(l, d, mid, read, f)
    requires forall s :: SessionAt(d, Flat(l), s) && Owns(s, n) ==> Left(l, f, s)
    ensures !HasOwner(mid, Flat(l), n)
  {}

  /** An entry that no session owns any more goes to dev. */
  lemma UnownedGoesToDev(l: Layout, d: Disk, read: MetaReader, p: Path)
    requires p.dir == Flat(l) && !HasOwner(d, Flat(l), p.name)
    ensures Home(l, d, read, p).dir == DirFor(l, Dev) || (p in d && d[p].Folder? && IsProfileFolder(l, p.name))
    ensures Home(l, d, read, p).dir == DirFor(l, Dev) || l.Global?
    ensures l.Global? ==> Home(l, d, read, p) == p
  {}

  lemma GlobalDevStays(l: Layout, d: Disk, read: MetaReader, s: string, p: Path)
    requires SessionAt(d, Flat(l), s) && Owns(s, p.name) && p.dir == Flat(l) && ProfileOf(d, Flat(l), s, read) == Dev
    ensures Home(l, d, read, p) == Path(DirFor(l, Dev), p.name)
  {
    HomeOfOwned(l, d, read, s, p);
  }

  lemma TidyEntryResumes(l: Layout, d: Disk, mid: Disk, read: MetaReader, f: Path -> Path, p: Path)
    requires Partway(l, d, mid, read, f) && Tidy(l, d, read, f) && p in d
    ensures Home(l, mid, read, f(p)) == Home(l, d, read, p)
  {
    HomeKeepsName(l, d, read, p);
    if p.dir == Flat(l) && f(p) == p {
      InFlatUnmoved(l, d, mid, read, f, p);
      if HasOwner(d, Flat(l), p.name) {
        var s := Owner(d, Flat(l), p.name);
        if ProfileOf(d, Flat(l), s, read) == Dev {
          DevEntryResumes(l, d, mid, read, f, s, p);
        } else {
          assert TidySession(l, d, read, f, s);
          assert !Left(l, f, p.name);
          SessionsInMid(l, d, mid, read, f, s);
          ProfileInMid(l, d, mid, read, f, s);
          HomeOfOwned(l, mid, read, s, p);
        }
      } else {
        NoOwnerInMid(l, d, mid, read, f, p.name);
      }
    }
  }

  lemma DevEntryResumes(l: Layout, d: Disk, mid: Disk, read: MetaReader, f: Path -> Path, s: string, p: Path)
    requires Partway(l, d, mid, read, f) && p in d && p.dir == Flat(l) && f(p) == p
    requires SessionAt(d, Flat(l), s) && Owns(s, p.name) && ProfileOf(d, Flat(l), s, read) == Dev
    ensures Home(l, mid, read, p) == Home(l, d, read, p)
  {
    GlobalDevStays(l, d, read, s, p);
    SessionsInMid(l, d, mid, read, f, s);
    if Left(l, f, s) {
      forall t | SessionAt(d, Flat(l), t) && Owns(t, p.name)
        ensures Left(l, f, t)
      {
        OneOwner(s, t, p.name);
      }
      NoOwnerInMid(l, d, mid, read, f, p.name);
      UnownedGoesToDev(l, mid, read, p);
    } else {
      ProfileInMid(l, d, mid, read, f, s);
      GlobalDevStays(l, mid, read, s, p);
    }
  }

  lemma UntidySessionIsSplit(l: Layout, d: Disk, mid: Disk, read: MetaReader, f: Path -> Path, s: string)
    requires Partway(l, d, mid, read, f) && SessionAt(d, Flat(l), s) && ProfileOf(d, Flat(l), s, read) != Dev
    requires !TidySession(l, d, read, f, s)
    ensures !Resumes(l, d, mid, read, f)
  {
    if Left(l, f, s) {
      var n :| Owns(s, n) && Path(Flat(l), n) in d && !Left(l, f, n);
      var p := Path(Flat(l), n);
      HomeOfOwned(l, d, read, s, p);
      forall t | SessionAt(d, Flat(l), t) && Owns(t, n)
        ensures Left(l, f, t)
      {
        OneOwner(s, t, n);
      }
      NoOwnerInMid(l, d, mid, read, f, n);
      UnownedGoesToDev(l, mid, read, p);
      assert Home(l, mid, read, f(p)) != Home(l, d, read, p);
    } else {
      var p := Path(Flat(l), s);
      HomeOfOwned(l, d, read, s, p);
      SessionsInMid(l, d, mid, read, f, s);
      ProfileInMid(l, d, mid, read, f, s);
      HomeOfOwned(l, mid, read, s, p);
      assert Home(l, mid, read, f(p)) != Home(l, d, read, p);
    }
  }

  /** After an interruption, the next pass still takes everything where it belonged exactly if no session outside
      dev was left half moved. */
  lemma ResumesExactlyIfTidy(l: Layout, d: Disk, mid: Disk, read: MetaReader, f: Path -> Path)
    requires Partway(l, d, mid, read, f)
    ensures Resumes(l, d, mid, read, f) <==> Tidy(l, d, read, f)
  {
    if Tidy(l, d, read, f) {
      forall p | p in d
        ensures Home(l, mid, read, f(p)) == Home(l, d, read, p)
      {
        TidyEntryResumes(l, d, mid, read, f, p);
      }
    } else {
      var s :| SessionAt(d, Flat(l), s) && ProfileOf(d, Flat(l), s, read) != Dev && !TidySession(l, d, read, f, s);
      UntidySessionIsSplit(l, d, mid, read, f, s);
    }
  }

  // ---- interrupting a pass and running it again ----

  lemma {:induction false} FirstDstOfPrefix(moves: seq<Move>, k: nat, p: Path)
    requires k <= |moves|
    ensures FirstDst(moves[..k], p) == p || FirstDst(moves[..k], p) == FirstDst(moves, p)
  {
    assert moves == moves[..k] + moves[k..];
    FirstDstAppend(moves[..k], moves[k..], p);
    if !HasMove(moves[..k], p) {
      FirstDstOfOthers(moves[..k], p);
    }
  }

  lemma PrefixIsClean(l: Layout, d: Disk, read: MetaReader, entries: seq<Entry>, k: nat)
    requires Listed(d, Flat(l), entries) && DestinationsFree(l, d, read) && k <= |Plan(l, d, read, entries)|
    ensures var moves := Plan(l, d, read, entries)[..k]; AllProper(moves) && Steady(moves) && Free(d, moves)
  {
    var plan := Plan(l, d, read, entries);
    var moves := plan[..k];
    PlanIsProper(l, d, read, entries);
    PlanIsSteady(l, d, read, entries);
    forall i | 0 <= i < |moves|
      ensures Proper(moves[i])
    {
      assert moves[i] == plan[i];
    }
    assert Steady(moves) by {
      forall i, j | 0 <= i < j < |moves| && moves[i].src == moves[j].src && moves[i].dst == moves[i].src
        ensures moves[j].dst == moves[j].src
      {
        assert moves[i] == plan[i] && moves[j] == plan[j];
      }
    }
    PrefixIsFree(l, d, read, entries, k);
  }

  lemma PrefixGoesHome(l: Layout, d: Disk, read: MetaReader, entries: seq<Entry>, k: nat, p: Path)
    requires Listed(d, Flat(l), entries) && k <= |Plan(l, d, read, entries)| && p in d
    ensures FirstDst(Plan(l, d, read, entries)[..k], p) == p || FirstDst(Plan(l, d, read, entries)[..k], p) == Home(l, d, read, p)
  {
    FirstDstOfPrefix(Plan(l, d, read, entries), k, p);
    PlanLeadsHome(l, d, read, entries, p);
  }

  lemma PrefixIsFree(l: Layout, d: Disk, read: MetaReader, entries: seq<Entry>, k: nat)
    requires Listed(d, Flat(l), entries) && DestinationsFree(l, d, read) && k <= |Plan(l, d, read, entries)|
    ensures Free(d, Plan(l, d, read, entries)[..k])
  {
    var moves := Plan(l, d, read, entries)[..k];
    forall p | p in d && FirstDst(moves, p) != p
      ensures FirstDst(moves, p) !in d
    {
      PrefixGoesHome(l, d, read, entries, k, p);
    }
    forall p, q | p in d && q in d && FirstDst(moves, p) == FirstDst(moves, q)
      ensures p == q
    {
      PrefixGoesHome(l, d, read, entries, k, p);
      PrefixGoesHome(l, d, read, entries, k, q);
      HomeKeepsName(l, d, read, p);
      HomeKeepsName(l, d, read, q);
    }
  }

  lemma InterruptedRunIsPartway(l: Layout, d: Disk, read: MetaReader, entries: seq<Entry>, k: nat, ok: nat -> bool, n: nat)
    requires Listed(d, Flat(l), entries) && DestinationsFree(l, d, read) && k <= |Plan(l, d, read, entries)|
    requires forall i: nat :: ok(i)
    ensures var moves := Plan(l, d, read, entries)[..k];
            Partway(l, d, Run(d, moves, ok, n), read, p => FirstDst(moves, p))
  {
    var moves := Plan(l, d, read, entries)[..k];
    PrefixIsClean(l, d, read, entries, k);
    CleanRunPlacesAll(d, moves, ok, n);
    forall p | p in d
      ensures FirstDst(moves, p) == p || FirstDst(moves, p) == Home(l, d, read, p)
    {
      PrefixGoesHome(l, d, read, entries, k, p);
    }
  }

  /** A pass that is interrupted after any number of moves and then run again to the end puts every entry where it
      belonged at first if no session outside dev was left half moved. */
  lemma RerunAfterTidyInterruption(l: Layout, d: Disk, mid: Disk, read: MetaReader, f: Path -> Path, again: seq<Entry>,
                                   ok: nat -> bool, n: nat)
    requires Partway(l, d, mid, read, f) && Tidy(l, d, read, f) && DestinationsFree(l, d, read)
    requires Listed(mid, Flat(l), again) && forall i: nat :: ok(i)
    ensures Placed(d, Run(mid, Plan(l, mid, read, again), ok, n), p => Home(l, d, read, p))
  {
    ResumesExactlyIfTidy(l, d, mid, read, f);
    ResumedIsFree(l, d, mid, read, f);
    CleanPassPutsAllHome(l, mid, read, again, ok, n);
    ComposePlaces(d, mid, Run(mid, Plan(l, mid, read, again), ok, n), f,
                  q => Home(l, mid, read, q), p => Home(l, d, read, p));
  }

  lemma ResumedIsFree(l: Layout, d: Disk, mid: Disk, read: MetaReader, f: Path -> Path)
    requires Partway(l, d, mid, read, f) && Resumes(l, d, mid, read, f) && DestinationsFree(l, d, read)
    ensures DestinationsFree(l, mid, read)
  {
    forall q | q in mid && Home(l, mid, read, q) != q
      ensures Home(l, mid, read, q) !in mid
    {
      var p :| p in d && f(p) == q;
      HomeKeepsName(l, mid, read, q);
      HomeKeepsName(l, d, read, p);
      var h := Home(l, mid, read, q);
      assert h == Home(l, d, read, p) && f(p) == p;
      if h in mid {
        var p1 :| p1 in d && f(p1) == h;
        HomeKeepsName(l, d, read, p1);
        assert false;
      }
    }
  }

  // ---- which interruptions are tidy ----

  /** The pass stops after its first k moves. */
  function Until(l: Layout, d: Disk, read: MetaReader, entries: seq<Entry>, k: nat): Path -> Path
    requires k <= |Plan(l, d, read, entries)|
  {
    p => FirstDst(Plan(l, d, read, entries)[..k], p)
  }

  /** Where the moves of entry j begin. */
  function BlockStart(l: Layout, d: Disk, read: MetaReader, entries: seq<Entry>, j: nat): nat
    requires j <= |entries|
  {
    |FirstPass(l, d, read, entries[..j])|
  }

  /** After k moves the pass is inside the moves of entry j, a session outside dev, and move i, of a companion that
      exists, is still to come. */
  ghost predicate StopsInside(l: Layout, d: Disk, read: MetaReader, entries: seq<Entry>, k: nat, j: nat, i: nat)
    requires j < |entries|
  {
    var start := BlockStart(l, d, read, entries, j);
    && IsSession(entries[j]) && ProfileOf(d, Flat(l), entries[j].name, read) != Dev
    && start < k <= start + i && i < 4
    && SessionMovesOf(l, ProfileOf(d, Flat(l), entries[j].name, read), entries[j].name)[i].src in d
  }

  /** The interruption falls between a session outside dev and one of its companions. */
  ghost predicate HalfMoved(l: Layout, d: Disk, read: MetaReader, entries: seq<Entry>, k: nat) {
    exists j, i :: 0 <= j < |entries| && 0 <= i && StopsInside(l, d, read, entries, k, j, i)
  }

  lemma {:induction false} FirstPassPrefix(l: Layout, d: Disk, read: MetaReader, entries: seq<Entry>, j: nat)
    requires j <= |entries|
    ensures FirstPass(l, d, read, entries[..j]) <= FirstPass(l, d, read, entries)
  {
    if j < |entries| {
      var init := entries[..|entries| - 1];
      FirstPassPrefix(l, d, read, init, j);
      assert init[..j] == entries[..j];
    } else {
      assert entries[..j] == entries;
    }
  }

  /** The moves of entry j, as they stand in the plan. */
  lemma BlockOf(l: Layout, d: Disk, read: MetaReader, entries: seq<Entry>, j: nat)
    requires j < |entries| && IsSession(entries[j])
    ensures var start := BlockStart(l, d, read, entries, j);
            && start + 4 <= |Plan(l, d, read, entries)|
            && Plan(l, d, read, entries)[start..start + 4]
               == SessionMovesOf(l, ProfileOf(d, Flat(l), entries[j].name, read), entries[j].name)
  {
    var more := entries[..j + 1];
    assert more[..j] == entries[..j] && more[j] == entries[j];
    FirstPassPrefix(l, d, read, entries, j + 1);
    var first := FirstPass(l, d, read, entries);
    var start := BlockStart(l, d, read, entries, j);
    assert FirstPass(l, d, read, more)
           == FirstPass(l, d, read, entries[..j]) + SessionMovesOf(l, ProfileOf(d, Flat(l), entries[j].name, read), entries[j].name);
    assert first[..start + 4] == FirstPass(l, d, read, more);
  }

  lemma BlockNamesDiffer(l: Layout, profile: Profile, s: string, i: nat, m: nat)
    requires IsSessionName(s) && i < 4 && m < 4 && i != m
    ensures SessionMovesOf(l, profile, s)[i].src.name != SessionMovesOf(l, profile, s)[m].src.name
  {
    EndsAre(s);
    var names := [s, s + ".meta", Stem(s) + ".ckpt", s + ".telemetry.json"];
    assert names[0][|names[0]| - 1] == 'l' && names[1][|names[1]| - 1] == 'a';
    assert names[2][|names[2]| - 1] == 't' && names[3][|names[3]| - 1] == 'n';
    assert SessionMovesOf(l, profile, s)[i].src.name == names[i] && SessionMovesOf(l, profile, s)[m].src.name == names[m];
  }

  /** No move before the one of its session's block takes an entry. */
  lemma NotMovedBefore(l: Layout, d: Disk, read: MetaReader, entries: seq<Entry>, j: nat, i: nat, m: nat)
    requires DistinctNames(entries) && j < |entries| && IsSession(entries[j]) && i < 4
    requires m < BlockStart(l, d, read, entries, j) + i && m < |Plan(l, d, read, entries)|
    ensures Plan(l, d, read, entries)[m].src != SessionMovesOf(l, ProfileOf(d, Flat(l), entries[j].name, read), entries[j].name)[i].src
  {
    var start := BlockStart(l, d, read, entries, j);
    var block := SessionMovesOf(l, ProfileOf(d, Flat(l), entries[j].name, read), entries[j].name);
    if m < start {
      MovedByAnother(l, d, read, entries, j, m);
      if Plan(l, d, read, entries)[m].src == block[i].src {
        var j0 :| 0 <= j0 < j && IsSession(entries[j0]) && Owns(entries[j0].name, block[i].src.name);
        OneOwner(entries[j0].name, entries[j].name, block[i].src.name);
        assert false;
      }
    } else {
      BlockOf(l, d, read, entries, j);
      assert Plan(l, d, read, entries)[start..start + 4][m - start] == block[m - start];
      BlockNamesDiffer(l, ProfileOf(d, Flat(l), entries[j].name, read), entries[j].name, i, m - start);
    }
  }

  lemma MovedByAnother(l: Layout, d: Disk, read: MetaReader, entries: seq<Entry>, j: nat, m: nat)
    requires j < |entries| && m < BlockStart(l, d, read, entries, j)
    ensures m < |Plan(l, d, read, entries)|
    ensures exists j0 :: 0 <= j0 < j && IsSession(entries[j0]) && Owns(entries[j0].name, Plan(l, d, read, entries)[m].src.name)
  {
    FirstPassPrefix(l, d, read, entries, j);
    FirstPassMoves(l, d, read, entries[..j], m);
    var before := FirstPass(l, d, read, entries[..j]);
    assert Plan(l, d, read, entries)[m] == before[m];
    var j0 :| 0 <= j0 < j && IsSession(entries[..j][j0]) && IsMoveOf(l, d, read, entries[..j][j0].name, before[m]);
    assert IsSession(entries[j0]) && Owns(entries[j0].name, before[m].src.name);
  }

  /** An entry of a session's block has had its move exactly if the pass has got past it. */
  lemma MovedExactlyIfPast(l: Layout, d: Disk, read: MetaReader, entries: seq<Entry>, k: nat, j: nat, i: nat)
    requires DistinctNames(entries) && j < |entries| && IsSession(entries[j]) && i < 4
    requires k <= |Plan(l, d, read, entries)|
    ensures HasMove(Plan(l, d, read, entries)[..k],
                    SessionMovesOf(l, ProfileOf(d, Flat(l), entries[j].name, read), entries[j].name)[i].src)
            <==> k > BlockStart(l, d, read, entries, j) + i
  {
    var start := BlockStart(l, d, read, entries, j);
    var block := SessionMovesOf(l, ProfileOf(d, Flat(l), entries[j].name, read), entries[j].name);
    var plan := Plan(l, d, read, entries);
    BlockOf(l, d, read, entries, j);
    assert plan[start..start + 4][i] == block[i];
    if k > start + i {
      assert plan[..k][start + i].src == block[i].src;
    }
    if HasMove(plan[..k], block[i].src) {
      var m :| 0 <= m < k && plan[..k][m].src == block[i].src;
      if m < start + i {
        NotMovedBefore(l, d, read, entries, j, i, m);
        assert false;
      }
    }
  }

  /** An entry that belongs outside dev has left exactly if it has had its move. */
  lemma LeftExactlyIfMoved(l: Layout, d: Disk, read: MetaReader, entries: seq<Entry>, k: nat, s: string, n: string)
    requires Listed(d, Flat(l), entries) && k <= |Plan(l, d, read, entries)|
    requires SessionAt(d, Flat(l), s) && ProfileOf(d, Flat(l), s, read) != Dev && Owns(s, n) && Path(Flat(l), n) in d
    ensures Left(l, Until(l, d, read, entries, k), n) <==> HasMove(Plan(l, d, read, entries)[..k], Path(Flat(l), n))
  {
    var plan := Plan(l, d, read, entries);
    var p := Path(Flat(l), n);
    assert plan == plan[..k] + plan[k..];
    FirstDstAppend(plan[..k], plan[k..], p);
    PlanLeadsHome(l, d, read, entries, p);
    HomeOfOwned(l, d, read, s, p);
    if !HasMove(plan[..k], p) {
      FirstDstOfOthers(plan[..k], p);
    }
  }

  /** For a session outside dev: its entry number i has left exactly if the pass has got past its move. */
  lemma LeftExactlyIfPast(l: Layout, d: Disk, read: MetaReader, entries: seq<Entry>, k: nat, j: nat, i: nat)
    requires Listed(d, Flat(l), entries) && DistinctNames(entries) && k <= |Plan(l, d, read, entries)|
    requires j < |entries| && IsSession(entries[j]) && ProfileOf(d, Flat(l), entries[j].name, read) != Dev && i < 4
    requires SessionMovesOf(l, ProfileOf(d, Flat(l), entries[j].name, read), entries[j].name)[i].src in d
    ensures Left(l, Until(l, d, read, entries, k),
                 SessionMovesOf(l, ProfileOf(d, Flat(l), entries[j].name, read), entries[j].name)[i].src.name)
            <==> k > BlockStart(l, d, read, entries, j) + i
  {
    var s := entries[j].name;
    var src := SessionMovesOf(l, ProfileOf(d, Flat(l), s, read), s)[i].src;
    MovedExactlyIfPast(l, d, read, entries, k, j, i);
    assert Owns(s, src.name) && src == Path(Flat(l), src.name);
    LeftExactlyIfMoved(l, d, read, entries, k, s, src.name);
  }

  lemma SessionTidyExactlyIf(l: Layout, d: Disk, read: MetaReader, entries: seq<Entry>, k: nat, j: nat)
    requires Listed(d, Flat(l), entries) && DistinctNames(entries) && k <= |Plan(l, d, read, entries)|
    requires j < |entries| && IsSession(entries[j]) && ProfileOf(d, Flat(l), entries[j].name, read) != Dev
    ensures TidySession(l, d, read, Until(l, d, read, entries, k), entries[j].name)
            <==> !exists i :: 0 <= i && StopsInside(l, d, read, entries, k, j, i)
  {
    var s := entries[j].name;
    var f := Until(l, d, read, entries, k);
    var block := SessionMovesOf(l, ProfileOf(d, Flat(l), s, read), s);
    var start := BlockStart(l, d, read, entries, j);
    assert block[0].src == Path(Flat(l), s) && block[1].src == Path(Flat(l), s + ".meta");
    LeftExactlyIfPast(l, d, read, entries, k, j, 0);
    if block[1].src in d {
      LeftExactlyIfPast(l, d, read, entries, k, j, 1);
    }
    if i :| 0 <= i && StopsInside(l, d, read, entries, k, j, i) {
      LeftExactlyIfPast(l, d, read, entries, k, j, i);
      assert Owns(s, block[i].src.name) && !Left(l, f, block[i].src.name);
    } else if Left(l, f, s) {
      forall n | Owns(s, n) && Path(Flat(l), n) in d
        ensures Left(l, f, n)
      {
        var i := MoveIn(l, ProfileOf(d, Flat(l), s, read), s, n);
        LeftExactlyIfPast(l, d, read, entries, k, j, i);
        assert !StopsInside(l, d, read, entries, k, j, i);
      }
    }
  }

  /** An interruption is tidy exactly if it does not fall between a session outside dev and one of its companions. */
  lemma TidyExactlyIfNotHalfMoved(l: Layout, d: Disk, read: MetaReader, entries: seq<Entry>, k: nat)
    requires Listed(d, Flat(l), entries) && DistinctNames(entries) && k <= |Plan(l, d, read, entries)|
    ensures Tidy(l, d, read, Until(l, d, read, entries, k)) <==> !HalfMoved(l, d, read, entries, k)
  {
    var f := Until(l, d, read, entries, k);
    if HalfMoved(l, d, read, entries, k) {
      var j, i :| 0 <= j < |entries| && 0 <= i && StopsInside(l, d, read, entries, k, j, i);
      SessionTidyExactlyIf(l, d, read, entries, k, j);
      assert SessionAt(d, Flat(l), entries[j].name);
    } else {
      forall s | SessionAt(d, Flat(l), s) && ProfileOf(d, Flat(l), s, read) != Dev
        ensures TidySession(l, d, read, f, s)
      {
        var j :| 0 <= j < |entries| && entries[j].name == Path(Flat(l), s).name;
        SessionTidyExactlyIf(l, d, read, entries, k, j);
      }
    }
  }

  lemma {:induction false} BlockStartsGrow(l: Layout, d: Disk, read: MetaReader, entries: seq<Entry>, i: nat, j: nat)
    requires i <= j <= |entries|
    ensures BlockStart(l, d, read, entries, i) <= BlockStart(l, d, read, entries, j)
  {
    assert entries[..j][..i] == entries[..i];
    FirstPassPrefix(l, d, read, entries[..j], i);
  }

  /** Between two entries of the first pass, and anywhere after it, no session is half moved. */
  lemma BetweenSessionsIsTidy(l: Layout, d: Disk, read: MetaReader, entries: seq<Entry>, k: nat, b: nat)
    requires Listed(d, Flat(l), entries) && DistinctNames(entries) && k <= |Plan(l, d, read, entries)| && b <= |entries|
    requires k == BlockStart(l, d, read, entries, b) || k >= |FirstPass(l, d, read, entries)|
    ensures Tidy(l, d, read, Until(l, d, read, entries, k))
  {
    TidyExactlyIfNotHalfMoved(l, d, read, entries, k);
    forall j, i | 0 <= j < |entries| && 0 <= i
      ensures !StopsInside(l, d, read, entries, k, j, i)
    {
      NotInside(l, d, read, entries, k, b, j, i);
    }
  }

  lemma NotInside(l: Layout, d: Disk, read: MetaReader, entries: seq<Entry>, k: nat, b: nat, j: nat, i: nat)
    requires b <= |entries| && j < |entries|
    requires k == BlockStart(l, d, read, entries, b) || k >= |FirstPass(l, d, read, entries)|
    ensures !StopsInside(l, d, read, entries, k, j, i)
  {
    if IsSession(entries[j]) {
      BlockEnds(l, d, read, entries, j);
      assert entries[..|entries|] == entries;
      BlockStartsGrow(l, d, read, entries, j + 1, |entries|);
      if j < b {
        BlockStartsGrow(l, d, read, entries, j + 1, b);
      } else {
        BlockStartsGrow(l, d, read, entries, b, j);
      }
    }
  }

  lemma BlockEnds(l: Layout, d: Disk, read: MetaReader, entries: seq<Entry>, j: nat)
    requires j < |entries| && IsSession(entries[j])
    ensures BlockStart(l, d, read, entries, j + 1) == BlockStart(l, d, read, entries, j) + 4
  {
    var more := entries[..j + 1];
    assert more[..j] == entries[..j] && more[j] == entries[j];
  }

  // ---- the rerun ----

  lemma {:induction false} NothingArrives(d: Disk, moves: seq<Move>, ok: nat -> bool, n: nat, q: Path)
    requires q !in d && forall i :: 0 <= i < |moves| ==> moves[i].dst != q
    ensures q !in Run(d, moves, ok, n)
    decreases |moves|
  {
    if moves != [] {
      assert moves[0].dst != q;
      NothingArrives(Moved(d, moves[0], ok(n)), moves[1..], ok, n + 1, q);
    }
  }

  /** A companion that stayed behind its session never arrives where they belonged: the next pass has no move
      that takes it there. */
  lemma LeftBehindNeverArrives(l: Layout, d: Disk, mid: Disk, read: MetaReader, f: Path -> Path, s: string, n: string,
                               again: seq<Entry>, ok: nat -> bool, m: nat)
    requires Partway(l, d, mid, read, f) && DestinationsFree(l, d, read) && Listed(mid, Flat(l), again)
    requires SessionAt(d, Flat(l), s) && ProfileOf(d, Flat(l), s, read) != Dev && Owns(s, n) && Path(Flat(l), n) in d
    requires Left(l, f, s) && !Left(l, f, n)
    ensures Home(l, d, read, Path(Flat(l), n)) !in Run(mid, Plan(l, mid, read, again), ok, m)
  {
    var p := Path(Flat(l), n);
    var q := Home(l, d, read, p);
    HomeOfOwned(l, d, read, s, p);
    PlaceIsEmpty(l, d, mid, read, f, p);
    OwnerIsGone(l, d, mid, read, f, s, n);
    var plan := Plan(l, mid, read, again);
    forall i | 0 <= i < |plan|
      ensures plan[i].dst != q
    {
      NoMoveTakesItThere(l, mid, read, n, ProfileOf(d, Flat(l), s, read), again, i);
    }
    NothingArrives(mid, plan, ok, m, q);
  }

  lemma PlaceIsEmpty(l: Layout, d: Disk, mid: Disk, read: MetaReader, f: Path -> Path, p: Path)
    requires Partway(l, d, mid, read, f) && DestinationsFree(l, d, read)
    requires p in d && p.dir == Flat(l) && f(p) == p && Home(l, d, read, p) != p
    ensures Home(l, d, read, p) !in mid
  {
    var q := Home(l, d, read, p);
    assert q !in d;
    HomeKeepsName(l, d, read, p);
    forall p0 | p0 in d
      ensures f(p0) != q
    {
      HomeKeepsName(l, d, read, p0);
    }
  }

  /** A pass takes an entry without an owner nowhere but to dev. */
  lemma NoMoveTakesItThere(l: Layout, d: Disk, read: MetaReader, n: string, profile: Profile, entries: seq<Entry>, i: nat)
    requires Listed(d, Flat(l), entries) && i < |Plan(l, d, read, entries)|
    requires !HasOwner(d, Flat(l), n) && profile != Dev
    ensures Plan(l, d, read, entries)[i].dst != Path(DirFor(l, profile), n)
  {
    var p := Path(Flat(l), n);
    if i < |FirstPass(l, d, read, entries)| {
      UnownedIsLeft(l, d, read, entries, p);
      FirstPassGoesElsewhere(l, d, read, entries, i, p);
    } else {
      SecondPassGoesToDev(l, entries, i - |FirstPass(l, d, read, entries)|);
    }
  }

  lemma SecondPassGoesToDev(l: Layout, entries: seq<Entry>, i: nat)
    requires i < |SecondPass(l, entries)|
    ensures SecondPass(l, entries)[i].dst.dir == DirFor(l, Dev)
  {
    SecondPassMoves(l, entries, i);
  }

  lemma OwnerIsGone(l: Layout, d: Disk, mid: Disk, read: MetaReader, f: Path -> Path, s: string, n: string)
    requires Partway(l, d, mid, read, f) && Owns(s, n) && Left(l, f, s)
    ensures !HasOwner(mid, Flat(l), n)
  {
    forall t | SessionAt(d, Flat(l), t) && Owns(t, n)
      ensures Left(l, f, t)
    {
      OneOwner(s, t, n);
    }
    NoOwnerInMid(l, d, mid, read, f, n);
  }

  lemma FirstPassGoesElsewhere(l: Layout, d: Disk, read: MetaReader, entries: seq<Entry>, i: nat, p: Path)
    requires i < |FirstPass(l, d, read, entries)| && p.dir == Flat(l) && !HasMove(FirstPass(l, d, read, entries), p)
    ensures FirstPass(l, d, read, entries)[i].dst.name != p.name
  {
    var move := FirstPass(l, d, read, entries)[i];
    assert move.src != p;
    FirstPassMoves(l, d, read, entries, i);
    var j :| 0 <= j < |entries| && IsSession(entries[j]) && IsMoveOf(l, d, read, entries[j].name, move);
  }

  /** A pass that stops after its first k moves and is run again to the end, over whatever listing, puts every
      entry where it belonged at first if and only if it did not stop between a session outside dev and one of its
      companions. */
  lemma InterruptedPassResumesExactlyIf(l: Layout, d: Disk, read: MetaReader, entries: seq<Entry>, k: nat, again: seq<Entry>,
                                        ok: nat -> bool, n: nat, m: nat)
    requires Listed(d, Flat(l), entries) && DistinctNames(entries) && DestinationsFree(l, d, read)
    requires k <= |Plan(l, d, read, entries)| && (forall i: nat :: ok(i))
    requires Listed(Run(d, Plan(l, d, read, entries)[..k], ok, n), Flat(l), again)
    ensures var mid := Run(d, Plan(l, d, read, entries)[..k], ok, n);
            Placed(d, Run(mid, Plan(l, mid, read, again), ok, m), p => Home(l, d, read, p))
            <==> !HalfMoved(l, d, read, entries, k)
  {
    var mid := Run(d, Plan(l, d, read, entries)[..k], ok, n);
    InterruptedRunIsPartway(l, d, read, entries, k, ok, n);
    TidyExactlyIfNotHalfMoved(l, d, read, entries, k);
    if HalfMoved(l, d, read, entries, k) {
      HalfMovedStaysSplit(l, d, mid, read, entries, k, again, ok, m);
    } else {
      RerunAfterTidyInterruption(l, d, mid, read, Until(l, d, read, entries, k), again, ok, m);
    }
  }

  lemma HalfMovedStaysSplit(l: Layout, d: Disk, mid: Disk, read: MetaReader, entries: seq<Entry>, k: nat, again: seq<Entry>,
                            ok: nat -> bool, m: nat)
    requires Listed(d, Flat(l), entries) && DistinctNames(entries) && DestinationsFree(l, d, read)
    requires k <= |Plan(l, d, read, entries)| && HalfMoved(l, d, read, entries, k)
    requires Partway(l, d, mid, read, Until(l, d, read, entries, k)) && Listed(mid, Flat(l), again)
    ensures !Placed(d, Run(mid, Plan(l, mid, read, again), ok, m), p => Home(l, d, read, p))
  {
    var s, n := HalfMovedPair(l, d, read, entries, k);
    LeftBehindNeverArrives(l, d, mid, read, Until(l, d, read, entries, k), s, n, again, ok, m);
    MissingMeansNotPlaced(d, Run(mid, Plan(l, mid, read, again), ok, m), p => Home(l, d, read, p), Path(Flat(l), n));
  }

  lemma HalfMovedPair(l: Layout, d: Disk, read: MetaReader, entries: seq<Entry>, k: nat) returns (s: string, n: string)
    requires Listed(d, Flat(l), entries) && DistinctNames(entries)
    requires k <= |Plan(l, d, read, entries)| && HalfMoved(l, d, read, entries, k)
    ensures SessionAt(d, Flat(l), s) && ProfileOf(d, Flat(l), s, read) != Dev && Owns(s, n) && Path(Flat(l), n) in d
    ensures Left(l, Until(l, d, read, entries, k), s) && !Left(l, Until(l, d, read, entries, k), n)
  {
    var j, i :| 0 <= j < |entries| && 0 <= i && StopsInside(l, d, read, entries, k, j, i);
    s := entries[j].name;
    var block := SessionMovesOf(l, ProfileOf(d, Flat(l), s, read), s);
    n := block[i].src.name;
    assert SessionAt(d, Flat(l), s);
    BlockEntry(l, ProfileOf(d, Flat(l), s, read), s, 0);
    BlockEntry(l, ProfileOf(d, Flat(l), s, read), s, i);
    LeftExactlyIfPast(l, d, read, entries, k, j, 0);
    LeftExactlyIfPast(l, d, read, entries, k, j, i);
  }

  lemma BlockEntry(l: Layout, profile: Profile, s: string, i: nat)
    requires IsSessionName(s) && i < 4
    ensures var src := SessionMovesOf(l, profile, s)[i].src;
            src == Path(Flat(l), src.name) && Owns(s, src.name) && (i == 0 ==> src.name == s)
  {}

  lemma MissingMeansNotPlaced(d: Disk, e: Disk, place: Path -> Path, p: Path)
    requires p in d && place(p) !in e
    ensures !Placed(d, e, place)
  {}
}
