/** The session passes of the profile migration, and the repair of the saved tab paths after them. */
module ProfileMigration {
  import opened SessionMoves
  import opened ProfileRouting
  import opened Wrappers

  // ---- one directory does not disturb another ----

  /** The flat directory of the layout is the same on both disks. */
  ghost predicate SameFlat(l: Layout, d: Disk, e: Disk) {
    forall q: Path :: q.dir == Flat(l) ==> (q in d <==> q in e) && (q in d ==> d[q] == e[q])
  }

  lemma SameOwners(l: Layout, d: Disk, e: Disk, n: string)
    requires SameFlat(l, d, e) && HasOwner(d, Flat(l), n)
    ensures HasOwner(e, Flat(l), n)
  {}

  lemma SameProfile(l: Layout, d: Disk, e: Disk, read: MetaReader, s: string)
    requires SameFlat(l, d, e)
    ensures ProfileOf(d, Flat(l), s, read) == ProfileOf(e, Flat(l), s, read)
  {}

  lemma SameHome(l: Layout, d: Disk, e: Disk, read: MetaReader, p: Path)
    requires SameFlat(l, d, e)
    ensures Home(l, d, read, p) == Home(l, e, read, p)
  {
    if p.dir == Flat(l) {
      if HasOwner(d, Flat(l), p.name) {
        var s := Owner(d, Flat(l), p.name);
        SameOwners(l, d, e, p.name);
        assert Path(Flat(l), s).dir == Flat(l);
        assert SessionAt(e, Flat(l), s);
        HomeOfOwned(l, e, read, s, p);
        SameProfile(l, d, e, read, s);
      } else if HasOwner(e, Flat(l), p.name) {
        SameOwners(l, e, d, p.name);
      }
    }
  }

  lemma HomeDir(l: Layout, d: Disk, read: MetaReader, p: Path)
    requires Home(l, d, read, p) != p
    ensures exists profile :: Home(l, d, read, p).dir == DirFor(l, profile)
    ensures !IsFlat(Home(l, d, read, p).dir) && p.dir == Flat(l)
  {}

  /** A pass over one layout leaves the flat directories of the others as they are. */
  lemma OthersKeepFlat(l: Layout, other: Layout, d: Disk, e: Disk, read: MetaReader)
    requires Placed(d, e, p => Home(l, d, read, p)) && other != l
    ensures SameFlat(other, d, e)
  {}

  lemma CameFromHome(l: Layout, d: Disk, e: Disk, read: MetaReader, q: Path) returns (p: Path)
    requires Placed(d, e, x => Home(l, d, read, x)) && q in e
    ensures p in d && Home(l, d, read, p) == q
  {
    var place: Path -> Path := x => Home(l, d, read, x);
    p :| p in d && place(p) == q;
  }

  /** The destinations of other layouts stay free. */
  lemma OthersStayFree(l: Layout, other: Layout, d: Disk, e: Disk, read: MetaReader)
    requires Placed(d, e, p => Home(l, d, read, p)) && other != l && DestinationsFree(other, d, read)
    ensures DestinationsFree(other, e, read)
  {
    OthersKeepFlat(l, other, d, e, read);
    forall p | p in e && Home(other, e, read, p) != p
      ensures Home(other, e, read, p) !in e
    {
      SameHome(other, d, e, read, p);
      HomeDir(other, e, read, p);
      var h := Home(other, e, read, p);
      if h in e {
        var p0 := CameFromHome(l, d, e, read, h);
        if Home(l, d, read, p0) != p0 {
          HomeDir(l, d, read, p0);
        }
      }
    }
  }

  lemma OthersStayHome(l: Layout, other: Layout, d: Disk, e: Disk, read: MetaReader)
    requires Placed(d, e, p => Home(l, d, read, p)) && other != l && AllHome(other, d, read)
    ensures AllHome(other, e, read)
  {
    OthersKeepFlat(l, other, d, e, read);
    forall p | p in e
      ensures Home(other, e, read, p) == p
    {
      SameHome(other, d, e, read, p);
      HomeKeepsName(other, d, read, p);
      if p.dir == Flat(other) {
        assert p in d;
      }
    }
  }

  // ---- all directories ----

  predicate Distinct(ls: seq<Layout>) {
    forall i, j :: 0 <= i < j < |ls| ==> ls[i] != ls[j]
  }

  /** Where an entry belongs after the passes over these layouts. */
  ghost function HomeAfter(ls: seq<Layout>, d: Disk, read: MetaReader, p: Path): Path {
    if ls == [] then p
    else
      var last := ls[|ls| - 1];
      if p.dir == Flat(last) then Home(last, d, read, p) else HomeAfter(ls[..|ls| - 1], d, read, p)
  }

  ghost predicate AllFree(ls: seq<Layout>, d: Disk, read: MetaReader) {
    forall i :: 0 <= i < |ls| ==> DestinationsFree(ls[i], d, read)
  }

  ghost predicate AllSettled(ls: seq<Layout>, d: Disk, read: MetaReader) {
    forall i :: 0 <= i < |ls| ==> AllHome(ls[i], d, read)
  }

  lemma {:induction false} HomeAfterOf(ls: seq<Layout>, d: Disk, read: MetaReader, i: nat, p: Path)
    requires Distinct(ls) && i < |ls| && p.dir == Flat(ls[i])
    ensures HomeAfter(ls, d, read, p) == Home(ls[i], d, read, p)
  {
    if i < |ls| - 1 {
      assert ls[i] != ls[|ls| - 1];
      HomeAfterOf(ls[..|ls| - 1], d, read, i, p);
    }
  }

  lemma {:induction false} HomeAfterStays(ls: seq<Layout>, d: Disk, read: MetaReader, p: Path)
    ensures HomeAfter(ls, d, read, p) == p ||
            exists i :: 0 <= i < |ls| && p.dir == Flat(ls[i]) && HomeAfter(ls, d, read, p) == Home(ls[i], d, read, p)
  {
    if ls != [] && p.dir != Flat(ls[|ls| - 1]) {
      HomeAfterStays(ls[..|ls| - 1], d, read, p);
    }
  }

  /** One more pass: what it does to the disk left by the others. */
  lemma OneMoreLayout(ls: seq<Layout>, l: Layout, start: Disk, d: Disk, e: Disk, read: MetaReader)
    requires Distinct(ls + [l]) && Placed(start, d, p => HomeAfter(ls, start, read, p))
    requires SameFlat(l, start, d) && Placed(d, e, p => Home(l, d, read, p))
    ensures Placed(start, e, p => HomeAfter(ls + [l], start, read, p))
  {
    var f: Path -> Path := p => HomeAfter(ls, start, read, p);
    var g: Path -> Path := p => Home(l, d, read, p);
    var h: Path -> Path := p => HomeAfter(ls + [l], start, read, p);
    forall p | p in start
      ensures g(f(p)) == h(p)
    {
      assert (ls + [l])[..|ls|] == ls;
      NextLayoutPlaces(ls, l, start, d, read, p);
    }
    ComposePlaces(start, d, e, f, g, h);
  }

  lemma NextLayoutPlaces(ls: seq<Layout>, l: Layout, start: Disk, d: Disk, read: MetaReader, p: Path)
    requires Distinct(ls + [l]) && SameFlat(l, start, d) && p in start
    ensures Home(l, d, read, HomeAfter(ls, start, read, p)) ==
            if p.dir == Flat(l) then Home(l, start, read, p) else HomeAfter(ls, start, read, p)
  {
    HomeAfterStays(ls, start, read, p);
    SameHome(l, start, d, read, p);
    if HomeAfter(ls, start, read, p) != p {
      var i :| 0 <= i < |ls| && p.dir == Flat(ls[i]) && HomeAfter(ls, start, read, p) == Home(ls[i], start, read, p);
      assert (ls + [l])[i] != (ls + [l])[|ls|];
      HomeDir(ls[i], start, read, p);
    }
  }

  /** After k passes in which nothing failed: what they moved is where it belongs, the rest is as it was. */
  ghost predicate CleanSoFar(ls: seq<Layout>, k: nat, start: Disk, d: Disk, read: MetaReader)
    requires k <= |ls|
  {
    && Placed(start, d, p => HomeAfter(ls[..k], start, read, p))
    && (forall i :: k <= i < |ls| ==> SameFlat(ls[i], start, d) && DestinationsFree(ls[i], d, read))
    && (forall i :: 0 <= i < k ==> AllHome(ls[i], d, read))
  }

  lemma StartsClean(ls: seq<Layout>, start: Disk, read: MetaReader)
    requires AllFree(ls, start, read)
    ensures CleanSoFar(ls, 0, start, start, read)
  {}

  lemma RestStaysFree(ls: seq<Layout>, k: nat, start: Disk, d: Disk, e: Disk, read: MetaReader)
    requires Distinct(ls) && k < |ls| && Placed(d, e, p => Home(ls[k], d, read, p))
    requires forall i :: k <= i < |ls| ==> SameFlat(ls[i], start, d) && DestinationsFree(ls[i], d, read)
    ensures forall i :: k < i < |ls| ==> SameFlat(ls[i], start, e) && DestinationsFree(ls[i], e, read)
  {
    forall i | k < i < |ls|
      ensures SameFlat(ls[i], start, e) && DestinationsFree(ls[i], e, read)
    {
      OthersStayFree(ls[k], ls[i], d, e, read);
      OthersKeepFlat(ls[k], ls[i], d, e, read);
      SameFlatTrans(ls[i], start, d, e);
    }
  }

  lemma SameFlatTrans(l: Layout, a: Disk, b: Disk, c: Disk)
    requires SameFlat(l, a, b) && SameFlat(l, b, c)
    ensures SameFlat(l, a, c)
  {}

  lemma PassedStayHome(ls: seq<Layout>, k: nat, d: Disk, e: Disk, read: MetaReader)
    requires Distinct(ls) && k < |ls| && Placed(d, e, p => Home(ls[k], d, read, p))
    requires forall i :: 0 <= i < k ==> AllHome(ls[i], d, read)
    ensures forall i :: 0 <= i <= k ==> AllHome(ls[i], e, read)
  {
    PassLeavesAllHome(ls[k], d, e, read);
    forall i | 0 <= i < k
      ensures AllHome(ls[i], e, read)
    {
      OneStaysHome(ls, i, k, d, e, read);
    }
  }

  lemma OneStaysHome(ls: seq<Layout>, i: nat, k: nat, d: Disk, e: Disk, read: MetaReader)
    requires Distinct(ls) && i < k < |ls| && Placed(d, e, p => Home(ls[k], d, read, p)) && AllHome(ls[i], d, read)
    ensures AllHome(ls[i], e, read)
  {
    assert ls[i] != ls[k];
    OthersStayHome(ls[k], ls[i], d, e, read);
  }

  lemma StaysClean(ls: seq<Layout>, k: nat, start: Disk, d: Disk, e: Disk, read: MetaReader)
    requires Distinct(ls) && k < |ls| && CleanSoFar(ls, k, start, d, read)
    requires Placed(d, e, p => Home(ls[k], d, read, p))
    ensures CleanSoFar(ls, k + 1, start, e, read)
  {
    RestStaysFree(ls, k, start, d, e, read);
    PassedStayHome(ls, k, d, e, read);
    assert ls[..k + 1] == ls[..k] + [ls[k]];
    assert Distinct(ls[..k] + [ls[k]]);
    OneMoreLayout(ls[..k], ls[k], start, d, e, read);
  }

  // ---- a trail of passes ----

  /** Disk e is what a pass over some listing of the layout's directory leaves of disk d. */
  ghost predicate IsPass(l: Layout, d: Disk, e: Disk, read: MetaReader, ok: nat -> bool) {
    exists entries, n: nat :: IsPassOver(l, d, e, read, ok, entries, n)
  }

  ghost predicate IsPassOver(l: Layout, d: Disk, e: Disk, read: MetaReader, ok: nat -> bool, entries: seq<Entry>, n: nat) {
    Listed(d, Flat(l), entries) && e == Run(d, Plan(l, d, read, entries), ok, n)
  }

  /** The disks before the first pass and after each. */
  ghost predicate Trail(ls: seq<Layout>, disks: seq<Disk>, read: MetaReader, ok: nat -> bool) {
    |disks| == |ls| + 1 && forall i :: 0 <= i < |ls| ==> IsPass(ls[i], disks[i], disks[i + 1], read, ok)
  }

  lemma PassConserves(l: Layout, a: Disk, d: Disk, e: Disk, read: MetaReader, ok: nat -> bool)
    requires IsPass(l, d, e, read, ok) && Conserved(a, d)
    ensures Conserved(a, e)
  {
    var entries, n: nat :| IsPassOver(l, d, e, read, ok, entries, n);
    PlanIsProper(l, d, read, entries);
    EveryStateConserves(a, d, Plan(l, d, read, entries), ok, n);
  }

  lemma PassIsClean(l: Layout, d: Disk, e: Disk, read: MetaReader, ok: nat -> bool)
    requires IsPass(l, d, e, read, ok) && DestinationsFree(l, d, read) && forall i: nat :: ok(i)
    ensures Placed(d, e, p => Home(l, d, read, p))
  {
    var entries, n: nat :| IsPassOver(l, d, e, read, ok, entries, n);
    CleanPassPutsAllHome(l, d, read, entries, ok, n);
  }

  lemma SettledPassIsIdle(l: Layout, d: Disk, e: Disk, read: MetaReader, ok: nat -> bool)
    requires IsPass(l, d, e, read, ok) && AllHome(l, d, read)
    ensures e == d
  {
    var entries, n: nat :| IsPassOver(l, d, e, read, ok, entries, n);
    PassIsIdle(l, d, read, entries, ok, n);
  }

  /** Whatever fails, nothing is lost, doubled, changed or overwritten after any of the passes. */
  lemma {:induction false} TrailConserves(ls: seq<Layout>, disks: seq<Disk>, read: MetaReader, ok: nat -> bool, k: nat)
    requires Trail(ls, disks, read, ok) && k <= |ls|
    ensures Conserved(disks[0], disks[k])
  {
    if k == 0 {
      StartsConserved(disks[0]);
    } else {
      TrailConserves(ls, disks, read, ok, k - 1);
      assert IsPass(ls[k - 1], disks[k - 1], disks[k - 1 + 1], read, ok);
      PassConserves(ls[k - 1], disks[0], disks[k - 1], disks[k], read, ok);
    }
  }

  lemma {:induction false} TrailIsClean(ls: seq<Layout>, disks: seq<Disk>, read: MetaReader, ok: nat -> bool, k: nat)
    requires Trail(ls, disks, read, ok) && k <= |ls|
    requires Distinct(ls) && AllFree(ls, disks[0], read) && forall i: nat :: ok(i)
    ensures CleanSoFar(ls, k, disks[0], disks[k], read)
  {
    if k == 0 {
      StartsClean(ls, disks[0], read);
    } else {
      TrailIsClean(ls, disks, read, ok, k - 1);
      assert IsPass(ls[k - 1], disks[k - 1], disks[k - 1 + 1], read, ok);
      PassIsClean(ls[k - 1], disks[k - 1], disks[k], read, ok);
      StaysClean(ls, k - 1, disks[0], disks[k - 1], disks[k], read);
    }
  }

  /** If nothing fails and no destination is taken, every entry of every directory ends where it belongs, nothing
      else is on the disk, and everything is settled. */
  lemma CleanTrailPutsAllHome(ls: seq<Layout>, disks: seq<Disk>, read: MetaReader, ok: nat -> bool)
    requires Trail(ls, disks, read, ok) && Distinct(ls) && AllFree(ls, disks[0], read) && forall i: nat :: ok(i)
    ensures Placed(disks[0], disks[|ls|], p => HomeAfter(ls, disks[0], read, p)) && AllSettled(ls, disks[|ls|], read)
  {
    TrailIsClean(ls, disks, read, ok, |ls|);
    EndsClean(ls, disks[0], disks[|ls|], read);
  }

  /** Once everything is settled, running the migration again changes nothing, even if renames would fail. */
  lemma {:induction false} SettledTrailIsIdle(ls: seq<Layout>, disks: seq<Disk>, read: MetaReader, ok: nat -> bool, k: nat)
    requires Trail(ls, disks, read, ok) && AllSettled(ls, disks[0], read) && k <= |ls|
    ensures disks[k] == disks[0]
  {
    if k > 0 {
      SettledTrailIsIdle(ls, disks, read, ok, k - 1);
      assert IsPass(ls[k - 1], disks[k - 1], disks[k - 1 + 1], read, ok);
      SettledPassIsIdle(ls[k - 1], disks[k - 1], disks[k], read, ok);
    }
  }

  lemma EndsClean(ls: seq<Layout>, start: Disk, d: Disk, read: MetaReader)
    requires CleanSoFar(ls, |ls|, start, d, read)
    ensures Placed(start, d, p => HomeAfter(ls, start, read, p)) && AllSettled(ls, d, read)
  {
    assert ls[..|ls|] == ls;
  }

  /** The same after any number of renames within any of the passes. */
  lemma EveryStateOfTheMigrationConserves(ls: seq<Layout>, disks: seq<Disk>, read: MetaReader, ok: nat -> bool, k: nat,
                                          entries: seq<Entry>, j: nat, n: nat)
    requires Trail(ls, disks, read, ok) && k < |ls| && j <= |Plan(ls[k], disks[k], read, entries)|
    ensures Conserved(disks[0], Run(disks[k], Plan(ls[k], disks[k], read, entries)[..j], ok, n))
  {
    var moves := Plan(ls[k], disks[k], read, entries);
    TrailConserves(ls, disks, read, ok, k);
    PlanIsProper(ls[k], disks[k], read, entries);
    forall i | 0 <= i < |moves[..j]|
      ensures Proper(moves[..j][i])
    {
      assert moves[..j][i] == moves[i];
    }
    EveryStateConserves(disks[0], disks[k], moves[..j], ok, n);
  }

  /** Session file s of a directory, by its name and kind. */
  predicate SessionFile(d: Disk, dir: Dir, s: string) {
    |s| >= 6 && s[|s| - 6..] == ".jsonl" && Path(dir, s) in d && d[Path(dir, s)].File?
  }

  /** The session's own name and those of its three companions. */
  function NamesOf(s: string): set<string>
    requires |s| >= 6
  {
    {s, s + ".meta", s[..|s| - 6] + ".ckpt", s + ".telemetry.json"}
  }

  lemma NamesAreOwned(d: Disk, dir: Dir, s: string, n: string)
    ensures SessionFile(d, dir, s) && n in NamesOf(s) <==> SessionAt(d, dir, s) && Owns(s, n)
  {}

  lemma OwnedAreNames(d: Disk, dir: Dir, n: string)
    ensures HasOwner(d, dir, n) <==> exists s :: SessionFile(d, dir, s) && n in NamesOf(s)
  {
    if s :| SessionAt(d, dir, s) && Owns(s, n) {
      NamesAreOwned(d, dir, s, n);
    }
    if s :| SessionFile(d, dir, s) && n in NamesOf(s) {
      NamesAreOwned(d, dir, s, n);
    }
  }

  /** After a clean migration an entry is where its pass belongs it. */
  lemma EndsAtHome(ls: seq<Layout>, disks: seq<Disk>, read: MetaReader, ok: nat -> bool, i: nat, p: Path)
    requires Trail(ls, disks, read, ok) && Distinct(ls) && AllFree(ls, disks[0], read) && forall j: nat :: ok(j)
    requires i < |ls| && p in disks[0] && p.dir == Flat(ls[i])
    ensures var q := Home(ls[i], disks[0], read, p); q in disks[|ls|] && disks[|ls|][q] == disks[0][p]
  {
    CleanTrailPutsAllHome(ls, disks, read, ok);
    HomeAfterOf(ls, disks[0], read, i, p);
    PlacedAt(disks[0], disks[|ls|], x => HomeAfter(ls, disks[0], read, x), p);
  }

  /** The profile that the .meta file beside a session names; dev if there is no such file. */
  function NamedProfile(d: Disk, dir: Dir, s: string, read: MetaReader): Profile {
    var meta := Path(dir, s + ".meta");
    if meta in d && d[meta].File? then read(d[meta].content) else Dev
  }

  /** In a clean migration a project's session and every companion it had end together, unchanged, in
      projects/<slug>/<profile>/sessions for the profile that its .meta named at first. */
  lemma ProjectSessionsTravelWhole(ls: seq<Layout>, disks: seq<Disk>, read: MetaReader, ok: nat -> bool, i: nat,
                                   slug: string, s: string, n: string)
    requires Trail(ls, disks, read, ok) && Distinct(ls) && AllFree(ls, disks[0], read) && forall j: nat :: ok(j)
    requires i < |ls| && ls[i] == Project(slug)
    requires SessionFile(disks[0], ProjectSessions(slug), s) && n in NamesOf(s) && Path(ProjectSessions(slug), n) in disks[0]
    ensures var q := Path(ProjectProfile(slug, NamedProfile(disks[0], ProjectSessions(slug), s, read)), n);
            q in disks[|ls|] && disks[|ls|][q] == disks[0][Path(ProjectSessions(slug), n)]
  {
    var p := Path(ProjectSessions(slug), n);
    NamesAreOwned(disks[0], ProjectSessions(slug), s, n);
    HomeOfOwned(ls[i], disks[0], read, s, p);
    EndsAtHome(ls, disks, read, ok, i, p);
  }

  /** The same of the global directory, where a dev session stays where it is. */
  lemma GlobalSessionsTravelWhole(ls: seq<Layout>, disks: seq<Disk>, read: MetaReader, ok: nat -> bool, i: nat, s: string, n: string)
    requires Trail(ls, disks, read, ok) && Distinct(ls) && AllFree(ls, disks[0], read) && forall j: nat :: ok(j)
    requires i < |ls| && ls[i] == Global
    requires SessionFile(disks[0], GlobalSessions, s) && n in NamesOf(s) && Path(GlobalSessions, n) in disks[0]
    ensures var profile := NamedProfile(disks[0], GlobalSessions, s, read);
            var q := Path(if profile == Dev then GlobalSessions else GlobalProfile(profile), n);
            q in disks[|ls|] && disks[|ls|][q] == disks[0][Path(GlobalSessions, n)]
  {
    var p := Path(GlobalSessions, n);
    NamesAreOwned(disks[0], GlobalSessions, s, n);
    HomeOfOwned(ls[i], disks[0], read, s, p);
    EndsAtHome(ls, disks, read, ok, i, p);
  }

  /** Every other entry of a project's directory ends in its dev partition. */
  lemma ProjectOthersGoToDev(ls: seq<Layout>, disks: seq<Disk>, read: MetaReader, ok: nat -> bool, i: nat, slug: string, n: string)
    requires Trail(ls, disks, read, ok) && Distinct(ls) && AllFree(ls, disks[0], read) && forall j: nat :: ok(j)
    requires i < |ls| && ls[i] == Project(slug) && Path(ProjectSessions(slug), n) in disks[0]
    requires forall s :: SessionFile(disks[0], ProjectSessions(slug), s) ==> n !in NamesOf(s)
    ensures var q := Path(ProjectProfile(slug, Dev), n);
            q in disks[|ls|] && disks[|ls|][q] == disks[0][Path(ProjectSessions(slug), n)]
  {
    OwnedAreNames(disks[0], ProjectSessions(slug), n);
    EndsAtHome(ls, disks, read, ok, i, Path(ProjectSessions(slug), n));
  }

  /** Every other entry of the global directory, profile folders or not, stays where it is. */
  lemma GlobalOthersStay(ls: seq<Layout>, disks: seq<Disk>, read: MetaReader, ok: nat -> bool, i: nat, n: string)
    requires Trail(ls, disks, read, ok) && Distinct(ls) && AllFree(ls, disks[0], read) && forall j: nat :: ok(j)
    requires i < |ls| && ls[i] == Global && Path(GlobalSessions, n) in disks[0]
    requires forall s :: SessionFile(disks[0], GlobalSessions, s) ==> n !in NamesOf(s)
    ensures Path(GlobalSessions, n) in disks[|ls|] && disks[|ls|][Path(GlobalSessions, n)] == disks[0][Path(GlobalSessions, n)]
  {
    OwnedAreNames(disks[0], GlobalSessions, n);
    EndsAtHome(ls, disks, read, ok, i, Path(GlobalSessions, n));
  }

  lemma PlacedAt(a: Disk, b: Disk, place: Path -> Path, p: Path)
    requires Placed(a, b, place) && p in a
    ensures place(p) in b && b[place(p)] == a[p]
  {}

  // ---- saved tab paths ----

  function PartsOf(l: Layout): seq<Dir> {
    [DirFor(l, Dev), DirFor(l, Cowork), DirFor(l, NetDev)]
  }

  /** The directories a relocated session is looked for in, in that order. */
  function CandidateDirs(slugs: seq<string>): seq<Dir> {
    if slugs == [] then PartsOf(Global)
    else CandidateDirs(slugs[..|slugs| - 1]) + PartsOf(Project(slugs[|slugs| - 1]))
  }

  /** The first candidate directory that has an entry of this name. */
  function FindIn(d: Disk, dirs: seq<Dir>, name: string): Option<Path> {
    if dirs == [] then None
    else if Path(dirs[0], name) in d then Some(Path(dirs[0], name))
    else FindIn(d, dirs[1..], name)
  }

  /** What a tab's saved path becomes. */
  function Rewritten(d: Disk, dirs: seq<Dir>, tab: Option<Path>): Option<Path> {
    if tab.None? || tab.value in d || FindIn(d, dirs, tab.value.name).None? then tab
    else FindIn(d, dirs, tab.value.name)
  }

  lemma {:induction false} FindInFinds(d: Disk, dirs: seq<Dir>, name: string)
    ensures var r := FindIn(d, dirs, name);
            && (r.Some? ==> r.value in d && r.value.name == name && r.value.dir in dirs)
            && (r.None? ==> forall dir :: dir in dirs ==> Path(dir, name) !in d)
  {
    if dirs != [] && Path(dirs[0], name) !in d {
      FindInFinds(d, dirs[1..], name);
    }
  }

  lemma {:induction false} CandidatesAre(slugs: seq<string>, dir: Dir)
    ensures dir in CandidateDirs(slugs) <==>
            dir.GlobalSessions? || (dir.GlobalProfile? && dir.profile != Dev) || (dir.ProjectProfile? && dir.slug in slugs)
  {
    if slugs == [] {
      PartsAre(Global, dir);
    } else {
      var k := |slugs| - 1;
      CandidatesAre(slugs[..k], dir);
      PartsAre(Project(slugs[k]), dir);
      assert slugs == slugs[..k] + [slugs[k]];
    }
  }

  lemma PartsAre(l: Layout, dir: Dir)
    ensures dir in PartsOf(l) <==>
            match l
            case Global => dir.GlobalSessions? || (dir.GlobalProfile? && dir.profile != Dev)
            case Project(slug) => dir.ProjectProfile? && dir.slug == slug
  {
    if dir.GlobalProfile? || dir.ProjectProfile? {
      assert dir.profile == Dev || dir.profile == Cowork || dir.profile == NetDev;
    }
    assert PartsOf(l)[0] == DirFor(l, Dev) && PartsOf(l)[1] == DirFor(l, Cowork) && PartsOf(l)[2] == DirFor(l, NetDev);
  }

  /** No other entry of a session directory has the base name of p. */
  ghost predicate OnlyOfItsName(d: Disk, p: Path) {
    forall q :: q in d && q.name == p.name && !q.dir.Elsewhere? ==> q == p
  }

  lemma WhatStaysIsTheSame(start: Disk, end: Disk, p: Path)
    requires Conserved(start, end) && p in start && p in end
    ensures end[p] == start[p]
  {}

  /** The one entry found under the name is where the session went. */
  lemma FoundIsTheSession(start: Disk, end: Disk, p: Path, r: Path)
    requires Conserved(start, end) && p in start && OnlyOfItsName(start, p)
    requires r in end && r.name == p.name && !r.dir.Elsewhere?
    ensures end[r] == start[p]
  {
    var q := OriginOf(start, end, r);
    OnlyOrigin(start, p, q, r);
  }

  lemma OnlyOrigin(start: Disk, p: Path, q: Path, r: Path)
    requires OnlyOfItsName(start, p) && q in start && MayBeAt(start, q, r) && r.name == p.name && !r.dir.Elsewhere?
    ensures q == p
  {}

  lemma MovedToCandidate(start: Disk, end: Disk, slugs: seq<string>, p: Path) returns (h: Path)
    requires Conserved(start, end) && p in start && p !in end
    requires p.dir.ProjectSessions? ==> p.dir.slug in slugs
    ensures h in end && h == Path(h.dir, p.name) && h.dir in CandidateDirs(slugs)
  {
    h := NowAt(start, end, p);
    CandidatesAre(slugs, h.dir);
  }

  lemma MovedIsFound(start: Disk, end: Disk, slugs: seq<string>, p: Path) returns (r: Path)
    requires Conserved(start, end) && p in start && p !in end
    requires p.dir.ProjectSessions? ==> p.dir.slug in slugs
    ensures FindIn(end, CandidateDirs(slugs), p.name) == Some(r)
    ensures r in end && r.name == p.name && !r.dir.Elsewhere?
  {
    var h := MovedToCandidate(start, end, slugs, p);
    FindInFinds(end, CandidateDirs(slugs), p.name);
    r := FindIn(end, CandidateDirs(slugs), p.name).value;
    CandidatesAre(slugs, r.dir);
  }

  lemma RewrittenIfFound(end: Disk, dirs: seq<Dir>, p: Path, r: Path)
    requires p !in end && FindIn(end, dirs, p.name) == Some(r)
    ensures Rewritten(end, dirs, Some(p)) == Some(r)
  {}

  /** A path that is still valid is not changed. */
  lemma ValidTabIsKept(end: Disk, dirs: seq<Dir>, p: Path)
    requires p in end
    ensures Rewritten(end, dirs, Some(p)) == Some(p)
  {}

  /** A path that leads nowhere becomes that of the first candidate directory with an entry of its name, and stays
      if there is none; an empty path stays. */
  lemma LostTabIsLookedFor(end: Disk, dirs: seq<Dir>, p: Path, k: nat)
    requires p !in end && k <= |dirs| && forall j :: 0 <= j < k ==> Path(dirs[j], p.name) !in end
    ensures k < |dirs| && Path(dirs[k], p.name) in end ==> Rewritten(end, dirs, Some(p)) == Some(Path(dirs[k], p.name))
    ensures k == |dirs| ==> Rewritten(end, dirs, Some(p)) == Some(p)
    ensures Rewritten(end, dirs, None) == None
  {
    FirstFound(end, dirs, p.name, k);
  }

  lemma {:induction false} FirstFound(d: Disk, dirs: seq<Dir>, name: string, k: nat)
    requires k <= |dirs| && forall j :: 0 <= j < k ==> Path(dirs[j], name) !in d
    ensures k < |dirs| && Path(dirs[k], name) in d ==> FindIn(d, dirs, name) == Some(Path(dirs[k], name))
    ensures k == |dirs| ==> FindIn(d, dirs, name) == None
    decreases |dirs|
  {
    if k > 0 {
      FirstFound(d, dirs[1..], name, k - 1);
    }
  }

  /** The candidates: the global directories in the order dev, cowork, netdev, then those of each project. */
  lemma CandidatesInOrder(slugs: seq<string>, slug: string)
    ensures CandidateDirs([]) == [GlobalSessions, GlobalProfile(Cowork), GlobalProfile(NetDev)]
    ensures CandidateDirs(slugs + [slug]) ==
            CandidateDirs(slugs) + [ProjectProfile(slug, Dev), ProjectProfile(slug, Cowork), ProjectProfile(slug, NetDev)]
  {
    assert (slugs + [slug])[..|slugs|] == slugs;
  }

  /** Wherever the migration took it, a session whose base name is unique is found again: the rewritten path leads
      to what the old path led to. Renames may have failed; only conservation is needed. */
  lemma TabFollowsItsSession(start: Disk, end: Disk, slugs: seq<string>, p: Path) returns (r: Path)
    requires Conserved(start, end) && p in start && OnlyOfItsName(start, p)
    requires p.dir.ProjectSessions? ==> p.dir.slug in slugs
    ensures Rewritten(end, CandidateDirs(slugs), Some(p)) == Some(r) && r in end && end[r] == start[p]
    ensures p in end ==> r == p
  {
    var dirs := CandidateDirs(slugs);
    if p in end {
      WhatStaysIsTheSame(start, end, p);
      ValidTabIsKept(end, dirs, p);
      r := p;
    } else {
      r := MovedIsFound(start, end, slugs, p);
      FoundIsTheSession(start, end, p, r);
      RewrittenIfFound(end, dirs, p, r);
    }
  }
}
