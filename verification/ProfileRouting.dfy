/** Which partition each entry of a sessions directory belongs in, and the moves that take it there. */
module ProfileRouting {
  import opened SessionMoves

  // ---- names ----

  predicate EndsWith(s: string, suffix: string) {
    |s| >= |suffix| && s[|s| - |suffix|..] == suffix
  }

  predicate IsSessionName(n: string) { EndsWith(n, ".jsonl") }

  function Stem(n: string): string
    requires IsSessionName(n)
  {
    n[..|n| - 6]
  }

  /** sessionCompanions. */
  function Companions(s: string): seq<string>
    requires IsSessionName(s)
  {
    [s + ".meta", Stem(s) + ".ckpt", s + ".telemetry.json"]
  }

  /** The session file itself or one of its companions. */
  predicate Owns(s: string, n: string) {
    IsSessionName(s) && (n == s || n in Companions(s))
  }

  lemma LastOf(a: string, b: string)
    requires b != ""
    ensures (a + b)[|a + b| - 1] == b[|b| - 1]
  {}

  lemma EndsAre(s: string)
    requires IsSessionName(s)
    ensures s[|s| - 1] == 'l'
    ensures (s + ".meta")[|s| + 4] == 'a' && (Stem(s) + ".ckpt")[|s| - 2] == 't' && (s + ".telemetry.json")[|s| + 14] == 'n'
  {
    assert s[|s| - 1] == s[|s| - 6..][5];
  }

  lemma SameFront(a: string, b: string, suffix: string)
    requires a + suffix == b + suffix
    ensures a == b
  {
    assert a == (a + suffix)[..|a|] && b == (b + suffix)[..|b|];
  }

  lemma SameStem(a: string, b: string)
    requires IsSessionName(a) && IsSessionName(b) && Stem(a) == Stem(b)
    ensures a == b
  {
    assert a == Stem(a) + ".jsonl" && b == Stem(b) + ".jsonl";
  }

  /** No entry belongs to two sessions, and a session is nobody's companion. */
  lemma OneOwner(s: string, t: string, n: string)
    requires Owns(s, n) && Owns(t, n)
    ensures s == t
  {
    EndsAre(s);
    EndsAre(t);
    if n[|n| - 1] == 'a' {
      SameFront(s, t, ".meta");
    } else if n[|n| - 1] == 't' {
      SameFront(Stem(s), Stem(t), ".ckpt");
      SameStem(s, t);
    } else if n[|n| - 1] == 'n' {
      SameFront(s, t, ".telemetry.json");
    }
  }

  // ---- layouts ----

  datatype Layout = Global | Project(slug: string)

  function Flat(l: Layout): Dir {
    match l
    case Global => GlobalSessions
    case Project(slug) => ProjectSessions(slug)
  }

  /** config.SessionDirFor gives the global dev profile the flat directory itself. */
  function DirFor(l: Layout, profile: Profile): Dir {
    match l
    case Global => if profile == Dev then GlobalSessions else GlobalProfile(profile)
    case Project(slug) => ProjectProfile(slug, profile)
  }

  /** The global pass leaves the profile folders alone; the project pass does not look for them. */
  predicate IsProfileFolder(l: Layout, name: string) {
    l.Global? && (name == "dev" || name == "cowork" || name == "netdev")
  }

  /** The profile a .meta file names: its JSON field trimmed and in lower case, dev unless that is cowork or
      netdev, and dev if the JSON is malformed. */
  type MetaReader = string -> Profile

  predicate SessionAt(d: Disk, dir: Dir, s: string) {
    IsSessionName(s) && Path(dir, s) in d && d[Path(dir, s)].File?
  }

  /** profileForSession. */
  function ProfileOf(d: Disk, dir: Dir, s: string, read: MetaReader): Profile {
    var meta := Path(dir, s + ".meta");
    if meta in d && d[meta].File? then read(d[meta].content) else Dev
  }

  // ---- where everything belongs ----

  ghost predicate HasOwner(d: Disk, dir: Dir, n: string) {
    exists s :: SessionAt(d, dir, s) && Owns(s, n)
  }

  ghost function Owner(d: Disk, dir: Dir, n: string): (s: string)
    requires HasOwner(d, dir, n)
    ensures SessionAt(d, dir, s) && Owns(s, n)
  {
    var s :| SessionAt(d, dir, s) && Owns(s, n); s
  }

  /** A session and its companions belong together where the session's .meta says; every other entry of the flat
      directory belongs in dev; nothing else moves. */
  ghost function Home(l: Layout, d: Disk, read: MetaReader, p: Path): Path {
    if p.dir != Flat(l) then p
    else if HasOwner(d, Flat(l), p.name) then Path(DirFor(l, ProfileOf(d, Flat(l), Owner(d, Flat(l), p.name), read)), p.name)
    else if p in d && d[p].Folder? && IsProfileFolder(l, p.name) then p
    else Path(DirFor(l, Dev), p.name)
  }

  lemma HomeOfOwned(l: Layout, d: Disk, read: MetaReader, s: string, p: Path)
    requires SessionAt(d, Flat(l), s) && Owns(s, p.name) && p.dir == Flat(l)
    ensures Home(l, d, read, p) == Path(DirFor(l, ProfileOf(d, Flat(l), s, read)), p.name)
  {
    OneOwner(s, Owner(d, Flat(l), p.name), p.name);
  }

  // ---- the moves of a pass ----

  datatype Entry = Entry(name: string, isDir: bool)

  /** os.ReadDir, in any order: every entry once. */
  ghost predicate Listed(d: Disk, dir: Dir, entries: seq<Entry>) {
    && (forall i :: 0 <= i < |entries| ==> Path(dir, entries[i].name) in d && (entries[i].isDir <==> d[Path(dir, entries[i].name)].Folder?))
    && (forall p :: p in d && p.dir == dir ==> exists i :: 0 <= i < |entries| && entries[i].name == p.name)
  }

  predicate DistinctNames(entries: seq<Entry>) {
    forall i, j :: 0 <= i < j < |entries| ==> entries[i].name != entries[j].name
  }

  predicate IsSession(e: Entry) { !e.isDir && IsSessionName(e.name) }

  function MoveTo(l: Layout, profile: Profile, n: string): Move {
    Move(Path(Flat(l), n), Path(DirFor(l, profile), n))
  }

  /** moveSessionWithCompanions. */
  function SessionMovesOf(l: Layout, profile: Profile, s: string): seq<Move>
    requires IsSessionName(s)
  {
    [MoveTo(l, profile, s), MoveTo(l, profile, s + ".meta"), MoveTo(l, profile, Stem(s) + ".ckpt"),
     MoveTo(l, profile, s + ".telemetry.json")]
  }

  /** The first pass: the sessions of the listing, with their companions. */
  function FirstPass(l: Layout, d: Disk, read: MetaReader, entries: seq<Entry>): seq<Move> {
    if entries == [] then []
    else
      var k := |entries| - 1;
      FirstPass(l, d, read, entries[..k]) +
      if IsSession(entries[k]) then SessionMovesOf(l, ProfileOf(d, Flat(l), entries[k].name, read), entries[k].name) else []
  }

  /** The second pass: what else the listing has. */
  function SecondPass(l: Layout, entries: seq<Entry>): seq<Move> {
    if entries == [] then []
    else
      var e := entries[|entries| - 1];
      SecondPass(l, entries[..|entries| - 1]) +
      if (e.isDir && IsProfileFolder(l, e.name)) || IsSession(e) then [] else [MoveTo(l, Dev, e.name)]
  }

  function Plan(l: Layout, d: Disk, read: MetaReader, entries: seq<Entry>): seq<Move> {
    FirstPass(l, d, read, entries) + SecondPass(l, entries)
  }

  lemma MoveToIsProper(l: Layout, profile: Profile, n: string)
    ensures Proper(MoveTo(l, profile, n))
  {}

  // ---- what the first pass moves ----

  /** Move i of the first pass belongs to a session of the listing. */
  lemma {:induction false} FirstPassMoves(l: Layout, d: Disk, read: MetaReader, entries: seq<Entry>, i: nat)
    requires i < |FirstPass(l, d, read, entries)|
    ensures exists j :: 0 <= j < |entries| && IsSession(entries[j])
              && IsMoveOf(l, d, read, entries[j].name, FirstPass(l, d, read, entries)[i])
  {
    var k := |entries| - 1;
    var before := FirstPass(l, d, read, entries[..k]);
    if i < |before| {
      FirstPassMoves(l, d, read, entries[..k], i);
      var j :| 0 <= j < k && IsSession(entries[..k][j]) && IsMoveOf(l, d, read, entries[..k][j].name, before[i]);
      assert entries[..k][j] == entries[j];
    } else {
      assert IsSession(entries[k]);
    }
  }

  /** A move of session s or of one of its companions, to where its .meta says. */
  predicate IsMoveOf(l: Layout, d: Disk, read: MetaReader, s: string, m: Move) {
    Owns(s, m.src.name) && m == MoveTo(l, ProfileOf(d, Flat(l), s, read), m.src.name)
  }

  lemma {:induction false} FirstPassHas(l: Layout, d: Disk, read: MetaReader, entries: seq<Entry>, j: nat, n: string)
    requires j < |entries| && IsSession(entries[j]) && Owns(entries[j].name, n)
    ensures HasMove(FirstPass(l, d, read, entries), Path(Flat(l), n))
  {
    var k := |entries| - 1;
    var before := FirstPass(l, d, read, entries[..k]);
    var all := FirstPass(l, d, read, entries);
    if j < k {
      assert entries[..k][j] == entries[j];
      FirstPassHas(l, d, read, entries[..k], j, n);
      var i :| 0 <= i < |before| && before[i].src == Path(Flat(l), n);
      assert all[i] == before[i];
    } else {
      var own := SessionMovesOf(l, ProfileOf(d, Flat(l), entries[k].name, read), entries[k].name);
      var i := MoveIn(l, ProfileOf(d, Flat(l), entries[k].name, read), entries[k].name, n);
      assert all[|before| + i] == own[i];
    }
  }

  lemma MoveIn(l: Layout, profile: Profile, s: string, n: string) returns (i: nat)
    requires Owns(s, n)
    ensures i < |SessionMovesOf(l, profile, s)| && SessionMovesOf(l, profile, s)[i].src == Path(Flat(l), n)
  {
    i := if n == s then 0 else if n == s + ".meta" then 1 else if n == Stem(s) + ".ckpt" then 2 else 3;
  }

  lemma {:induction false} SecondPassMoves(l: Layout, entries: seq<Entry>, i: nat)
    requires i < |SecondPass(l, entries)|
    ensures exists j :: 0 <= j < |entries| && Leftover(l, entries[j]) && SecondPass(l, entries)[i] == MoveTo(l, Dev, entries[j].name)
  {
    var k := |entries| - 1;
    var before := SecondPass(l, entries[..k]);
    if i < |before| {
      SecondPassMoves(l, entries[..k], i);
      var j :| 0 <= j < k && Leftover(l, entries[..k][j]) && before[i] == MoveTo(l, Dev, entries[..k][j].name);
      assert entries[..k][j] == entries[j];
    } else {
      assert Leftover(l, entries[k]);
    }
  }

  predicate Leftover(l: Layout, e: Entry) {
    !IsSession(e) && !(e.isDir && IsProfileFolder(l, e.name))
  }

  lemma {:induction false} SecondPassHas(l: Layout, entries: seq<Entry>, j: nat)
    requires j < |entries| && Leftover(l, entries[j])
    ensures HasMove(SecondPass(l, entries), Path(Flat(l), entries[j].name))
  {
    var k := |entries| - 1;
    var before := SecondPass(l, entries[..k]);
    if j < k {
      assert entries[..k][j] == entries[j];
      SecondPassHas(l, entries[..k], j);
      var i :| 0 <= i < |before| && before[i].src == Path(Flat(l), entries[j].name);
      assert SecondPass(l, entries)[i] == before[i];
    } else {
      assert SecondPass(l, entries)[|before|] == MoveTo(l, Dev, entries[k].name);
    }
  }

  lemma PlanIsProper(l: Layout, d: Disk, read: MetaReader, entries: seq<Entry>)
    ensures AllProper(Plan(l, d, read, entries))
  {
    var first := FirstPass(l, d, read, entries);
    forall i | 0 <= i < |Plan(l, d, read, entries)|
      ensures Proper(Plan(l, d, read, entries)[i])
    {
      if i < |first| {
        FirstPassMoves(l, d, read, entries, i);
        MoveToIsProper(l, ProfileOf(d, Flat(l), "", read), first[i].src.name);
      } else {
        SecondPassMoves(l, entries, i - |first|);
      }
    }
  }

  // ---- a pass in which nothing fails ----

  /** The first move of the plan takes every entry where it belongs. */
  lemma PlanLeadsHome(l: Layout, d: Disk, read: MetaReader, entries: seq<Entry>, p: Path)
    requires Listed(d, Flat(l), entries) && p in d
    ensures FirstDst(Plan(l, d, read, entries), p) == Home(l, d, read, p)
  {
    var first, second := FirstPass(l, d, read, entries), SecondPass(l, entries);
    FirstDstAppend(first, second, p);
    if p.dir != Flat(l) {
      NothingFromElsewhere(l, d, read, entries, p);
    } else if HasOwner(d, Flat(l), p.name) {
      OwnedLeadsHome(l, d, read, entries, p);
    } else {
      UnownedIsLeft(l, d, read, entries, p);
      RestLeadsHome(l, d, entries, p);
    }
  }

  lemma NothingFromElsewhere(l: Layout, d: Disk, read: MetaReader, entries: seq<Entry>, p: Path)
    requires p.dir != Flat(l)
    ensures FirstDst(FirstPass(l, d, read, entries), p) == p && FirstDst(SecondPass(l, entries), p) == p
    ensures !HasMove(FirstPass(l, d, read, entries), p)
  {
    var first, second := FirstPass(l, d, read, entries), SecondPass(l, entries);
    forall i | 0 <= i < |first|
      ensures first[i].src != p
    {
      FirstPassMoves(l, d, read, entries, i);
    }
    forall i | 0 <= i < |second|
      ensures second[i].src != p
    {
      SecondPassMoves(l, entries, i);
    }
    FirstDstOfOthers(first, p);
    FirstDstOfOthers(second, p);
  }

  lemma OwnedLeadsHome(l: Layout, d: Disk, read: MetaReader, entries: seq<Entry>, p: Path)
    requires Listed(d, Flat(l), entries) && p in d && p.dir == Flat(l) && HasOwner(d, Flat(l), p.name)
    ensures HasMove(FirstPass(l, d, read, entries), p)
    ensures FirstDst(FirstPass(l, d, read, entries), p) == Home(l, d, read, p)
  {
    var first := FirstPass(l, d, read, entries);
    var s := Owner(d, Flat(l), p.name);
    var j :| 0 <= j < |entries| && entries[j].name == Path(Flat(l), s).name;
    FirstPassHas(l, d, read, entries, j, p.name);
    FirstDstIsADst(first, p);
    var i :| 0 <= i < |first| && first[i].src == p && first[i].dst == FirstDst(first, p);
    FirstPassMoves(l, d, read, entries, i);
    var k :| 0 <= k < |entries| && IsSession(entries[k]) && IsMoveOf(l, d, read, entries[k].name, first[i]);
    OneOwner(s, entries[k].name, p.name);
  }

  lemma UnownedIsLeft(l: Layout, d: Disk, read: MetaReader, entries: seq<Entry>, p: Path)
    requires Listed(d, Flat(l), entries) && p.dir == Flat(l) && !HasOwner(d, Flat(l), p.name)
    ensures !HasMove(FirstPass(l, d, read, entries), p)
  {
    var first := FirstPass(l, d, read, entries);
    forall i | 0 <= i < |first|
      ensures first[i].src != p
    {
      FirstPassMoves(l, d, read, entries, i);
      var j :| 0 <= j < |entries| && IsSession(entries[j]) && IsMoveOf(l, d, read, entries[j].name, first[i]);
      assert SessionAt(d, Flat(l), entries[j].name);
    }
  }

  lemma RestLeadsHome(l: Layout, d: Disk, entries: seq<Entry>, p: Path)
    requires Listed(d, Flat(l), entries) && p in d && p.dir == Flat(l) && !HasOwner(d, Flat(l), p.name)
    ensures FirstDst(SecondPass(l, entries), p) ==
            if d[p].Folder? && IsProfileFolder(l, p.name) then p else Path(DirFor(l, Dev), p.name)
  {
    var second := SecondPass(l, entries);
    var j :| 0 <= j < |entries| && entries[j].name == p.name;
    if IsSession(entries[j]) {
      assert SessionAt(d, Flat(l), p.name) && Owns(p.name, p.name);
      assert false;
    }
    if HasMove(second, p) {
      FirstDstIsADst(second, p);
      var i :| 0 <= i < |second| && second[i].src == p && second[i].dst == FirstDst(second, p);
      SecondPassMoves(l, entries, i);
    } else {
      FirstDstOfOthers(second, p);
      if Leftover(l, entries[j]) {
        SecondPassHas(l, entries, j);
        assert false;
      }
    }
    if HasMove(second, p) {
      var i :| 0 <= i < |second| && second[i].src == p;
      SecondPassMoves(l, entries, i);
    }
  }

  /** Nothing is where an entry is to go. */
  ghost predicate DestinationsFree(l: Layout, d: Disk, read: MetaReader) {
    forall p :: p in d && Home(l, d, read, p) != p ==> Home(l, d, read, p) !in d
  }

  lemma HomeKeepsName(l: Layout, d: Disk, read: MetaReader, p: Path)
    ensures Home(l, d, read, p).name == p.name
    ensures p.dir != Flat(l) ==> Home(l, d, read, p) == p
  {}

  lemma PlanIsFree(l: Layout, d: Disk, read: MetaReader, entries: seq<Entry>)
    requires Listed(d, Flat(l), entries) && DestinationsFree(l, d, read)
    ensures Free(d, Plan(l, d, read, entries))
  {
    var plan := Plan(l, d, read, entries);
    forall p | p in d && FirstDst(plan, p) != p
      ensures FirstDst(plan, p) !in d
    {
      PlanLeadsHome(l, d, read, entries, p);
    }
    forall p, q | p in d && q in d && FirstDst(plan, p) == FirstDst(plan, q)
      ensures p == q
    {
      PlanLeadsHome(l, d, read, entries, p);
      PlanLeadsHome(l, d, read, entries, q);
      HomeKeepsName(l, d, read, p);
      HomeKeepsName(l, d, read, q);
    }
  }

  /** A move of the plan either is a self-move of the global dev profile or leaves the flat directory. */
  lemma MoveIsOf(l: Layout, d: Disk, read: MetaReader, entries: seq<Entry>, i: nat)
    requires i < |Plan(l, d, read, entries)|
    ensures var first := FirstPass(l, d, read, entries); var m := Plan(l, d, read, entries)[i];
            if i < |first| then exists s :: IsMoveOf(l, d, read, s, m) else m == MoveTo(l, Dev, m.src.name)
  {
    var first := FirstPass(l, d, read, entries);
    if i < |first| {
      FirstPassMoves(l, d, read, entries, i);
      var j :| 0 <= j < |entries| && IsSession(entries[j]) && IsMoveOf(l, d, read, entries[j].name, first[i]);
      assert first[i] == Plan(l, d, read, entries)[i];
    } else {
      SecondPassMoves(l, entries, i - |first|);
    }
  }

  lemma PlanIsSteady(l: Layout, d: Disk, read: MetaReader, entries: seq<Entry>)
    ensures Steady(Plan(l, d, read, entries))
  {
    var plan := Plan(l, d, read, entries);
    var first := FirstPass(l, d, read, entries);
    forall i, j | 0 <= i < j < |plan| && plan[i].src == plan[j].src && plan[i].dst == plan[i].src
      ensures plan[j].dst == plan[j].src
    {
      MoveIsOf(l, d, read, entries, i);
      MoveIsOf(l, d, read, entries, j);
      if j < |first| {
        var s :| IsMoveOf(l, d, read, s, plan[i]);
        var t :| IsMoveOf(l, d, read, t, plan[j]);
        OneOwner(s, t, plan[i].src.name);
      }
    }
  }

  /** If nothing fails and no destination is taken, a pass over any listing of the directory, in any order, puts
      every entry where it belongs and nothing else on the disk. */
  lemma CleanPassPutsAllHome(l: Layout, d: Disk, read: MetaReader, entries: seq<Entry>, ok: nat -> bool, n: nat)
    requires Listed(d, Flat(l), entries) && DestinationsFree(l, d, read) && forall i: nat :: ok(i)
    ensures Placed(d, Run(d, Plan(l, d, read, entries), ok, n), p => Home(l, d, read, p))
  {
    var plan := Plan(l, d, read, entries);
    PlanIsProper(l, d, read, entries);
    PlanIsSteady(l, d, read, entries);
    PlanIsFree(l, d, read, entries);
    CleanRunPlacesAll(d, plan, ok, n);
    forall p | p in d
      ensures FirstDst(plan, p) == Home(l, d, read, p)
    {
      PlanLeadsHome(l, d, read, entries, p);
    }
    SamePlaces(d, Run(d, plan, ok, n), p => FirstDst(plan, p), p => Home(l, d, read, p));
  }

  lemma SamePlaces(d: Disk, e: Disk, f: Path -> Path, g: Path -> Path)
    requires Placed(d, e, f) && forall p :: p in d ==> f(p) == g(p)
    ensures Placed(d, e, g)
  {
    forall q | q in e
      ensures exists p :: p in d && g(p) == q
    {
      var p :| p in d && f(p) == q;
      assert g(p) == q;
    }
  }

  // ---- once everything is where it belongs ----

  ghost predicate AllHome(l: Layout, d: Disk, read: MetaReader) {
    forall p :: p in d ==> Home(l, d, read, p) == p
  }

  lemma StillAtHome(l: Layout, d: Disk, e: Disk, read: MetaReader, q: Path)
    requires Placed(d, e, p => Home(l, d, read, p)) && q in e && q.dir == Flat(l)
    ensures q in d && Home(l, d, read, q) == q && d[q] == e[q]
  {
    var place: Path -> Path := p => Home(l, d, read, p);
    var p :| p in d && place(p) == q;
    HomeKeepsName(l, d, read, p);
  }

  /** A session that is still in the flat directory is a global one of the dev profile, and so it is read again. */
  lemma RemainingSessionIsDev(l: Layout, d: Disk, e: Disk, read: MetaReader, s: string)
    requires Placed(d, e, p => Home(l, d, read, p)) && SessionAt(e, Flat(l), s)
    ensures SessionAt(d, Flat(l), s) && l.Global? && ProfileOf(d, Flat(l), s, read) == Dev && ProfileOf(e, Flat(l), s, read) == Dev
  {
    StillAtHome(l, d, e, read, Path(Flat(l), s));
    HomeOfOwned(l, d, read, s, Path(Flat(l), s));
    var meta := Path(Flat(l), s + ".meta");
    HomeOfOwned(l, d, read, s, meta);
    if meta in e {
      StillAtHome(l, d, e, read, meta);
    }
  }

  lemma PassLeavesAllHome(l: Layout, d: Disk, e: Disk, read: MetaReader)
    requires Placed(d, e, p => Home(l, d, read, p))
    ensures AllHome(l, e, read)
  {
    forall q | q in e
      ensures Home(l, e, read, q) == q
    {
      if q.dir == Flat(l) {
        StillAtHome(l, d, e, read, q);
        RemainingEntryIsHome(l, d, e, read, q);
      }
    }
  }

  lemma RemainingEntryIsHome(l: Layout, d: Disk, e: Disk, read: MetaReader, q: Path)
    requires Placed(d, e, p => Home(l, d, read, p)) && q in e && q.dir == Flat(l)
    requires q in d && Home(l, d, read, q) == q && d[q] == e[q]
    ensures Home(l, e, read, q) == q
  {
    if HasOwner(e, Flat(l), q.name) {
      var s := Owner(e, Flat(l), q.name);
      RemainingSessionIsDev(l, d, e, read, s);
      HomeOfOwned(l, e, read, s, q);
    } else if HasOwner(d, Flat(l), q.name) {
      assert DirFor(l, Dev) == Flat(l) by {
        assert l.Global?;
      }
    }
  }

  /** If everything is where it belongs, a pass changes nothing, whatever it lists. */
  lemma PassIsIdle(l: Layout, d: Disk, read: MetaReader, entries: seq<Entry>, ok: nat -> bool, n: nat)
    requires AllHome(l, d, read) && Listed(d, Flat(l), entries)
    ensures Run(d, Plan(l, d, read, entries), ok, n) == d
  {
    var plan := Plan(l, d, read, entries);
    forall i | 0 <= i < |plan|
      ensures plan[i].dst == plan[i].src
    {
      PlannedMoveIsIdle(l, d, read, entries, i);
    }
    SelfMovesAreIdle(d, plan, ok, n);
  }

  lemma {:induction false} SelfMovesAreIdle(d: Disk, moves: seq<Move>, ok: nat -> bool, n: nat)
    requires forall i :: 0 <= i < |moves| ==> moves[i].dst == moves[i].src
    ensures Run(d, moves, ok, n) == d
    decreases |moves|
  {
    if moves != [] {
      assert Moved(d, moves[0], ok(n)) == d;
      SelfMovesAreIdle(d, moves[1..], ok, n + 1);
    }
  }

  lemma PlannedMoveIsIdle(l: Layout, d: Disk, read: MetaReader, entries: seq<Entry>, i: nat)
    requires AllHome(l, d, read) && Listed(d, Flat(l), entries) && i < |Plan(l, d, read, entries)|
    ensures Plan(l, d, read, entries)[i].dst == Plan(l, d, read, entries)[i].src
  {
    var first := FirstPass(l, d, read, entries);
    if i < |first| {
      FirstPassMoves(l, d, read, entries, i);
      var j :| 0 <= j < |entries| && IsSession(entries[j]) && IsMoveOf(l, d, read, entries[j].name, first[i]);
      HomeOfOwned(l, d, read, entries[j].name, Path(Flat(l), entries[j].name));
    } else {
      SecondPassMoves(l, entries, i - |first|);
      var j :| 0 <= j < |entries| && Leftover(l, entries[j]) && SecondPass(l, entries)[i - |first|] == MoveTo(l, Dev, entries[j].name);
      var p := Path(Flat(l), entries[j].name);
      assert Home(l, d, read, p) == p;
    }
  }

  // ---- interruptions ----

  /** If a pass is interrupted right after a session file was renamed, its .meta no longer has an owner in the flat
      directory: the next pass sends it to dev, away from its session, exactly if the session was not a dev one. */
  lemma InterruptionOrphansMeta(l: Layout, d: Disk, read: MetaReader, s: string)
    requires SessionAt(d, Flat(l), s) && Path(Flat(l), s + ".meta") in d && DestinationsFree(l, d, read)
    ensures var session, meta := Path(Flat(l), s), Path(Flat(l), s + ".meta");
            var profile := ProfileOf(d, Flat(l), s, read);
            var after := Moved(d, MoveTo(l, profile, s), true);
            && Home(l, d, read, meta).dir == Home(l, d, read, session).dir == DirFor(l, profile)
            && (Home(l, after, read, meta).dir == DirFor(l, profile) <==> profile == Dev)
  {
    var session, meta := Path(Flat(l), s), Path(Flat(l), s + ".meta");
    var profile := ProfileOf(d, Flat(l), s, read);
    var after := Moved(d, MoveTo(l, profile, s), true);
    HomeOfOwned(l, d, read, s, session);
    HomeOfOwned(l, d, read, s, meta);
    if DirFor(l, profile) != Flat(l) {
      forall t | SessionAt(after, Flat(l), t) && Owns(t, meta.name)
        ensures false
      {
        OneOwner(s, t, meta.name);
      }
      assert !HasOwner(after, Flat(l), meta.name);
    } else {
      assert after == d;
    }
  }
}
