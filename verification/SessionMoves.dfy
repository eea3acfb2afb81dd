/** Moving session files between directories, one rename at a time, each of which may fail. */
module SessionMoves {

  datatype Profile = Dev | Cowork | NetDev

  /** <userDir>/sessions, sessions/<profile>, projects/<slug>/sessions, projects/<slug>/<profile>/sessions, and
      the rest of the disk. */
  datatype Dir =
    | GlobalSessions
    | GlobalProfile(profile: Profile)
    | ProjectSessions(slug: string)
    | ProjectProfile(slug: string, profile: Profile)
    | Elsewhere(place: string)

  datatype Path = Path(dir: Dir, name: string)

  /** A folder moves as a whole; its content is not looked into. */
  datatype Node = File(content: string) | Folder(content: string)

  type Disk = map<Path, Node>

  datatype Move = Move(src: Path, dst: Path)

  /** The directories that are being emptied. */
  predicate IsFlat(d: Dir) { d.GlobalSessions? || d.ProjectSessions? }

  /** Directory part is one of the profile directories that flat directory d is divided into. The global dev
      profile keeps the flat directory. */
  predicate PartOf(part: Dir, d: Dir) {
    || (d.GlobalSessions? && part.GlobalProfile? && part.profile != Dev)
    || (d.ProjectSessions? && part.ProjectProfile? && part.slug == d.slug)
  }

  /** movePathIfExistsExistingOK: ok says whether the rename, if it comes to one, succeeds. */
  function Moved(d: Disk, m: Move, ok: bool): Disk {
    if m.src in d && m.dst !in d && ok then (d - {m.src})[m.dst := d[m.src]] else d
  }

  /** A series of moves; ok says which attempts succeed, the first one being number n. */
  function Run(d: Disk, moves: seq<Move>, ok: nat -> bool, n: nat): Disk
    decreases |moves|
  {
    if moves == [] then d else Run(Moved(d, moves[0], ok(n)), moves[1..], ok, n + 1)
  }

  lemma {:induction false} RunAppend(d: Disk, moves: seq<Move>, more: seq<Move>, ok: nat -> bool, n: nat)
    ensures Run(d, moves + more, ok, n) == Run(Run(d, moves, ok, n), more, ok, n + |moves|)
    decreases |moves|
  {
    if moves == [] {
      assert moves + more == more;
    } else {
      assert (moves + more)[0] == moves[0] && (moves + more)[1..] == moves[1..] + more;
      RunAppend(Moved(d, moves[0], ok(n)), moves[1..], more, ok, n + 1);
    }
  }

  /** The migration's moves take entries out of a flat directory under the same name, or leave them there. */
  predicate Proper(m: Move) {
    IsFlat(m.src.dir) && m.dst.name == m.src.name && (m.dst == m.src || PartOf(m.dst.dir, m.src.dir))
  }

  predicate AllProper(moves: seq<Move>) {
    forall i :: 0 <= i < |moves| ==> Proper(moves[i])
  }

  // ---- conservation ----

  /** What was at p is now at q: it stayed, or it left a flat directory for a place in a part of it where nothing
      was. */
  predicate MayBeAt(a: Disk, p: Path, q: Path) {
    q == p || (q !in a && PartOf(q.dir, p.dir) && q.name == p.name)
  }

  /** Disk b holds exactly the entries of disk a: home says where each of them is, origin where it was. */
  ghost predicate Rearranged(a: Disk, b: Disk, home: map<Path, Path>, origin: map<Path, Path>) {
    && (forall p :: p in a ==> p in home && home[p] in b && home[p] in origin && origin[home[p]] == p)
    && (forall q :: q in b ==> q in origin && origin[q] in a && origin[q] in home && home[origin[q]] == q)
    && (forall q :: q in b ==> b[q] == a[origin[q]] && MayBeAt(a, origin[q], q))
  }

  /** No entry is lost, duplicated, changed or overwritten. */
  ghost predicate Conserved(a: Disk, b: Disk) {
    exists home, origin :: Rearranged(a, b, home, origin)
  }

  lemma StartsConserved(a: Disk)
    ensures Conserved(a, a)
  {
    var home := map p | p in a :: p;
    assert Rearranged(a, a, home, home);
  }

  lemma OriginOf(a: Disk, b: Disk, q: Path) returns (p: Path)
    requires Conserved(a, b) && q in b
    ensures p in a && b[q] == a[p] && MayBeAt(a, p, q)
  {
    var home, origin :| Rearranged(a, b, home, origin);
    p := origin[q];
  }

  lemma NowAt(a: Disk, b: Disk, p: Path) returns (q: Path)
    requires Conserved(a, b) && p in a
    ensures q in b && b[q] == a[p] && MayBeAt(a, p, q)
  {
    var home, origin :| Rearranged(a, b, home, origin);
    q := home[p];
  }

  /** What was outside the flat directories at first is still there. */
  lemma OutsideStays(a: Disk, b: Disk, q: Path)
    requires Conserved(a, b) && !IsFlat(q.dir) && q in a
    ensures q in b
  {
    var q1 := NowAt(a, b, q);
  }

  lemma MoveRearranges(a: Disk, b: Disk, home: map<Path, Path>, origin: map<Path, Path>, m: Move)
    requires Rearranged(a, b, home, origin) && Proper(m) && m.src in b && m.dst !in b && m.dst !in a
    ensures Rearranged(a, Moved(b, m, true), home[m.src := m.dst], (origin - {m.src})[m.dst := m.src])
  {
    assert MayBeAt(a, origin[m.src], m.src);
    assert origin[m.src] == m.src;
  }

  lemma MoveConserves(a: Disk, b: Disk, m: Move, ok: bool)
    requires Conserved(a, b) && Proper(m)
    ensures Conserved(a, Moved(b, m, ok))
  {
    if m.src in b && m.dst !in b && ok {
      DestinationWasFree(a, b, m);
      var home, origin :| Rearranged(a, b, home, origin);
      MoveRearranges(a, b, home, origin, m);
      RearrangedConserves(a, Moved(b, m, true), home[m.src := m.dst], (origin - {m.src})[m.dst := m.src]);
    }
  }

  lemma RearrangedConserves(a: Disk, b: Disk, home: map<Path, Path>, origin: map<Path, Path>)
    requires Rearranged(a, b, home, origin)
    ensures Conserved(a, b)
  {}

  lemma DestinationWasFree(a: Disk, b: Disk, m: Move)
    requires Conserved(a, b) && Proper(m) && m.src in b && m.dst !in b
    ensures m.dst !in a
  {
    if m.dst in a {
      OutsideStays(a, b, m.dst);
      assert false;
    }
  }

  lemma RestIsProper(moves: seq<Move>)
    requires moves != [] && AllProper(moves)
    ensures AllProper(moves[1..])
  {
    forall i | 0 <= i < |moves[1..]|
      ensures Proper(moves[1..][i])
    {
      assert moves[1..][i] == moves[i + 1];
    }
  }

  /** Whatever fails, and wherever the series is interrupted, the disk holds the same entries: none is lost,
      doubled or changed, and nothing that was at a destination before is overwritten. */
  lemma {:induction false} EveryStateConserves(a: Disk, b: Disk, moves: seq<Move>, ok: nat -> bool, n: nat)
    requires AllProper(moves) && Conserved(a, b)
    ensures Conserved(a, Run(b, moves, ok, n))
    decreases |moves|
  {
    if moves != [] {
      assert Proper(moves[0]);
      MoveConserves(a, b, moves[0], ok(n));
      RestIsProper(moves);
      EveryStateConserves(a, Moved(b, moves[0], ok(n)), moves[1..], ok, n + 1);
    }
  }

  // ---- a series in which nothing fails ----

  /** Where the first move of an entry takes it. */
  function FirstDst(moves: seq<Move>, p: Path): Path {
    if moves == [] then p else if moves[0].src == p then moves[0].dst else FirstDst(moves[1..], p)
  }

  predicate HasMove(moves: seq<Move>, p: Path) {
    exists i :: 0 <= i < |moves| && moves[i].src == p
  }

  /** A flat entry that is left where it is by one move is left there by all. */
  predicate Steady(moves: seq<Move>) {
    forall i, j :: 0 <= i < j < |moves| && moves[i].src == moves[j].src && moves[i].dst == moves[i].src ==> moves[j].dst == moves[j].src
  }

  /** Every entry's first destination is free, and entries do not compete for one. */
  predicate Free(d: Disk, moves: seq<Move>) {
    && (forall p :: p in d && FirstDst(moves, p) != p ==> FirstDst(moves, p) !in d)
    && (forall p, q :: p in d && q in d && FirstDst(moves, p) == FirstDst(moves, q) ==> p == q)
  }

  /** Disk b holds the entries of disk a, each at its place. */
  ghost predicate Placed(a: Disk, b: Disk, place: Path -> Path) {
    && (forall p :: p in a ==> place(p) in b && b[place(p)] == a[p])
    && (forall q :: q in b ==> exists p :: p in a && place(p) == q)
  }

  lemma {:induction false} FirstDstOfOthers(moves: seq<Move>, p: Path)
    requires !HasMove(moves, p)
    ensures FirstDst(moves, p) == p
  {
    if moves != [] {
      assert moves[0].src != p;
      forall i | 0 <= i < |moves[1..]|
        ensures moves[1..][i].src != p
      {
        assert moves[i + 1].src != p;
      }
      FirstDstOfOthers(moves[1..], p);
    }
  }

  lemma {:induction false} FirstDstIsADst(moves: seq<Move>, p: Path)
    requires HasMove(moves, p)
    ensures exists i :: 0 <= i < |moves| && moves[i].src == p && moves[i].dst == FirstDst(moves, p)
  {
    if moves[0].src != p {
      var i :| 0 <= i < |moves| && moves[i].src == p;
      assert moves[1..][i - 1].src == p;
      FirstDstIsADst(moves[1..], p);
      var k :| 0 <= k < |moves[1..]| && moves[1..][k].src == p && moves[1..][k].dst == FirstDst(moves[1..], p);
      assert moves[k + 1].src == p;
    }
  }

  lemma {:induction false} FirstDstAppend(moves: seq<Move>, more: seq<Move>, p: Path)
    ensures FirstDst(moves + more, p) == if HasMove(moves, p) then FirstDst(moves, p) else FirstDst(more, p)
  {
    if moves == [] {
      assert moves + more == more;
    } else {
      assert (moves + more)[0] == moves[0] && (moves + more)[1..] == moves[1..] + more;
      FirstDstAppend(moves[1..], more, p);
      if HasMove(moves, p) && moves[0].src != p {
        var i :| 0 <= i < |moves| && moves[i].src == p;
        assert moves[1..][i - 1].src == p;
      }
      if HasMove(moves[1..], p) {
        var i :| 0 <= i < |moves[1..]| && moves[1..][i].src == p;
        assert moves[i + 1].src == p;
      }
    }
  }

  /** If nothing fails and the destinations are free, every entry ends where its first move takes it. */
  lemma {:induction false} CleanRunPlacesAll(d: Disk, moves: seq<Move>, ok: nat -> bool, n: nat)
    requires AllProper(moves) && Steady(moves) && Free(d, moves) && forall i: nat :: ok(i)
    ensures Placed(d, Run(d, moves, ok, n), p => FirstDst(moves, p))
    decreases |moves|
  {
    if moves != [] {
      var m := moves[0];
      var e := Moved(d, m, ok(n));
      FirstMoveLeavesFree(d, moves);
      CleanRunPlacesAll(e, moves[1..], ok, n + 1);
      PlacedThrough(d, moves, e, Run(e, moves[1..], ok, n + 1));
    }
  }

  lemma NoMoveFromOutside(moves: seq<Move>, p: Path)
    requires AllProper(moves) && !IsFlat(p.dir)
    ensures FirstDst(moves, p) == p
  {
    forall i | 0 <= i < |moves|
      ensures moves[i].src != p
    {
      assert Proper(moves[i]);
    }
    FirstDstOfOthers(moves, p);
  }

  /** What the rest of the series does with an entry after the first move. */
  lemma RestMoves(d: Disk, moves: seq<Move>, p: Path)
    requires moves != [] && AllProper(moves) && Steady(moves) && Free(d, moves) && p in d
    ensures var m := moves[0];
            && Moved(d, m, true).Keys == (if m.src in d then d.Keys - {m.src} + {m.dst} else d.Keys)
            && FirstDst(moves[1..], if p == m.src then m.dst else p) == FirstDst(moves, p)
  {
    var m := moves[0];
    assert Proper(m);
    if p == m.src {
      assert FirstDst(moves, p) == m.dst;
      if m.dst == m.src {
        StaysPut(moves, p);
      } else {
        NoMoveFromOutside(moves[1..], m.dst);
      }
    }
    if m.src in d && m.dst != m.src {
      assert FirstDst(moves, m.src) == m.dst;
    }
  }

  lemma StaysPut(moves: seq<Move>, p: Path)
    requires moves != [] && Steady(moves) && moves[0].src == p && moves[0].dst == p
    ensures FirstDst(moves[1..], p) == p
  {
    var rest := moves[1..];
    if HasMove(rest, p) {
      FirstDstIsADst(rest, p);
      var i :| 0 <= i < |rest| && rest[i].src == p && rest[i].dst == FirstDst(rest, p);
      assert moves[i + 1] == rest[i];
    } else {
      FirstDstOfOthers(rest, p);
    }
  }

  lemma FirstMoveLeavesFree(d: Disk, moves: seq<Move>)
    requires moves != [] && AllProper(moves) && Steady(moves) && Free(d, moves)
    ensures AllProper(moves[1..]) && Steady(moves[1..]) && Free(Moved(d, moves[0], true), moves[1..])
  {
    var m := moves[0];
    var e := Moved(d, m, true);
    var rest := moves[1..];
    RestIsProper(moves);
    assert Steady(rest) by {
      forall i, j | 0 <= i < j < |rest| && rest[i].src == rest[j].src && rest[i].dst == rest[i].src
        ensures rest[j].dst == rest[j].src
      {
        assert rest[i] == moves[i + 1] && rest[j] == moves[j + 1];
      }
    }
    forall p | p in e
      ensures exists p0 :: p0 in d && Now(m, p0) == p && FirstDst(rest, p) == FirstDst(moves, p0)
    {
      var p0 := if p == m.dst && m.src in d then m.src else p;
      RestMoves(d, moves, p0);
      assert Now(m, p0) == p;
    }
    RestIsFree(d, moves, e);
  }

  /** Where an entry is after one successful move. */
  function Now(m: Move, p: Path): Path {
    if p == m.src then m.dst else p
  }

  lemma RestIsFree(d: Disk, moves: seq<Move>, e: Disk)
    requires moves != [] && AllProper(moves) && Free(d, moves) && e == Moved(d, moves[0], true)
    requires forall p :: p in e ==>
               exists p0 :: p0 in d && Now(moves[0], p0) == p && FirstDst(moves[1..], p) == FirstDst(moves, p0)
    ensures Free(e, moves[1..])
  {
    var m := moves[0];
    var rest := moves[1..];
    forall p | p in e && FirstDst(rest, p) != p
      ensures FirstDst(rest, p) !in e
    {
      var p0 :| p0 in d && Now(m, p0) == p && FirstDst(rest, p) == FirstDst(moves, p0);
      assert p0 != m.src;
      assert m.src in d ==> FirstDst(moves, m.src) == m.dst;
    }
    forall p, q | p in e && q in e && FirstDst(rest, p) == FirstDst(rest, q)
      ensures p == q
    {
      var p0 :| p0 in d && Now(m, p0) == p && FirstDst(rest, p) == FirstDst(moves, p0);
      var q0 :| q0 in d && Now(m, q0) == q && FirstDst(rest, q) == FirstDst(moves, q0);
      assert p0 == q0;
    }
  }

  lemma PlacedThrough(d: Disk, moves: seq<Move>, e: Disk, end: Disk)
    requires moves != [] && AllProper(moves) && Steady(moves) && Free(d, moves) && e == Moved(d, moves[0], true)
    requires Placed(e, end, p => FirstDst(moves[1..], p))
    ensures Placed(d, end, p => FirstDst(moves, p))
  {
    forall p | p in d
      ensures FirstDst(moves, p) in end && end[FirstDst(moves, p)] == d[p]
    {
      RestMoves(d, moves, p);
      EntryIsNow(d, moves[0], p);
      LandsAt(e, end, moves[1..], Now(moves[0], p));
    }
    forall q | q in end
      ensures exists p :: p in d && FirstDst(moves, p) == q
    {
      var p := CameThrough(d, moves, e, end, q);
    }
  }

  lemma CameThrough(d: Disk, moves: seq<Move>, e: Disk, end: Disk, q: Path) returns (p: Path)
    requires moves != [] && AllProper(moves) && Steady(moves) && Free(d, moves) && e == Moved(d, moves[0], true)
    requires Placed(e, end, x => FirstDst(moves[1..], x)) && q in end
    ensures p in d && FirstDst(moves, p) == q
  {
    var m := moves[0];
    var p1 := CameFrom(e, end, moves[1..], q);
    p := if p1 == m.dst && m.src in d then m.src else p1;
    RestMoves(d, moves, p);
  }

  lemma EntryIsNow(d: Disk, m: Move, p: Path)
    requires p in d && (m.src in d && m.dst != m.src ==> m.dst !in d)
    ensures Now(m, p) in Moved(d, m, true) && Moved(d, m, true)[Now(m, p)] == d[p]
  {}

  lemma LandsAt(e: Disk, end: Disk, moves: seq<Move>, p: Path)
    requires Placed(e, end, x => FirstDst(moves, x)) && p in e
    ensures FirstDst(moves, p) in end && end[FirstDst(moves, p)] == e[p]
  {}

  lemma CameFrom(e: Disk, end: Disk, moves: seq<Move>, q: Path) returns (p: Path)
    requires Placed(e, end, x => FirstDst(moves, x)) && q in end
    ensures p in e && FirstDst(moves, p) == q
  {
    var place: Path -> Path := x => FirstDst(moves, x);
    p :| p in e && place(p) == q;
  }

  lemma ComposePlaces(d: Disk, mid: Disk, e: Disk, f: Path -> Path, g: Path -> Path, h: Path -> Path)
    requires Placed(d, mid, f) && Placed(mid, e, g) && forall p :: p in d ==> g(f(p)) == h(p)
    ensures Placed(d, e, h)
  {
    forall p | p in d
      ensures h(p) in e && e[h(p)] == d[p]
    {
      assert f(p) in mid && g(f(p)) in e;
    }
    forall q | q in e
      ensures exists p :: p in d && h(p) == q
    {
      var r :| r in mid && g(r) == q;
      var p :| p in d && f(p) == r;
      assert h(p) == q;
    }
  }
}
