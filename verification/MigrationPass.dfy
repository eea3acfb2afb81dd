/** The migration itself: the passes over the global sessions directory and over every project's, one rename at a
    time, and the repair of the saved tab paths. */
module MigrationPass {
  import opened SessionMoves
  import opened ProfileRouting
  import opened ProfileMigration
  import opened Wrappers

  // ---- moves that do not touch a path ----

  lemma {:induction false} UntouchedByRun(d: Disk, moves: seq<Move>, ok: nat -> bool, n: nat, q: Path)
    requires forall i :: 0 <= i < |moves| ==> moves[i].src != q && moves[i].dst != q
    ensures q in Run(d, moves, ok, n) <==> q in d
    ensures q in d ==> Run(d, moves, ok, n)[q] == d[q]
    decreases |moves|
  {
    if moves != [] {
      assert moves[0].src != q && moves[0].dst != q;
      UntouchedByRun(Moved(d, moves[0], ok(n)), moves[1..], ok, n + 1, q);
    }
  }

  /** While the first pass goes on, the .meta of a session that has not had its turn is still what it was. */
  lemma MetaIsUntouched(l: Layout, d: Disk, read: MetaReader, entries: seq<Entry>, k: nat, ok: nat -> bool, n: nat)
    requires DistinctNames(entries) && k < |entries| && IsSession(entries[k])
    ensures ProfileOf(Run(d, FirstPass(l, d, read, entries[..k]), ok, n), Flat(l), entries[k].name, read)
            == ProfileOf(d, Flat(l), entries[k].name, read)
  {
    var moves := FirstPass(l, d, read, entries[..k]);
    var s := entries[k].name;
    var meta := Path(Flat(l), s + ".meta");
    forall i | 0 <= i < |moves|
      ensures moves[i].src != meta && moves[i].dst != meta
    {
      FirstPassMoves(l, d, read, entries[..k], i);
      var j :| 0 <= j < k && IsSession(entries[..k][j]) && IsMoveOf(l, d, read, entries[..k][j].name, moves[i]);
      if moves[i].src.name == meta.name {
        assert Owns(s, meta.name);
        OneOwner(s, entries[j].name, meta.name);
        assert false;
      }
    }
    UntouchedByRun(d, moves, ok, n, meta);
  }

  // ---- one pass, as an object that renames ----

  class Migrator {
    const ok: nat -> bool    // which rename attempts succeed
    const read: MetaReader
    var nodes: Disk
    var attempts: nat

    constructor (nodes: Disk, ok: nat -> bool, read: MetaReader)
      ensures this.nodes == nodes && this.ok == ok && this.read == read && attempts == 0
    {
      this.nodes, this.ok, this.read, attempts := nodes, ok, read, 0;
    }

    method MovePathIfExistsExistingOK(src: Path, dst: Path)
      modifies this
      ensures nodes == Moved(old(nodes), Move(src, dst), ok(old(attempts))) && attempts == old(attempts) + 1
    {
      attempts := attempts + 1;
      if src !in nodes {
        return;
      }
      if dst in nodes {
        return;
      }
      if ok(attempts - 1) {
        nodes := (nodes - {src})[dst := nodes[src]];
      }
    }

    method ProfileForSession(dir: Dir, s: string) returns (profile: Profile)
      ensures profile == ProfileOf(nodes, dir, s, read)
    {
      var meta := Path(dir, s + ".meta");
      if meta !in nodes || nodes[meta].Folder? {
        return Dev;
      }
      return read(nodes[meta].content);
    }

    method MoveSessionWithCompanions(l: Layout, profile: Profile, s: string)
      requires IsSessionName(s)
      modifies this
      ensures nodes == Run(old(nodes), SessionMovesOf(l, profile, s), ok, old(attempts)) && attempts == old(attempts) + 4
    {
      ghost var all := SessionMovesOf(l, profile, s);
      MovePathIfExistsExistingOK(Path(Flat(l), s), Path(DirFor(l, profile), s));
      var companions := Companions(s);
      ghost var n := old(attempts);
      for i := 0 to |companions|
        invariant attempts == n + 1 + i
        invariant Run(nodes, all[i + 1..], ok, attempts) == Run(old(nodes), all, ok, n)
      {
        assert all[i + 1..][0] == MoveTo(l, profile, companions[i]) && all[i + 1..][1..] == all[i + 2..];
        MovePathIfExistsExistingOK(Path(Flat(l), companions[i]), Path(DirFor(l, profile), companions[i]));
      }
      assert all[4..] == [];
    }

    /** The first loop of a pass. */
    method MoveSessions(l: Layout, entries: seq<Entry>)
      requires DistinctNames(entries)
      modifies this
      ensures nodes == Run(old(nodes), FirstPass(l, old(nodes), read, entries), ok, old(attempts))
      ensures attempts == old(attempts) + |FirstPass(l, old(nodes), read, entries)|
    {
      ghost var start := nodes;
      for i := 0 to |entries|
        invariant nodes == Run(start, FirstPass(l, start, read, entries[..i]), ok, old(attempts))
        invariant attempts == old(attempts) + |FirstPass(l, start, read, entries[..i])|
      {
        ghost var before := FirstPass(l, start, read, entries[..i]);
        assert entries[..i + 1][..i] == entries[..i];
        if !entries[i].isDir && IsSessionName(entries[i].name) {
          MetaIsUntouched(l, start, read, entries, i, ok, old(attempts));
          var profile := ProfileForSession(Flat(l), entries[i].name);
          RunAppend(start, before, SessionMovesOf(l, profile, entries[i].name), ok, old(attempts));
          MoveSessionWithCompanions(l, profile, entries[i].name);
        } else {
          assert before + [] == before;
        }
      }
      assert entries[..|entries|] == entries;
    }

    /** The second loop of a pass. */
    method MoveLeftovers(l: Layout, entries: seq<Entry>)
      modifies this
      ensures nodes == Run(old(nodes), SecondPass(l, entries), ok, old(attempts))
      ensures attempts == old(attempts) + |SecondPass(l, entries)|
    {
      ghost var start := nodes;
      for i := 0 to |entries|
        invariant nodes == Run(start, SecondPass(l, entries[..i]), ok, old(attempts))
        invariant attempts == old(attempts) + |SecondPass(l, entries[..i])|
      {
        ghost var before := SecondPass(l, entries[..i]);
        var e := entries[i];
        assert entries[..i + 1][..i] == entries[..i];
        if e.isDir && IsProfileFolder(l, e.name) {
          assert before + [] == before;
          continue;
        }
        if !e.isDir && IsSessionName(e.name) {
          assert before + [] == before;
          continue;
        }
        RunAppend(start, before, [MoveTo(l, Dev, e.name)], ok, old(attempts));
        OneMove(nodes, MoveTo(l, Dev, e.name), ok, attempts);
        MovePathIfExistsExistingOK(Path(Flat(l), e.name), Path(DirFor(l, Dev), e.name));
      }
      assert entries[..|entries|] == entries;
    }

    /** migrateGlobalSessionsByProfile, and one round of migrateProjectSessionsByProfile: both loops over one
        listing that is not refreshed in between. */
    method MigrateSessions(l: Layout, entries: seq<Entry>)
      requires Listed(nodes, Flat(l), entries) && DistinctNames(entries)
      modifies this
      ensures nodes == Run(old(nodes), Plan(l, old(nodes), read, entries), ok, old(attempts))
      ensures attempts == old(attempts) + |Plan(l, old(nodes), read, entries)|
    {
      MoveSessions(l, entries);
      MoveLeftovers(l, entries);
      RunAppend(old(nodes), FirstPass(l, old(nodes), read, entries), SecondPass(l, entries), ok, old(attempts));
    }

    /** os.ReadDir: the entries of a directory, each once, in some order. */
    method ReadDir(dir: Dir) returns (entries: seq<Entry>)
      ensures Listed(nodes, dir, entries) && DistinctNames(entries)
    {
      var rest := set p | p in nodes && p.dir == dir;
      entries := [];
      while rest != {}
        invariant forall p :: p in rest ==> p in nodes && p.dir == dir
        invariant forall i :: 0 <= i < |entries| ==> Path(dir, entries[i].name) in nodes - rest
        invariant forall i :: 0 <= i < |entries| ==> (entries[i].isDir <==> nodes[Path(dir, entries[i].name)].Folder?)
        invariant forall p :: p in nodes && p.dir == dir && p !in rest ==> exists i :: 0 <= i < |entries| && entries[i].name == p.name
        invariant DistinctNames(entries)
      {
        var p :| p in rest;
        ghost var before := entries;
        entries := entries + [Entry(p.name, nodes[p].Folder?)];
        rest := rest - {p};
        forall q | q in nodes && q.dir == dir && q !in rest
          ensures exists i :: 0 <= i < |entries| && entries[i].name == q.name
        {
          if q == p {
            assert entries[|before|].name == q.name;
          } else {
            var i :| 0 <= i < |before| && before[i].name == q.name;
            assert entries[i].name == q.name;
          }
        }
      }
    }

    /** The global pass and then one for every project. */
    method MigrateAllSessions(layouts: seq<Layout>) returns (ghost disks: seq<Disk>)
      modifies this
      ensures Trail(layouts, disks, read, ok) && disks[0] == old(nodes) && disks[|layouts|] == nodes
    {
      disks := [nodes];
      for k := 0 to |layouts|
        invariant |disks| == k + 1 && disks[0] == old(nodes) && disks[k] == nodes
        invariant forall i :: 0 <= i < k ==> IsPass(layouts[i], disks[i], disks[i + 1], read, ok)
      {
        MigrateOne(layouts[k]);
        disks := disks + [nodes];
      }
    }

    method MigrateOne(l: Layout)
      modifies this
      ensures IsPass(l, old(nodes), nodes, read, ok)
    {
      var entries := ReadDir(Flat(l));
      ghost var n := attempts;
      MigrateSessions(l, entries);
      assert IsPassOver(l, old(nodes), nodes, read, ok, entries, n);
    }

    /** rewriteTabSessionPaths: a blank path is None. */
    method RewriteTabSessionPaths(tabs: array<Option<Path>>, slugs: seq<string>) returns (changed: bool)
      modifies tabs
      ensures forall i :: 0 <= i < tabs.Length ==> tabs[i] == Rewritten(nodes, CandidateDirs(slugs), old(tabs[i]))
      ensures changed <==> tabs[..] != old(tabs[..])
    {
      var dirs := CandidateDirs(slugs);
      changed := false;
      for i := 0 to tabs.Length
        invariant forall j :: 0 <= j < i ==> tabs[j] == Rewritten(nodes, dirs, old(tabs[j]))
        invariant forall j :: i <= j < tabs.Length ==> tabs[j] == old(tabs[j])
        invariant changed <==> exists j :: 0 <= j < i && tabs[j] != old(tabs[j])
      {
        if tabs[i].None? || tabs[i].value in nodes {
          continue;
        }
        var name := tabs[i].value.name;
        var found: Option<Path> := None;
        for c := 0 to |dirs|
          invariant found.None? && FindIn(nodes, dirs, name) == FindIn(nodes, dirs[c..], name)
        {
          if Path(dirs[c], name) in nodes {
            found := Some(Path(dirs[c], name));
            break;
          }
        }
        FindInFinds(nodes, dirs, name);
        if found.Some? {
          tabs[i] := found;
          changed := true;
        }
      }
    }
  }

  lemma OneMove(d: Disk, m: Move, ok: nat -> bool, n: nat)
    ensures Run(d, [m], ok, n) == Moved(d, m, ok(n))
  {
    assert [m][1..] == [];
    assert Run(Moved(d, m, ok(n)), [], ok, n + 1) == Moved(d, m, ok(n));
  }
}
