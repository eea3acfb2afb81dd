/** The key under which a workspace root's plugin host is shared: filepath.Clean, then filepath.Abs, on paths
    that are separated by '/'. */
module HostRoot {
  import opened Text

  /** filepath.IsAbs. */
  predicate Rooted(p: string) {
    p != "" && p[0] == '/'
  }

  function Parts(p: string): seq<string> {
    Split(p, '/')
  }

  /** The elements that filepath.Clean keeps: `out` is what it has kept so far. */
  function Kept(rooted: bool, out: seq<string>, parts: seq<string>): seq<string>
    decreases |parts|
  {
    if parts == [] then out
    else if parts[0] == "" || parts[0] == "." then Kept(rooted, out, parts[1..])
    else if parts[0] != ".." then Kept(rooted, out + [parts[0]], parts[1..])
    else if out != [] && out[|out| - 1] != ".." then Kept(rooted, out[..|out| - 1], parts[1..])
    else if rooted then Kept(rooted, out, parts[1..])
    else Kept(rooted, out + [".."], parts[1..])
  }

  /** filepath.Clean. */
  function Clean(p: string): string {
    var out := Kept(Rooted(p), [], Parts(p));
    if Rooted(p) then "/" + Join(out, '/') else if out == [] then "." else Join(out, '/')
  }

  /** filepath.Abs in the working directory wd. */
  function Abs(wd: string, p: string): string {
    if Rooted(p) then Clean(p) else Clean(wd + "/" + p)
  }

  /** normalizeSharedHostRoot. */
  function NormalizeSharedHostRoot(wd: string, root: string): string {
    Abs(wd, Clean(root))
  }

  // ---- the directory that a path leads to ----

  /** Going one element down, up or nowhere; above the top is the top. */
  function Go(dir: seq<string>, part: string): seq<string> {
    if part == "" || part == "." then dir
    else if part != ".." then dir + [part]
    else if dir == [] then [] else dir[..|dir| - 1]
  }

  function Walk(dir: seq<string>, parts: seq<string>): seq<string>
    decreases |parts|
  {
    if parts == [] then dir else Walk(Go(dir, parts[0]), parts[1..])
  }

  function DirOf(wd: string, p: string): seq<string> {
    Walk(if Rooted(p) then [] else Walk([], Parts(wd)), Parts(p))
  }

  lemma {:induction false} WalkConcat(dir: seq<string>, a: seq<string>, b: seq<string>)
    ensures Walk(dir, a + b) == Walk(Walk(dir, a), b)
    decreases |a|
  {
    if a == [] {
      assert a + b == b;
    } else {
      assert (a + b)[1..] == a[1..] + b;
      WalkConcat(Go(dir, a[0]), a[1..], b);
    }
  }

  // ---- what Clean keeps ----

  predicate Element(part: string) {
    part != "" && part != "." && '/' !in part
  }

  predicate Name(part: string) {
    Element(part) && part != ".."
  }

  lemma {:induction false} KeptAreElements(rooted: bool, out: seq<string>, parts: seq<string>)
    requires forall x :: x in out ==> Element(x)
    requires forall x :: x in parts ==> '/' !in x
    ensures forall x :: x in Kept(rooted, out, parts) ==> Element(x)
    decreases |parts|
  {
    if parts != [] {
      assert parts[0] in parts;
      if parts[0] == "" || parts[0] == "." {
        KeptAreElements(rooted, out, parts[1..]);
      } else if parts[0] != ".." {
        KeptAreElements(rooted, out + [parts[0]], parts[1..]);
      } else if out != [] && out[|out| - 1] != ".." {
        KeptAreElements(rooted, out[..|out| - 1], parts[1..]);
      } else if rooted {
        KeptAreElements(rooted, out, parts[1..]);
      } else {
        KeptAreElements(rooted, out + [".."], parts[1..]);
      }
    }
  }

  /** What is kept leads where the whole path led, from every directory. */
  lemma {:induction false} KeptLeadsThere(dir: seq<string>, out: seq<string>, parts: seq<string>)
    requires forall x :: x in out ==> Element(x)
    requires forall x :: x in parts ==> '/' !in x
    ensures Walk(dir, Kept(false, out, parts)) == Walk(Walk(dir, out), parts)
    decreases |parts|
  {
    if parts != [] {
      var x, rest := parts[0], parts[1..];
      assert x in parts;
      if x == "" || x == "." {
        KeptLeadsThere(dir, out, rest);
      } else if x == ".." && out != [] && out[|out| - 1] != ".." {
        var front, last := out[..|out| - 1], out[|out| - 1];
        assert out == front + [last] && last in out;
        OneMore(dir, front, last);
        assert (Walk(dir, front) + [last])[..|Walk(dir, front)|] == Walk(dir, front);
        KeptLeadsThere(dir, front, rest);
      } else {
        OneMore(dir, out, x);
        KeptLeadsThere(dir, out + [x], rest);
      }
    }
  }

  lemma OneMore(dir: seq<string>, out: seq<string>, x: string)
    ensures Walk(dir, out + [x]) == Go(Walk(dir, out), x)
  {
    WalkConcat(dir, out, [x]);
    assert [x][1..] == [];
  }

  /** From the top, cleaning is walking. */
  lemma {:induction false} KeptIsWalked(out: seq<string>, parts: seq<string>)
    requires forall x :: x in out ==> Name(x)
    requires forall x :: x in parts ==> '/' !in x
    ensures Kept(true, out, parts) == Walk(out, parts)
    ensures forall x :: x in Walk(out, parts) ==> Name(x)
    decreases |parts|
  {
    if parts != [] {
      assert parts[0] in parts;
      assert out != [] ==> out[|out| - 1] in out;
      KeptIsWalked(Go(out, parts[0]), parts[1..]);
    }
  }

  lemma {:induction false} NamesLeadDown(dir: seq<string>, names: seq<string>)
    requires forall x :: x in names ==> Name(x)
    ensures Walk(dir, names) == dir + names
    decreases |names|
  {
    if names != [] {
      assert names[0] in names;
      NamesLeadDown(dir + [names[0]], names[1..]);
    }
  }

  // ---- the normalised root ----

  ghost function Spelled(dir: seq<string>): string {
    "/" + Join(dir, '/')
  }

  lemma PartsHaveNoSlash(p: string)
    ensures forall x :: x in Parts(p) ==> '/' !in x
  {}

  lemma PartsOfRooted(p: string)
    ensures Parts("/" + p) == [""] + Parts(p)
  {
    SplitInFront('/', p, '/');
  }

  lemma PartsOfJoin(dir: seq<string>, elements: seq<string>)
    requires forall x :: x in elements ==> Element(x)
    ensures Walk(dir, Parts(Join(elements, '/'))) == Walk(dir, elements)
  {
    if elements == [] {
      assert Parts("") == [""];
      assert [""][1..] == [];
    } else {
      assert forall i :: 0 <= i < |elements| ==> elements[i] in elements;
      SplitJoin(elements, '/');
    }
  }

  lemma CleanRooted(p: string)
    requires Rooted(p)
    ensures Clean(p) == Spelled(Walk([], Parts(p))) && Rooted(Clean(p))
    ensures forall x :: x in Walk([], Parts(p)) ==> Name(x)
  {
    PartsHaveNoSlash(p);
    KeptIsWalked([], Parts(p));
  }

  /** Cleaning a relative path keeps it relative and leads to the same place. */
  lemma CleanRelative(dir: seq<string>, p: string)
    requires !Rooted(p)
    ensures !Rooted(Clean(p)) && Walk(dir, Parts(Clean(p))) == Walk(dir, Parts(p))
  {
    var out := Kept(false, [], Parts(p));
    PartsHaveNoSlash(p);
    KeptAreElements(false, [], Parts(p));
    KeptLeadsThere(dir, [], Parts(p));
    if out == [] {
      SplitLine(".", '/');
      assert ["."][1..] == [];
    } else {
      assert out[0] in out;
      assert Join(out, '/')[0] == out[0][0];
      PartsOfJoin(dir, out);
    }
  }

  lemma SpelledLeadsThere(dir: seq<string>)
    requires forall x :: x in dir ==> Name(x)
    ensures Rooted(Spelled(dir)) && Walk([], Parts(Spelled(dir))) == dir
  {
    PartsOfRooted(Join(dir, '/'));
    WalkConcat([], [""], Parts(Join(dir, '/')));
    PartsOfJoin([], dir);
    NamesLeadDown([], dir);
    assert [""][1..] == [];
  }

  /** The key of a root spells out the directory the root leads to: that is what cleaning and making absolute,
      in this order, come to. */
  lemma KeySpellsTheDirectory(wd: string, root: string)
    requires Rooted(wd)
    ensures NormalizeSharedHostRoot(wd, root) == Spelled(DirOf(wd, root))
    ensures forall x :: x in DirOf(wd, root) ==> Name(x)
  {
    var c := Clean(root);
    if Rooted(root) {
      CleanRooted(root);
      SpelledLeadsThere(Walk([], Parts(root)));
      CleanRooted(c);
    } else {
      CleanRelative(Walk([], Parts(wd)), root);
      SplitConcat(wd, c, '/');
      WalkConcat([], Parts(wd), Parts(c));
      CleanRooted(wd + "/" + c);
    }
  }

  /** Two roots share a host exactly if they lead to the same directory, however they are spelled. */
  lemma SameKeyExactlyIfSameDirectory(wd: string, a: string, b: string)
    requires Rooted(wd)
    ensures NormalizeSharedHostRoot(wd, a) == NormalizeSharedHostRoot(wd, b) <==> DirOf(wd, a) == DirOf(wd, b)
  {
    KeySpellsTheDirectory(wd, a);
    KeySpellsTheDirectory(wd, b);
    SpelledLeadsThere(DirOf(wd, a));
    SpelledLeadsThere(DirOf(wd, b));
  }

  /** A key is its own key, in whatever directory the program runs by then. */
  lemma KeysAreFixed(wd: string, later: string, root: string)
    requires Rooted(wd) && Rooted(later)
    ensures NormalizeSharedHostRoot(later, NormalizeSharedHostRoot(wd, root)) == NormalizeSharedHostRoot(wd, root)
  {
    var key := NormalizeSharedHostRoot(wd, root);
    KeySpellsTheDirectory(wd, root);
    KeySpellsTheDirectory(later, key);
    SpelledLeadsThere(DirOf(wd, root));
  }

  /** The root of the global tab is empty. Its key is the working directory's, so it shares the host of a project
      exactly if the project is that directory. */
  lemma GlobalTabSharesTheWorkingDirectory(wd: string, root: string)
    requires Rooted(wd)
    ensures NormalizeSharedHostRoot(wd, "") == NormalizeSharedHostRoot(wd, root) <==> DirOf(wd, root) == Walk([], Parts(wd))
  {
    SameKeyExactlyIfSameDirectory(wd, "", root);
    assert Parts("") == [""];
    assert [""][1..] == [];
  }
}
