/** The reference-counted plugin hosts that desktop tabs of one workspace root share. */
module SharedHost {
  import opened HostRoot

  /** A normalised workspace root. */
  type Root = string
  type HostId = nat

  datatype Entry = Entry(host: HostId, refs: int)

  /** live: the sharedHosts map; closed: hosts that were torn down; next: the next unused host identity. */
  datatype Table = Table(live: map<Root, Entry>, closed: set<HostId>, next: HostId)

  function Refs(t: Table, root: Root): int {
    if root in t.live then t.live[root].refs else 0
  }

  function Acquire(t: Table, root: Root): Table {
    if root in t.live then
      var e := t.live[root];
      t.(live := t.live[root := e.(refs := e.refs + 1)])
    else
      t.(live := t.live[root := Entry(t.next, 1)], next := t.next + 1)
  }

  function Release(t: Table, root: Root): Table {
    if root !in t.live then
      t
    else
      var e := t.live[root];
      if e.refs - 1 <= 0 then
        t.(live := t.live - {root}, closed := t.closed + {e.host})
      else
        t.(live := t.live[root := e.(refs := e.refs - 1)])
  }

  /** Entries count at least one reference; no host serves two roots; no live host was ever torn down. */
  ghost predicate Wf(t: Table) {
    && (forall r :: r in t.live ==> t.live[r].refs >= 1 && t.live[r].host < t.next && t.live[r].host !in t.closed)
    && (forall r, q :: r in t.live && q in t.live && t.live[r].host == t.live[q].host ==> r == q)
    && (forall h :: h in t.closed ==> h < t.next)
  }

  lemma AcquireKeepsWf(t: Table, root: Root)
    requires Wf(t)
    ensures Wf(Acquire(t, root))
  {}

  lemma ReleaseKeepsWf(t: Table, root: Root)
    requires Wf(t)
    ensures Wf(Release(t, root))
  {}

  /** A release undoes an acquire: every root keeps its host and its count, and the only host torn down is
      one that the acquire itself had to create. */
  lemma ReleaseUndoesAcquire(t: Table, root: Root)
    requires Wf(t)
    ensures Release(Acquire(t, root), root).live == t.live
    ensures Release(Acquire(t, root), root).closed == if root in t.live then t.closed else t.closed + {t.next}
  {}

  /** A host that is acquired n times more than it is released survives n further releases. */
  lemma {:induction false} SurvivesReleases(t: Table, root: Root, n: nat)
    requires Wf(t) && Refs(t, root) > n
    ensures Wf(ReleaseN(t, root, n)) && root in ReleaseN(t, root, n).live
    ensures ReleaseN(t, root, n).live[root] == Entry(t.live[root].host, t.live[root].refs - n)
    ensures ReleaseN(t, root, n).closed == t.closed
  {
    if n > 0 {
      SurvivesReleases(t, root, n - 1);
      ReleaseKeepsWf(ReleaseN(t, root, n - 1), root);
    }
  }

  function ReleaseN(t: Table, root: Root, n: nat): Table {
    if n == 0 then t else Release(ReleaseN(t, root, n - 1), root)
  }

  /** The App fields behind acquireSharedHost and releaseSharedHost, and the working directory. */
  class SharedHosts {
    const wd: string
    var live: map<Root, Entry>
    var closed: set<HostId>
    var next: HostId

    function View(): Table
      reads this
    {
      Table(live, closed, next)
    }

    ghost predicate Valid()
      reads this
    {
      Wf(View())
    }

    constructor (wd: string)
      ensures Valid() && View() == Table(map[], {}, 0) && this.wd == wd
    {
      this.wd := wd;
      live, closed, next := map[], {}, 0;
    }

    /** The key of a workspace root as a tab or a schedule names it. */
    function Key(root: string): Root {
      NormalizeSharedHostRoot(wd, root)
    }

    method AcquireSharedHost(root: string) returns (host: HostId)
      requires Valid()
      modifies this
      ensures Valid() && View() == Acquire(old(View()), Key(root))
      ensures Key(root) in live && host == live[Key(root)].host && host !in closed
    {
      host := AcquireKey(Key(root));
    }

    method AcquireKey(key: Root) returns (host: HostId)
      requires Valid()
      modifies this
      ensures Valid() && View() == Acquire(old(View()), key)
      ensures key in live && host == live[key].host && host !in closed
    {
      AcquireKeepsWf(View(), key);
      if key in live {
        var entry := live[key];
        live := live[key := entry.(refs := entry.refs + 1)];
        return entry.host;
      }
      host := next;
      next := next + 1;
      live := live[key := Entry(host, 1)];
    }

    method ReleaseSharedHost(root: string)
      requires Valid()
      modifies this
      ensures Valid() && View() == Release(old(View()), Key(root))
    {
      ReleaseKey(Key(root));
    }

    method ReleaseKey(key: Root)
      requires Valid()
      modifies this
      ensures Valid() && View() == Release(old(View()), key)
    {
      ReleaseKeepsWf(View(), key);
      if key !in live {
        return;
      }
      var entry := live[key];
      var refs := entry.refs - 1;
      if refs <= 0 {
        live := live - {key};
        closed := closed + {entry.host};
      } else {
        live := live[key := entry.(refs := refs)];
      }
    }
  }
}
