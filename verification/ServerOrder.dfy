/** The order in which MCP servers are listed: recorded positions first, then arrival order; listing merges
    the arrivals into the record. */
module ServerOrder {

  datatype ServerView = ServerView(name: string, details: string)

  // ---- the comparison ----

  /** The last position of a name in the record, or the record's length if it is not there. */
  function Rank(order: seq<string>, name: string): (k: nat)
    ensures k <= |order|
    ensures k < |order| <==> name in order
    ensures k < |order| ==> order[k] == name && forall j :: k < j < |order| ==> order[j] != name
  {
    RankIn(order, name, |order|)
  }

  function RankIn(order: seq<string>, name: string, hi: nat): (k: nat)
    requires hi <= |order| && (forall j :: hi <= j < |order| ==> order[j] != name)
    ensures k < |order| ==> order[k] == name && forall j :: k < j < |order| ==> order[j] != name
    ensures k <= |order| && (k == |order| ==> name !in order)
    decreases hi
  {
    if hi == 0 then |order|
    else if order[hi - 1] == name then hi - 1
    else RankIn(order, name, hi - 1)
  }

  /** The position map: a later entry for the same name replaces an earlier one. */
  method BuildPositions(order: seq<string>) returns (pos: map<string, nat>)
    ensures forall name :: name in pos <==> name in order
    ensures forall name :: name in pos ==> pos[name] == Rank(order, name)
  {
    pos := map[];
    for i := 0 to |order|
      invariant forall name :: name in pos <==> name in order[..i]
      invariant forall name :: name in pos ==>
                  pos[name] < i && order[pos[name]] == name && forall j :: pos[name] < j < i ==> order[j] != name
    {
      pos := pos[order[i] := i];
    }
    assert order[..|order|] == order;
  }

  predicate Less(pos: map<string, nat>, x: ServerView, y: ServerView) {
    if x.name in pos && y.name in pos then pos[x.name] < pos[y.name]
    else x.name in pos && y.name !in pos
  }

  // ---- the stable sort ----

  function Insert(order: seq<string>, s: seq<ServerView>, v: ServerView): (r: seq<ServerView>)
    ensures |r| == |s| + 1
  {
    if s == [] || !(Rank(order, v.name) < Rank(order, s[|s| - 1].name)) then s + [v]
    else Insert(order, s[..|s| - 1], v) + [s[|s| - 1]]
  }

  function Ordered(order: seq<string>, s: seq<ServerView>): (r: seq<ServerView>)
    ensures |r| == |s|
  {
    if s == [] then [] else Insert(order, Ordered(order, s[..|s| - 1]), s[|s| - 1])
  }

  lemma OrderedOneMore(order: seq<string>, was: seq<ServerView>, i: nat)
    requires i < |was|
    ensures Ordered(order, was[..i + 1]) == Insert(order, Ordered(order, was[..i]), was[i])
  {
    assert was[..i + 1][..i] == was[..i];
  }

  lemma SameTail<T>(a: seq<T>, b: seq<T>, i: nat)
    requires i < |a| && i < |b| && a[i..] == b[i..]
    ensures a[i] == b[i] && a[i + 1..] == b[i + 1..]
  {
    assert a[i] == a[i..][0] && b[i] == b[i..][0];
    assert a[i + 1..] == a[i..][1..] && b[i + 1..] == b[i..][1..];
  }

  /** orderServerViews sorts in place. sort.SliceStable is modelled as the insertion sort it is for short lists. */
  method OrderServerViews(servers: array<ServerView>, order: seq<string>)
    modifies servers
    ensures servers[..] == Ordered(order, old(servers[..]))
  {
    var pos := BuildPositions(order);
    ghost var was := servers[..];
    for i := 0 to servers.Length
      invariant servers[..i] == Ordered(order, was[..i])
      invariant servers[i..] == was[i..]
    {
      SameTail(servers[..], was, i);
      OrderedOneMore(order, was, i);
      InsertAt(servers, i, pos, order);
    }
    assert servers[..servers.Length] == servers[..] && was[..servers.Length] == was;
  }

  /** While the new element is smaller than the one before it, that one stays behind it. */
  lemma InsertGoesOn(order: seq<string>, prev: seq<ServerView>, v: ServerView, j: nat)
    requires 0 < j <= |prev| && Rank(order, v.name) < Rank(order, prev[j - 1].name)
    requires Insert(order, prev, v) == Insert(order, prev[..j], v) + prev[j..]
    ensures Insert(order, prev, v) == Insert(order, prev[..j - 1], v) + prev[j - 1..]
  {
    assert prev[..j][..j - 1] == prev[..j - 1] && prev[..j][j - 1] == prev[j - 1];
    assert prev[j - 1..] == [prev[j - 1]] + prev[j..];
  }

  lemma InsertStops(order: seq<string>, prev: seq<ServerView>, v: ServerView, j: nat)
    requires j <= |prev| && (j > 0 ==> !(Rank(order, v.name) < Rank(order, prev[j - 1].name)))
    ensures Insert(order, prev[..j], v) == prev[..j] + [v]
  {
    assert j > 0 ==> prev[..j][j - 1] == prev[j - 1];
  }

  lemma LessIsRank(order: seq<string>, pos: map<string, nat>, x: ServerView, y: ServerView)
    requires forall name :: name in pos <==> name in order
    requires forall name :: name in pos ==> pos[name] == Rank(order, name)
    ensures Less(pos, x, y) <==> Rank(order, x.name) < Rank(order, y.name)
  {}

  method InsertAt(a: array<ServerView>, i: nat, pos: map<string, nat>, order: seq<string>)
    requires i < a.Length
    requires forall name :: name in pos <==> name in order
    requires forall name :: name in pos ==> pos[name] == Rank(order, name)
    modifies a
    ensures a[..i + 1] == Insert(order, old(a[..i]), old(a[i]))
    ensures a[i + 1..] == old(a[i + 1..])
  {
    ghost var prev := a[..i];
    ghost var v := a[i];
    var j := i;
    while j > 0 && Less(pos, a[j], a[j - 1])
      invariant 0 <= j <= i
      invariant a[..j] == prev[..j] && a[j] == v && a[j + 1..i + 1] == prev[j..]
      invariant a[i + 1..] == old(a[i + 1..])
      invariant Insert(order, prev, v) == Insert(order, prev[..j], v) + prev[j..]
    {
      LessIsRank(order, pos, a[j], a[j - 1]);
      assert a[j - 1] == prev[j - 1];
      InsertGoesOn(order, prev, v, j);
      SwapBack(a, prev, v, i, j);
      j := j - 1;
    }
    if j > 0 {
      LessIsRank(order, pos, a[j], a[j - 1]);
      assert a[j - 1] == prev[j - 1];
    }
    InsertStops(order, prev, v, j);
    assert a[..i + 1] == a[..j] + [a[j]] + a[j + 1..i + 1];
  }

  /** One exchange of the inner loop. */
  method SwapBack(a: array<ServerView>, ghost prev: seq<ServerView>, ghost v: ServerView, ghost i: nat, j: nat)
    requires 0 < j <= i < a.Length && |prev| == i
    requires a[..j] == prev[..j] && a[j] == v && a[j + 1..i + 1] == prev[j..]
    modifies a
    ensures a[..j - 1] == prev[..j - 1] && a[j - 1] == v && a[j..i + 1] == prev[j - 1..]
    ensures a[i + 1..] == old(a[i + 1..])
  {
    assert a[j - 1] == prev[j - 1];
    a[j - 1], a[j] := a[j], a[j - 1];
    assert a[j..i + 1] == [a[j]] + a[j + 1..i + 1];
    assert prev[j - 1..] == [prev[j - 1]] + prev[j..];
  }

  // ---- what the sort means ----

  ghost predicate SortedByRank(order: seq<string>, r: seq<ServerView>) {
    forall i, j :: 0 <= i < j < |r| ==> Rank(order, r[i].name) <= Rank(order, r[j].name)
  }

  /** The servers of one rank, in the order they have in s. */
  function OfRank(order: seq<string>, s: seq<ServerView>, k: nat): seq<ServerView> {
    if s == [] then []
    else OfRank(order, s[..|s| - 1], k) + if Rank(order, s[|s| - 1].name) == k then [s[|s| - 1]] else []
  }

  lemma {:induction false} OfRankConcat(order: seq<string>, s: seq<ServerView>, t: seq<ServerView>, k: nat)
    ensures OfRank(order, s + t, k) == OfRank(order, s, k) + OfRank(order, t, k)
  {
    if t == [] {
      assert s + t == s;
    } else {
      assert (s + t)[..|s + t| - 1] == s + t[..|t| - 1];
      OfRankConcat(order, s, t[..|t| - 1], k);
    }
  }

  lemma {:induction false} InsertKeepsElements(order: seq<string>, s: seq<ServerView>, v: ServerView)
    ensures multiset(Insert(order, s, v)) == multiset(s) + multiset{v}
  {
    if s != [] && Rank(order, v.name) < Rank(order, s[|s| - 1].name) {
      assert s == s[..|s| - 1] + [s[|s| - 1]];
      InsertKeepsElements(order, s[..|s| - 1], v);
    }
  }

  lemma {:induction false} InsertKeepsSorted(order: seq<string>, s: seq<ServerView>, v: ServerView)
    requires SortedByRank(order, s)
    ensures SortedByRank(order, Insert(order, s, v))
  {
    if s != [] && Rank(order, v.name) < Rank(order, s[|s| - 1].name) {
      var init, last := s[..|s| - 1], s[|s| - 1];
      InsertKeepsSorted(order, init, v);
      InsertKeepsElements(order, init, v);
      var r := Insert(order, init, v);
      forall i | 0 <= i < |r|
        ensures Rank(order, r[i].name) <= Rank(order, last.name)
      {
        assert r[i] in multiset(r);
        assert r[i] in init || r[i] == v;
      }
    }
  }

  lemma {:induction false} InsertKeepsRanks(order: seq<string>, s: seq<ServerView>, v: ServerView, k: nat)
    ensures OfRank(order, Insert(order, s, v), k) == OfRank(order, s + [v], k)
  {
    if s != [] && Rank(order, v.name) < Rank(order, s[|s| - 1].name) {
      var init, last := s[..|s| - 1], s[|s| - 1];
      assert s == init + [last];
      InsertKeepsRanks(order, init, v, k);
      OfRankConcat(order, Insert(order, init, v), [last], k);
      OfRankConcat(order, init, [v], k);
      OfRankConcat(order, init, [last], k);
      OfRankConcat(order, s, [v], k);
    }
  }

  /** The listing is a permutation, sorted by rank, in which servers of equal rank keep their arrival order. */
  lemma {:induction false} OrderedIsStableSort(order: seq<string>, s: seq<ServerView>, k: nat)
    ensures SortedByRank(order, Ordered(order, s))
    ensures OfRank(order, Ordered(order, s), k) == OfRank(order, s, k)
    ensures multiset(Ordered(order, s)) == multiset(s)
  {
    if s != [] {
      var init, last := s[..|s| - 1], s[|s| - 1];
      assert s == init + [last];
      OrderedIsStableSort(order, init, k);
      var r := Ordered(order, init);
      InsertKeepsElements(order, r, last);
      InsertKeepsSorted(order, r, last);
      InsertKeepsRanks(order, r, last, k);
      OfRankConcat(order, r, [last], k);
      OfRankConcat(order, init, [last], k);
    }
  }

  lemma {:induction false} OfRankHas(order: seq<string>, s: seq<ServerView>, v: ServerView)
    ensures v in s <==> v in OfRank(order, s, Rank(order, v.name))
  {
    if s != [] {
      OfRankHas(order, s[..|s| - 1], v);
    }
  }

  lemma SortedStartsWithLowestRank(order: seq<string>, s: seq<ServerView>)
    requires SortedByRank(order, s) && s != []
    ensures OfRank(order, s, Rank(order, s[0].name)) == [s[0]] + OfRank(order, s[1..], Rank(order, s[0].name))
    ensures forall k :: k != Rank(order, s[0].name) ==> OfRank(order, s, k) == OfRank(order, s[1..], k)
  {
    assert s == [s[0]] + s[1..];
    forall k: nat
      ensures OfRank(order, s, k) == OfRank(order, [s[0]], k) + OfRank(order, s[1..], k)
    {
      OfRankConcat(order, [s[0]], s[1..], k);
    }
  }

  lemma {:induction false} SameRanksSameList(order: seq<string>, r: seq<ServerView>, q: seq<ServerView>)
    requires SortedByRank(order, r) && SortedByRank(order, q)
    requires forall k: nat :: OfRank(order, r, k) == OfRank(order, q, k)
    ensures r == q
  {
    if r == [] || q == [] {
      if r != [] {
        OfRankHas(order, r, r[0]);
      } else if q != [] {
        OfRankHas(order, q, q[0]);
      }
    } else {
      OfRankHas(order, r, r[0]);
      OfRankHas(order, q, q[0]);
      MemberRank(order, q, Rank(order, r[0].name), r[0]);
      MemberRank(order, r, Rank(order, q[0].name), q[0]);
      var k := Rank(order, r[0].name);
      assert Rank(order, q[0].name) == k;
      SortedStartsWithLowestRank(order, r);
      SortedStartsWithLowestRank(order, q);
      assert OfRank(order, r, k)[0] == r[0] && OfRank(order, q, k)[0] == q[0];
      forall j: nat
        ensures OfRank(order, r[1..], j) == OfRank(order, q[1..], j)
      {
        if j == k {
          assert OfRank(order, r[1..], k) == OfRank(order, r, k)[1..];
          assert OfRank(order, q[1..], k) == OfRank(order, q, k)[1..];
        }
      }
      SameRanksSameList(order, r[1..], q[1..]);
      assert r == [r[0]] + r[1..] && q == [q[0]] + q[1..];
    }
  }

  lemma {:induction false} MemberRank(order: seq<string>, s: seq<ServerView>, k: nat, v: ServerView)
    requires v in OfRank(order, s, k)
    ensures v in s && Rank(order, v.name) == k
  {
    if v !in OfRank(order, s[..|s| - 1], k) {
    } else {
      MemberRank(order, s[..|s| - 1], k, v);
    }
  }

  /** The stable sort is the only list with these properties. */
  lemma OrderedIsUnique(order: seq<string>, s: seq<ServerView>, r: seq<ServerView>)
    requires SortedByRank(order, r) && forall k: nat :: OfRank(order, r, k) == OfRank(order, s, k)
    ensures r == Ordered(order, s)
  {
    forall k: nat
      ensures OfRank(order, r, k) == OfRank(order, Ordered(order, s), k)
    {
      OrderedIsStableSort(order, s, k);
    }
    OrderedIsStableSort(order, s, 0);
    SameRanksSameList(order, r, Ordered(order, s));
  }

  // ---- merging arrivals into the record ----

  ghost predicate Distinct(names: seq<string>) {
    forall i, j :: 0 <= i < j < |names| ==> names[i] != names[j]
  }

  function Names(servers: seq<ServerView>): (r: seq<string>)
    ensures |r| == |servers|
    ensures forall i :: 0 <= i < |r| ==> r[i] == servers[i].name
  {
    seq(|servers|, i requires 0 <= i < |servers| => servers[i].name)
  }

  /** Each name of `more` that is new and not empty goes to the end. */
  function Extend(next: seq<string>, more: seq<string>): seq<string> {
    if more == [] then next
    else
      var before := Extend(next, more[..|more| - 1]);
      var name := more[|more| - 1];
      if name == "" || name in before then before else before + [name]
  }

  function Merged(order: seq<string>, servers: seq<ServerView>): seq<string> {
    Extend(Extend([], order), Names(servers))
  }

  method MergeServerOrder(order: seq<string>, servers: seq<ServerView>) returns (next: seq<string>)
    ensures next == Merged(order, servers)
  {
    var seen: set<string> := {};
    next := [];
    for i := 0 to |order|
      invariant next == Extend([], order[..i])
      invariant forall name :: name in seen <==> name in next
    {
      var name := order[i];
      assert order[..i + 1][..i] == order[..i];
      if name == "" || name in seen {
        continue;
      }
      seen := seen + {name};
      next := next + [name];
    }
    assert order[..|order|] == order;
    ghost var names := Names(servers);
    for i := 0 to |servers|
      invariant next == Extend(Extend([], order), names[..i])
      invariant forall name :: name in seen <==> name in next
    {
      var name := servers[i].name;
      assert names[..i + 1][..i] == names[..i];
      if name == "" || name in seen {
        continue;
      }
      seen := seen + {name};
      next := next + [name];
    }
    assert names[..|servers|] == names;
  }

  lemma {:induction false} ExtendIsUnion(next: seq<string>, more: seq<string>)
    requires Distinct(next) && "" !in next
    ensures Distinct(Extend(next, more)) && next <= Extend(next, more)
    ensures forall name :: name in Extend(next, more) <==> name in next || (name in more && name != "")
  {
    if more != [] {
      var init, last := more[..|more| - 1], more[|more| - 1];
      ExtendIsUnion(next, init);
      assert more == init + [last];
    }
  }

  lemma {:induction false} ExtendByKnown(next: seq<string>, more: seq<string>)
    requires forall name :: name in more && name != "" ==> name in next
    ensures Extend(next, more) == next
  {
    if more != [] {
      ExtendByKnown(next, more[..|more| - 1]);
    }
  }

  lemma {:induction false} ExtendEmptyByDistinct(names: seq<string>)
    requires Distinct(names) && "" !in names
    ensures Extend([], names) == names
  {
    if names != [] {
      var init, last := names[..|names| - 1], names[|names| - 1];
      assert names == init + [last];
      ExtendEmptyByDistinct(init);
    }
  }

  /** Where a name first occurs; the length if it does not. */
  function FirstAt(names: seq<string>, name: string): (k: nat)
    ensures k <= |names| && (forall i :: 0 <= i < k ==> names[i] != name) && (k < |names| ==> names[k] == name)
  {
    if names == [] || names[0] == name then 0 else 1 + FirstAt(names[1..], name)
  }

  lemma {:induction false} ExtendConcat(next: seq<string>, a: seq<string>, b: seq<string>)
    ensures Extend(next, a + b) == Extend(Extend(next, a), b)
  {
    if b == [] {
      assert a + b == a;
    } else {
      assert (a + b)[..|a + b| - 1] == a + b[..|b| - 1];
      ExtendConcat(next, a, b[..|b| - 1]);
    }
  }

  lemma {:induction false} ExtendInOrder(names: seq<string>, i: nat, j: nat)
    requires i < j < |Extend([], names)|
    ensures FirstAt(names, Extend([], names)[i]) < FirstAt(names, Extend([], names)[j])
  {
    var init, last := names[..|names| - 1], names[|names| - 1];
    var r := Extend([], init);
    ExtendIsUnion([], init);
    if j < |r| {
      ExtendInOrder(init, i, j);
      assert r[i] in r && r[j] in r;
      FirstOfLonger(init, last, r[j]);
    } else {
      assert r[i] in r && last !in init;
    }
    FirstOfLonger(init, last, r[i]);
    assert names == init + [last];
  }

  lemma FirstOfLonger(init: seq<string>, last: string, name: string)
    requires name in init
    ensures FirstAt(init + [last], name) == FirstAt(init, name) < |init|
  {
    var k := FirstAt(init, name);
    assert k < |init| by {
      var i :| 0 <= i < |init| && init[i] == name;
    }
    assert (init + [last])[k] == name;
  }

  /** The names of a merged record stand in the order of their first occurrence: the record's own first, then the
      servers as they arrived. */
  lemma MergedInArrivalOrder(order: seq<string>, servers: seq<ServerView>, i: nat, j: nat)
    requires i < j < |Merged(order, servers)|
    ensures var m, all := Merged(order, servers), order + Names(servers); FirstAt(all, m[i]) < FirstAt(all, m[j])
  {
    ExtendConcat([], order, Names(servers));
    ExtendInOrder(order + Names(servers), i, j);
  }

  /** A merged record has no duplicate and no empty name, holds exactly the names of both, and keeps a clean
      record as its beginning. */
  lemma MergedIsCleanUnion(order: seq<string>, servers: seq<ServerView>)
    ensures Distinct(Merged(order, servers)) && "" !in Merged(order, servers)
    ensures forall name :: name in Merged(order, servers) <==> name != "" && (name in order || name in Names(servers))
    ensures Distinct(order) && "" !in order ==> order <= Merged(order, servers)
  {
    ExtendIsUnion([], order);
    ExtendIsUnion(Extend([], order), Names(servers));
    if Distinct(order) && "" !in order {
      ExtendEmptyByDistinct(order);
    }
  }

  /** Merging again, in whatever arrival order, changes nothing. */
  lemma MergeIsIdempotent(order: seq<string>, servers: seq<ServerView>, again: seq<ServerView>)
    requires multiset(again) == multiset(servers)
    ensures Merged(Merged(order, servers), again) == Merged(order, servers)
  {
    var m := Merged(order, servers);
    MergedIsCleanUnion(order, servers);
    ExtendEmptyByDistinct(m);
    forall name | name in Names(again) && name != ""
      ensures name in m
    {
      var i :| 0 <= i < |again| && again[i].name == name;
      assert again[i] in multiset(servers);
      var j :| 0 <= j < |servers| && servers[j] == again[i];
      assert Names(servers)[j] == name;
    }
    ExtendByKnown(m, Names(again));
  }

  // ---- a merged record makes the listing independent of arrival order ----

  lemma {:induction false} AtMostOneOfRank(order: seq<string>, s: seq<ServerView>, k: nat)
    requires Distinct(Names(s))
    requires forall i, j :: 0 <= i < |s| && 0 <= j < |s| && Rank(order, s[i].name) == k && Rank(order, s[j].name) == k ==> s[i].name == s[j].name
    ensures |OfRank(order, s, k)| <= 1
  {
    if s != [] {
      var init := s[..|s| - 1];
      assert forall i :: 0 <= i < |init| ==> Names(init)[i] == Names(s)[i];
      AtMostOneOfRank(order, init, k);
      if Rank(order, s[|s| - 1].name) == k && OfRank(order, init, k) != [] {
        var v := OfRank(order, init, k)[0];
        MemberRank(order, init, k, v);
      }
    }
  }

  lemma OneNamePerRank(order: seq<string>, s: seq<ServerView>, k: nat)
    requires forall i :: 0 <= i < |s| && s[i].name != "" ==> s[i].name in order
    requires "" !in order
    ensures forall i, j :: 0 <= i < |s| && 0 <= j < |s| && Rank(order, s[i].name) == k && Rank(order, s[j].name) == k ==> s[i].name == s[j].name
  {}

  /** Once the servers are merged into the record, any arrival order of the same distinctly named servers is
      listed the same. */
  lemma ListingIgnoresArrivalOrder(order: seq<string>, servers: seq<ServerView>, later: seq<ServerView>)
    requires multiset(later) == multiset(servers) && Distinct(Names(servers)) && Distinct(Names(later))
    ensures Ordered(Merged(order, servers), later) == Ordered(Merged(order, servers), servers)
  {
    var m := Merged(order, servers);
    MergedIsCleanUnion(order, servers);
    forall i | 0 <= i < |servers| && servers[i].name != ""
      ensures servers[i].name in m
    {
      assert Names(servers)[i] == servers[i].name;
    }
    forall i | 0 <= i < |later| && later[i].name != ""
      ensures later[i].name in m
    {
      assert later[i] in multiset(servers);
      var j :| 0 <= j < |servers| && servers[j] == later[i];
      assert Names(servers)[j] == later[i].name;
    }
    forall k: nat
      ensures OfRank(m, Ordered(m, later), k) == OfRank(m, servers, k)
    {
      OrderedIsStableSort(m, later, k);
      OneNamePerRank(m, servers, k);
      OneNamePerRank(m, later, k);
      AtMostOneOfRank(m, servers, k);
      AtMostOneOfRank(m, later, k);
      SameSingleton(m, servers, later, k);
    }
    OrderedIsStableSort(m, later, 0);
    OrderedIsUnique(m, servers, Ordered(m, later));
  }

  lemma SameSingleton(order: seq<string>, s: seq<ServerView>, t: seq<ServerView>, k: nat)
    requires multiset(s) == multiset(t) && |OfRank(order, s, k)| <= 1 && |OfRank(order, t, k)| <= 1
    ensures OfRank(order, s, k) == OfRank(order, t, k)
  {
    if OfRank(order, s, k) != [] {
      var v := OfRank(order, s, k)[0];
      MemberRank(order, s, k, v);
      assert v in multiset(t);
      OfRankHas(order, t, v);
    }
    if OfRank(order, t, k) != [] {
      var v := OfRank(order, t, k)[0];
      MemberRank(order, t, k, v);
      assert v in multiset(s);
      OfRankHas(order, s, v);
    }
  }

  // ---- removal in place ----

  function Without(names: seq<string>, name: string): seq<string> {
    if names == [] then []
    else Without(names[..|names| - 1], name) + if names[|names| - 1] != name then [names[|names| - 1]] else []
  }

  /** removeServerOrder filters the slice a[..n] into its own backing array; what follows the slice stays. */
  method RemoveServerOrder(a: array<string>, n: nat, name: string) returns (kept: nat)
    requires n <= a.Length
    modifies a
    ensures kept <= n && a[n..] == old(a[n..])
    ensures a[..kept] == if name == "" then old(a[..n]) else Without(old(a[..n]), name)
  {
    if name == "" || n == 0 {
      return n;
    }
    kept := 0;
    ghost var was := a[..n];
    for i := 0 to n
      invariant kept <= i
      invariant a[..kept] == Without(was[..i], name)
      invariant forall j :: i <= j < n ==> a[j] == was[j]
      invariant a[n..] == old(a[n..])
    {
      assert was[..i + 1][..i] == was[..i];
      if a[i] != name {
        a[kept] := a[i];
        kept := kept + 1;
      }
    }
    assert was[..n] == was;
  }

  /** The other names stay in their order: removing goes name by name. */
  lemma {:induction false} WithoutGoesByName(a: seq<string>, b: seq<string>, x: string, name: string)
    ensures Without(a + b, name) == Without(a, name) + Without(b, name)
    ensures Without([x], name) == if x == name then [] else [x]
  {
    assert [x][..0] == [];
    if b == [] {
      assert a + b == a;
    } else {
      assert (a + b)[..|a + b| - 1] == a + b[..|b| - 1];
      WithoutGoesByName(a, b[..|b| - 1], x, name);
    }
  }

  /** Removing a name takes that name out of a record and leaves every other name as often as it was. */
  lemma {:induction false} WithoutRemovesExactly(names: seq<string>, name: string)
    ensures multiset(Without(names, name)) == multiset(names)[name := 0]
  {
    if names != [] {
      assert names == names[..|names| - 1] + [names[|names| - 1]];
      WithoutRemovesExactly(names[..|names| - 1], name);
    }
  }

  lemma {:induction false} WithoutKeepsDistinct(names: seq<string>, name: string)
    requires Distinct(names)
    ensures Distinct(Without(names, name))
  {
    if names != [] {
      var init := names[..|names| - 1];
      WithoutKeepsDistinct(init, name);
      WithoutRemovesExactly(init, name);
      var r, last := Without(init, name), names[|names| - 1];
      forall i | 0 <= i < |r|
        ensures r[i] != last
      {
        assert r[i] in multiset(r) && r[i] in init;
      }
    }
  }
}
