/** The store of temporary media tokens: a map from token to entry and an order list, oldest first, that may
    still name tokens the map has dropped. Its meaning is a log of all creations. */
module MediaTokens {
  import opened Wrappers

  type Time = int

  datatype Entry = Entry(absPath: string, filename: string, mime: string, kind: string, size: int, modTime: Time,
                         createdAt: Time, expiresAt: Time)

  datatype Creation = Creation(token: string, entry: Entry)

  const MEDIA_TOKEN_MAX: nat := 256
  const TEN_MINUTES: Time := 600_000_000_000

  /** Entry i of the log is one of the maxN latest creations. */
  predicate Latest(log: seq<Creation>, maxN: nat, i: int) {
    0 <= i < |log| && |log| - i <= maxN
  }

  /** k starts the longest suffix of the log, of length at most maxN, whose entries were unexpired at `now`;
      the log's last creation counts as unexpired. */
  ghost predicate RetainedFrom(log: seq<Creation>, maxN: nat, now: Time, k: int) {
    && 0 <= k <= |log| && |log| - k <= maxN
    && (forall i :: k <= i < |log| - 1 ==> now < log[i].entry.expiresAt)
    && (k == 0 || |log| - k == maxN || log[k - 1].entry.expiresAt <= now)
  }

  /** i < j, named so that facts about two log positions are used only where they are mentioned. */
  ghost predicate Earlier(i: int, j: int) { i < j }

  /** Creations happen in clock order with one fixed ttl and distinct tokens. */
  ghost predicate LogOk(log: seq<Creation>, ttl: Time, clock: Time) {
    && (forall i, j {:trigger Earlier(i, j)} :: 0 <= i && Earlier(i, j) && j < |log| ==>
          log[i].token != log[j].token && log[i].entry.expiresAt <= log[j].entry.expiresAt)
    && (forall i :: 0 <= i < |log| ==> log[i].entry.createdAt <= clock && log[i].entry.expiresAt == log[i].entry.createdAt + ttl)
  }

  lemma LogOkAfterAppend(log: seq<Creation>, c: Creation, ttl: Time, clock: Time, now: Time)
    requires LogOk(log, ttl, clock) && clock <= now
    requires c.entry.createdAt == now && c.entry.expiresAt == now + ttl
    requires forall i :: 0 <= i < |log| ==> log[i].token != c.token
    ensures LogOk(log + [c], ttl, now)
  {}

  /** The suffix is the unexpired part of the latest creations: what it leaves out is expired or too old, and
      what it keeps is neither. */
  lemma RetainedIsLatestUnexpired(log: seq<Creation>, maxN: nat, ttl: Time, clock: Time, now: Time, k: int, i: int)
    requires LogOk(log, ttl, clock) && RetainedFrom(log, maxN, now, k) && 0 <= i < |log| - 1
    ensures k <= i <==> Latest(log, maxN, i) && now < log[i].entry.expiresAt
  {
    assert Earlier(i, k - 1) || i >= k - 1;
  }

  lemma RetainedIsUnique(log: seq<Creation>, maxN: nat, ttl: Time, clock: Time, now: Time, k: int, k': int)
    requires LogOk(log, ttl, clock) && RetainedFrom(log, maxN, now, k) && RetainedFrom(log, maxN, now, k')
    requires maxN > 0 && log != [] && now < log[|log| - 1].entry.expiresAt
    ensures k == k'
  {}

  class MediaTokenStore {
    var byTok: map<string, Entry>
    var order: seq<string>
    const maxN: nat
    const ttl: Time

    ghost var log: seq<Creation>
    ghost var start: nat    // the order list names log[start..]
    ghost var clock: Time   // the latest reading of the clock

    ghost predicate OrderIsSuffix()
      reads this
    {
      && start <= |log| && |order| == |log| - start
      && (forall i :: 0 <= i < |order| ==> order[i] == log[start + i].token)
    }

    /** A log entry is in the map, or it was dropped because it expired or fell out of the latest maxN. */
    ghost predicate Accounted(i: int)
      reads this
      requires 0 <= i < |log|
    {
      if log[i].token in byTok then i >= start && byTok[log[i].token] == log[i].entry
      else log[i].entry.expiresAt < clock || (i < start && (log[i].entry.expiresAt <= clock || !Latest(log, maxN, i)))
    }

    ghost predicate Coherent()
      reads this
    {
      && LogOk(log, ttl, clock) && OrderIsSuffix()
      && (forall t :: t in byTok ==> t in order)
      && (forall i :: 0 <= i < |log| ==> Accounted(i))
    }

    ghost predicate Valid()
      reads this
    {
      Coherent() && |order| <= maxN
    }

    constructor (maxN: nat, ttl: Time, now: Time)
      ensures Valid() && log == [] && clock == now && this.maxN == maxN && this.ttl == ttl
    {
      this.maxN, this.ttl := maxN, ttl;
      byTok, order, log, start, clock := map[], [], [], 0, now;
    }

    /** Forgets the oldest name and, with it, any entry it still has. */
    method DropOldest()
      requires Coherent() && order != []
      requires log[start].token !in byTok || log[start].entry.expiresAt <= clock || !Latest(log, maxN, start)
      modifies this`byTok, this`order, this`start
      ensures Coherent() && start == old(start) + 1 && order == old(order)[1..]
      ensures forall i :: start <= i < |log| ==> (log[i].token in byTok <==> log[i].token in old(byTok))
      ensures log[start - 1].entry.expiresAt <= clock || !Latest(log, maxN, start - 1)
    {
      assert order[0] == log[start].token && Accounted(start);
      byTok := byTok - {order[0]};
      order := order[1..];
      start := start + 1;
      forall i | 0 <= i < |log|
        ensures Accounted(i)
      {
        assert old(Accounted(i));
        assert Earlier(i, start - 1) || Earlier(start - 1, i) || i == start - 1;
      }
      forall i | start <= i < |log|
        ensures log[i].token in byTok <==> log[i].token in old(byTok)
      {
        assert Earlier(start - 1, i);
      }
    }

    /** Time passes. */
    method ReadClock(now: Time)
      requires Valid() && clock <= now
      modifies this`clock
      ensures Valid() && clock == now
    {
      clock := now;
      forall i | 0 <= i < |log|
        ensures Accounted(i)
      {
        assert old(Accounted(i));
      }
    }

    ghost predicate AllLive(now: Time)
      reads this
    {
      forall i :: start <= i < |log| ==> log[i].token in byTok && now < log[i].entry.expiresAt
    }

    lemma HeadLiveAllLive(now: Time)
      requires Coherent() && clock == now
      requires order == [] || (order[0] in byTok && now < byTok[order[0]].expiresAt)
      ensures AllLive(now)
    {
      forall i | start <= i < |log|
        ensures log[i].token in byTok && now < log[i].entry.expiresAt
      {
        assert order[0] == log[start].token && Accounted(start) && Accounted(i);
        assert Earlier(start, i) || i == start;
      }
    }

    /** Pops stale and expired names until the oldest name is live. */
    method DropExpired(now: Time)
      requires Valid() && clock == now
      modifies this`byTok, this`order, this`start
      ensures Valid() && AllLive(now)
      ensures start == 0 || log[start - 1].entry.expiresAt <= now || !Latest(log, maxN, start - 1)
    {
      assert start > 0 ==> Accounted(start - 1);
      while |order| > 0
        invariant Valid()
        invariant start == 0 || log[start - 1].entry.expiresAt <= now || !Latest(log, maxN, start - 1)
        decreases |order|
      {
        var tok := order[0];
        assert tok == log[start].token && Accounted(start);
        if tok in byTok && now < byTok[tok].expiresAt {
          break;
        }
        DropOldest();
      }
      HeadLiveAllLive(now);
    }

    /** Drops the oldest names while there are more than maxN. */
    method TrimToCapacity()
      requires Coherent()
      modifies this`byTok, this`order, this`start
      ensures Valid()
      ensures start == if |old(order)| <= maxN then old(start) else |log| - maxN
      ensures forall i :: start <= i < |log| ==> (log[i].token in byTok <==> log[i].token in old(byTok))
    {
      while |order| > maxN
        invariant Coherent() && old(start) <= start <= |log|
        invariant if |old(order)| <= maxN then start == old(start) else start <= |log| - maxN
        invariant forall i :: start <= i < |log| ==> (log[i].token in byTok <==> log[i].token in old(byTok))
        decreases |order|
      {
        DropOldest();
      }
    }

    method CleanupLocked(now: Time)
      requires Valid() && clock <= now
      modifies this`byTok, this`order, this`start, this`clock
      ensures Valid() && clock == now && AllLive(now)
      ensures start == 0 || log[start - 1].entry.expiresAt <= now || !Latest(log, maxN, start - 1)
    {
      ReadClock(now);
      DropExpired(now);
      TrimLive(now);
    }

    /** Trimming keeps what is left live, and drops only what is not among the latest. */
    method TrimLive(now: Time)
      requires Valid() && clock == now && AllLive(now)
      requires start == 0 || log[start - 1].entry.expiresAt <= now || !Latest(log, maxN, start - 1)
      modifies this`byTok, this`order, this`start
      ensures Valid() && AllLive(now)
      ensures start == 0 || log[start - 1].entry.expiresAt <= now || !Latest(log, maxN, start - 1)
    {
      TrimToCapacity();
    }

    /** `token` is the random name; now1 is the clock as cleanup reads it, now2 as creation reads it. */
    method Create(token: string, absPath: string, filename: string, mime: string, kind: string, size: int, modTime: Time,
                  now1: Time, now2: Time)
      requires Valid() && clock <= now1 <= now2
      requires forall i :: 0 <= i < |log| ==> log[i].token != token
      modifies this
      ensures Valid() && clock == now2
      ensures log == old(log) + [Creation(token, Entry(absPath, filename, mime, kind, size, modTime, now2, now2 + ttl))]
      ensures RetainedFrom(log, maxN, now1, start)
      ensures forall i :: 0 <= i < |order| ==> order[i] == log[start + i].token
      ensures forall i :: start <= i < |log| ==> log[i].token in byTok && byTok[log[i].token] == log[i].entry
      ensures forall t :: t in byTok <==> t in order
    {
      CleanupLocked(now1);
      Append(Creation(token, Entry(absPath, filename, mime, kind, size, modTime, now2, now2 + ttl)), now2);
      TrimToCapacity();
      NamesAreKeys();
    }

    lemma NamesAreKeys()
      requires Coherent() && (forall i :: start <= i < |log| ==> log[i].token in byTok)
      ensures forall t :: t in byTok <==> t in order
      ensures forall i :: start <= i < |log| ==> byTok[log[i].token] == log[i].entry
    {
      forall i | start <= i < |log|
        ensures byTok[log[i].token] == log[i].entry
      {
        assert Accounted(i);
      }
      forall t | t in order
        ensures t in byTok
      {
        var i :| 0 <= i < |order| && order[i] == t;
        assert log[start + i].token == t;
      }
    }

    /** Puts one creation at the end of the map, the order list and the log. */
    method Append(c: Creation, now: Time)
      requires Valid() && clock <= now && c.entry.createdAt == now && c.entry.expiresAt == now + ttl
      requires forall i :: 0 <= i < |log| ==> log[i].token != c.token
      modifies this`byTok, this`order, this`log, this`clock
      ensures Coherent() && clock == now
      ensures log == old(log) + [c] && order == old(order) + [c.token] && byTok == old(byTok)[c.token := c.entry]
    {
      LogOkAfterAppend(log, c, ttl, clock, now);
      byTok := byTok[c.token := c.entry];
      order := order + [c.token];
      log := log + [c];
      clock := now;
      forall i | 0 <= i < |log|
        ensures Accounted(i)
      {
        assert i < |old(log)| ==> old(Accounted(i)) && log[i] == old(log)[i];
      }
      forall t | t in byTok
        ensures t in order
      {
        assert t == c.token ==> order[|order| - 1] == t;
        assert t != c.token ==> t in old(order);
      }
    }

    method Get(token: string, now: Time) returns (r: Option<Entry>)
      requires Valid() && clock <= now
      modifies this`byTok, this`clock
      ensures Valid() && clock == now
      ensures byTok == if r.Some? then old(byTok) else old(byTok) - {token}
      // Strictly before its expiry a token is found exactly if it is one of the maxN latest creations.
      ensures forall i :: 0 <= i < |log| && log[i].token == token && now < log[i].entry.expiresAt ==>
                (r.Some? <==> Latest(log, maxN, i))
      // Whatever is found is the entry created under that token, and is not past its expiry.
      ensures r.Some? ==> exists i :: Latest(log, maxN, i) && log[i] == Creation(token, r.value) && now <= r.value.expiresAt
    {
      ReadClock(now);
      if token !in byTok {
        MissingIsGone(token);
        return None;
      }
      ghost var k := IndexOf(token);
      var e := byTok[token];
      if now > e.expiresAt {
        Forget(token, k);
        return None;
      }
      return Some(e);
    }

    /** A token the map does not hold has expired or is not among the latest. */
    lemma MissingIsGone(token: string)
      requires Coherent() && token !in byTok
      ensures forall i :: 0 <= i < |log| && log[i].token == token && clock < log[i].entry.expiresAt ==> !Latest(log, maxN, i)
    {
      forall i | 0 <= i < |log| && log[i].token == token && clock < log[i].entry.expiresAt
        ensures !Latest(log, maxN, i)
      {
        assert Accounted(i);
      }
    }

    /** Deletes an expired entry but leaves its name in the order list. */
    method Forget(token: string, ghost k: nat)
      requires Valid() && start <= k < |log| && log[k].token == token && log[k].entry.expiresAt < clock
      modifies this`byTok
      ensures Valid() && byTok == old(byTok) - {token}
    {
      byTok := byTok - {token};
      forall i | 0 <= i < |log|
        ensures Accounted(i)
      {
        assert old(Accounted(i));
        assert Earlier(i, k) || Earlier(k, i) || i == k;
      }
      assert forall t :: t in byTok ==> t in order;
    }

    lemma IndexOf(token: string) returns (k: nat)
      requires Valid() && token in byTok
      ensures Latest(log, maxN, k) && start <= k && log[k] == Creation(token, byTok[token])
      ensures forall i :: 0 <= i < |log| && i != k ==> log[i].token != token
    {
      var i :| 0 <= i < |order| && order[i] == token;
      k := start + i;
      assert log[k].token == token && Accounted(k);
      forall j | 0 <= j < |log| && j != k
        ensures log[j].token != token
      {
        assert Earlier(j, k) || Earlier(k, j);
      }
    }
  }

  /** ensureMediaTokenStore: the store as the app creates it. */
  method NewMediaTokenStore(now: Time) returns (s: MediaTokenStore)
    ensures fresh(s) && s.Valid() && s.log == [] && s.maxN == 256 && s.ttl == 600_000_000_000
  {
    s := new MediaTokenStore(MEDIA_TOKEN_MAX, TEN_MINUTES, now);
  }
}
