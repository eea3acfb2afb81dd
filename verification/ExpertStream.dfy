/** The cache of an expert team's live stream: events of several experts arrive interleaved and are folded
    into messages that a remounted panel can show. */
module ExpertStream {

  datatype Kind = Expert | Synthesis

  datatype Message = Message(kind: Kind, expert: string, round: int, text: string, streaming: bool)

  datatype Phase = ExpertStart | ExpertChunk | ExpertDone | SynthesisChunk | OtherPhase

  datatype Event = Event(team: string, phase: Phase, expert: string, round: int, text: string)

  predicate Matches(m: Message, expert: string, round: int) {
    m.kind == Expert && m.expert == expert && m.round == round
  }

  /** The last message of an expert in a round, or -1. */
  function LastOf(cache: seq<Message>, expert: string, round: int): (i: int)
    ensures -1 <= i < |cache|
    ensures i >= 0 ==> Matches(cache[i], expert, round)
    ensures forall j :: i < j < |cache| ==> !Matches(cache[j], expert, round)
  {
    if cache == [] then -1
    else if Matches(cache[|cache| - 1], expert, round) then |cache| - 1
    else LastOf(cache[..|cache| - 1], expert, round)
  }

  /** One event, folded into the cache. */
  function Reduce(cache: seq<Message>, ev: Event): seq<Message> {
    match ev.phase
    case ExpertStart =>
      if ev.expert == "" then cache else cache + [Message(Expert, ev.expert, ev.round, "", true)]
    case ExpertChunk =>
      var i := LastOf(cache, ev.expert, ev.round);
      if i >= 0 then cache[i := cache[i].(text := cache[i].text + ev.text)]
      else cache + [Message(Expert, ev.expert, ev.round, ev.text, true)]
    case ExpertDone =>
      var i := LastOf(cache, ev.expert, ev.round);
      if i >= 0 then cache[i := cache[i].(streaming := false)] else cache
    case SynthesisChunk =>
      if ev.text == "" then cache
      else if cache != [] && cache[|cache| - 1].kind == Synthesis then
        cache[|cache| - 1 := cache[|cache| - 1].(text := cache[|cache| - 1].text + ev.text)]
      else cache + [Message(Synthesis, "", 0, ev.text, true)]
    case OtherPhase => cache
  }

  function ReduceAll(events: seq<Event>): seq<Message> {
    if events == [] then [] else Reduce(ReduceAll(events[..|events| - 1]), events[|events| - 1])
  }

  // ---- what the cache must preserve ----

  /** Whose text: one expert's in one round, or the synthesis. */
  datatype Voice = ExpertVoice(expert: string, round: int) | SynthesisVoice

  predicate Speaks(m: Message, v: Voice) {
    match v
    case ExpertVoice(expert, round) => Matches(m, expert, round)
    case SynthesisVoice => m.kind == Synthesis
  }

  predicate Carries(ev: Event, v: Voice) {
    match v
    case ExpertVoice(expert, round) => ev.phase == ExpertChunk && ev.expert == expert && ev.round == round
    case SynthesisVoice => ev.phase == SynthesisChunk
  }

  /** A voice's cached texts, in cache order. */
  function Cached(cache: seq<Message>, v: Voice): string {
    if cache == [] then ""
    else Cached(cache[..|cache| - 1], v) + if Speaks(cache[|cache| - 1], v) then cache[|cache| - 1].text else ""
  }

  /** A voice's chunks, in arrival order. */
  function Arrived(events: seq<Event>, v: Voice): string {
    if events == [] then ""
    else Arrived(events[..|events| - 1], v) + if Carries(events[|events| - 1], v) then events[|events| - 1].text else ""
  }

  lemma {:induction false} CachedConcat(c: seq<Message>, d: seq<Message>, v: Voice)
    ensures Cached(c + d, v) == Cached(c, v) + Cached(d, v)
  {
    if d == [] {
      assert c + d == c;
    } else {
      assert (c + d)[..|c + d| - 1] == c + d[..|d| - 1];
      CachedConcat(c, d[..|d| - 1], v);
    }
  }

  lemma {:induction false} SilentTail(c: seq<Message>, v: Voice)
    requires forall i :: 0 <= i < |c| ==> !Speaks(c[i], v)
    ensures Cached(c, v) == ""
  {
    if c != [] {
      SilentTail(c[..|c| - 1], v);
    }
  }

  /** Replacing one message by another of the same voice, after which that voice is silent. */
  lemma Replaced(cache: seq<Message>, i: nat, m: Message, v: Voice)
    requires i < |cache| && (forall j :: i < j < |cache| ==> !Speaks(cache[j], v))
    ensures Cached(cache, v) == Cached(cache[..i], v) + if Speaks(cache[i], v) then cache[i].text else ""
    ensures Cached(cache[i := m], v) == Cached(cache[..i], v) + if Speaks(m, v) then m.text else ""
  {
    var tail := cache[i + 1..];
    SilentTail(tail, v);
    assert cache == cache[..i + 1] + tail && cache[i := m] == (cache[..i] + [m]) + tail;
    CachedConcat(cache[..i + 1], tail, v);
    CachedConcat(cache[..i] + [m], tail, v);
    assert cache[..i + 1][..i] == cache[..i] && (cache[..i] + [m])[..i] == cache[..i];
  }

  /** Replacing a message by one with the same voice and text changes no voice's text. */
  lemma ReplacedSame(cache: seq<Message>, i: nat, m: Message, v: Voice)
    requires i < |cache| && Speaks(m, v) == Speaks(cache[i], v) && (Speaks(m, v) ==> m.text == cache[i].text)
    ensures Cached(cache[i := m], v) == Cached(cache, v)
  {
    assert cache == cache[..i] + [cache[i]] + cache[i + 1..];
    assert cache[i := m] == cache[..i] + [m] + cache[i + 1..];
    CachedConcat(cache[..i] + [cache[i]], cache[i + 1..], v);
    CachedConcat(cache[..i] + [m], cache[i + 1..], v);
    CachedConcat(cache[..i], [cache[i]], v);
    CachedConcat(cache[..i], [m], v);
  }

  lemma CachedOneMore(cache: seq<Message>, m: Message, v: Voice)
    ensures Cached(cache + [m], v) == Cached(cache, v) + if Speaks(m, v) then m.text else ""
  {
    assert (cache + [m])[..|cache|] == cache;
  }

  lemma ChunkAddsItsText(cache: seq<Message>, ev: Event, i: nat, v: Voice)
    requires ev.phase == ExpertChunk && i == LastOf(cache, ev.expert, ev.round)
    ensures Cached(cache[i := cache[i].(text := cache[i].text + ev.text)], v)
         == Cached(cache, v) + if Carries(ev, v) then ev.text else ""
  {
    var m := cache[i].(text := cache[i].text + ev.text);
    if Carries(ev, v) {
      Replaced(cache, i, m, v);
    } else {
      ReplacedSame(cache, i, m, v);
    }
  }

  lemma SynthesisAddsItsText(cache: seq<Message>, ev: Event, v: Voice)
    requires ev.phase == SynthesisChunk
    ensures Cached(Reduce(cache, ev), v) == Cached(cache, v) + if Carries(ev, v) then ev.text else ""
  {
    if ev.text != "" {
      if cache != [] && cache[|cache| - 1].kind == Synthesis {
        var i := |cache| - 1;
        var m := cache[i].(text := cache[i].text + ev.text);
        assert Reduce(cache, ev) == cache[i := m] && cache[..i] == cache[..|cache| - 1];
        Replaced(cache, i, m, v);
        assert Speaks(m, v) == Speaks(cache[i], v) == Carries(ev, v);
      } else {
        CachedOneMore(cache, Message(Synthesis, "", 0, ev.text, true), v);
      }
    }
  }

  /** One event adds exactly its own chunk, to exactly its own voice. */
  lemma ReduceAddsItsChunk(cache: seq<Message>, ev: Event, v: Voice)
    ensures Cached(Reduce(cache, ev), v) == Cached(cache, v) + if Carries(ev, v) then ev.text else ""
  {
    var i := LastOf(cache, ev.expert, ev.round);
    if ev.phase == ExpertStart {
      CachedOneMore(cache, Message(Expert, ev.expert, ev.round, "", true), v);
    } else if ev.phase == ExpertChunk {
      if i < 0 {
        CachedOneMore(cache, Message(Expert, ev.expert, ev.round, ev.text, true), v);
      } else {
        ChunkAddsItsText(cache, ev, i, v);
      }
    } else if ev.phase == ExpertDone {
      if i >= 0 {
        ReplacedSame(cache, i, cache[i].(streaming := false), v);
      }
    } else if ev.phase == SynthesisChunk {
      SynthesisAddsItsText(cache, ev, v);
    }
  }

  /** Despite lazily created messages, repeated starts and interleaved experts: for every voice the cached
      texts, in cache order, are its chunks in arrival order. */
  lemma {:induction false} CacheKeepsEveryVoice(events: seq<Event>, v: Voice)
    ensures Cached(ReduceAll(events), v) == Arrived(events, v)
  {
    if events != [] {
      CacheKeepsEveryVoice(events[..|events| - 1], v);
      ReduceAddsItsChunk(ReduceAll(events[..|events| - 1]), events[|events| - 1], v);
    }
  }

  // ---- which messages still stream ----

  predicate Starts(ev: Event, expert: string, round: int) {
    ev.phase == ExpertStart && ev.expert == expert && ev.round == round && expert != ""
  }

  predicate Chunks(ev: Event, expert: string, round: int) {
    ev.phase == ExpertChunk && ev.expert == expert && ev.round == round
  }

  predicate Ends(ev: Event, expert: string, round: int) {
    ev.phase == ExpertDone && ev.expert == expert && ev.round == round
  }

  /** Event k begins a message of the expert's round: it is a start, or the first chunk before any start. */
  predicate Begins(events: seq<Event>, k: int, expert: string, round: int) {
    && 0 <= k < |events|
    && (Starts(events[k], expert, round)
        || (Chunks(events[k], expert, round)
            && forall j :: 0 <= j < k ==> !Starts(events[j], expert, round) && !Chunks(events[j], expert, round)))
  }

  ghost predicate Begun(events: seq<Event>, expert: string, round: int) {
    exists k :: Begins(events, k, expert, round)
  }

  /** A message was begun, and the expert was not reported done since. */
  ghost predicate Streams(events: seq<Event>, expert: string, round: int) {
    exists k :: Begins(events, k, expert, round) && forall j :: k < j < |events| ==> !Ends(events[j], expert, round)
  }

  lemma BegunOneMore(init: seq<Event>, ev: Event, expert: string, round: int)
    ensures Begun(init + [ev], expert, round) <==> Begun(init, expert, round) || Starts(ev, expert, round) || Chunks(ev, expert, round)
    ensures Streams(init + [ev], expert, round) <==>
              Starts(ev, expert, round) || (Chunks(ev, expert, round) && !Begun(init, expert, round))
              || (Streams(init, expert, round) && !Ends(ev, expert, round))
  {
    var all, n := init + [ev], |init|;
    assert forall k :: 0 <= k < n ==> all[k] == init[k];
    forall k | 0 <= k < n
      ensures Begins(all, k, expert, round) <==> Begins(init, k, expert, round)
    {}
    LastBegins(init, ev, expert, round);
    if k :| Begins(init, k, expert, round) {
      assert Begins(all, k, expert, round);
    }
    StreamsOneMore(init, ev, expert, round);
  }

  lemma LastBegins(init: seq<Event>, ev: Event, expert: string, round: int)
    ensures Begins(init + [ev], |init|, expert, round) <==>
            Starts(ev, expert, round) || (Chunks(ev, expert, round) && !Begun(init, expert, round))
  {
    var all := init + [ev];
    assert all[|init|] == ev && forall j :: 0 <= j < |init| ==> all[j] == init[j];
    FirstChunkBegins(init, expert, round);
  }

  lemma StreamsOneMore(init: seq<Event>, ev: Event, expert: string, round: int)
    ensures Streams(init + [ev], expert, round) <==>
              Begins(init + [ev], |init|, expert, round) || (Streams(init, expert, round) && !Ends(ev, expert, round))
  {
    var all, n := init + [ev], |init|;
    assert forall k :: 0 <= k < n ==> all[k] == init[k];
    forall k | 0 <= k < n
      ensures Begins(all, k, expert, round) <==> Begins(init, k, expert, round)
    {}
    assert |all| == n + 1;
    if Streams(init, expert, round) && !Ends(ev, expert, round) {
      var k :| Begins(init, k, expert, round) && forall j :: k < j < |init| ==> !Ends(init[j], expert, round);
      assert Begins(all, k, expert, round) && forall j :: k < j < |all| ==> !Ends(all[j], expert, round);
    }
    if Streams(all, expert, round) {
      var k :| Begins(all, k, expert, round) && forall j :: k < j < |all| ==> !Ends(all[j], expert, round);
      assert k < n ==> !Ends(all[n], expert, round) && forall j :: k < j < n ==> !Ends(init[j], expert, round);
    }
  }

  /** Something has begun exactly if there was a start or a chunk. */
  lemma {:induction false} FirstChunkBegins(events: seq<Event>, expert: string, round: int)
    ensures Begun(events, expert, round) <==>
            exists j :: 0 <= j < |events| && (Starts(events[j], expert, round) || Chunks(events[j], expert, round))
  {
    if events != [] {
      var init, n := events[..|events| - 1], |events| - 1;
      FirstChunkBegins(init, expert, round);
      if k :| Begins(init, k, expert, round) {
        assert Begins(events, k, expert, round);
      } else if Starts(events[n], expert, round) || Chunks(events[n], expert, round) {
        assert forall j :: 0 <= j < n ==> init[j] == events[j];
        assert Begins(events, n, expert, round);
      }
    }
  }

  lemma AppendedLast(cache: seq<Message>, m: Message, expert: string, round: int)
    ensures LastOf(cache + [m], expert, round) == if Matches(m, expert, round) then |cache| else LastOf(cache, expert, round)
  {
    assert (cache + [m])[..|cache|] == cache;
  }

  lemma ReplacedLast(cache: seq<Message>, k: nat, m: Message, expert: string, round: int)
    requires k < |cache| && Matches(m, expert, round) == Matches(cache[k], expert, round)
    ensures LastOf(cache[k := m], expert, round) == LastOf(cache, expert, round)
  {
    var c, i := cache[k := m], LastOf(cache, expert, round);
    assert forall j :: 0 <= j < |c| ==> (Matches(c[j], expert, round) <==> Matches(cache[j], expert, round));
  }

  /** What one event does to the latest message of an expert's round. */
  lemma ReduceKeepsLast(cache: seq<Message>, ev: Event, expert: string, round: int)
    ensures var i, j := LastOf(cache, expert, round), LastOf(Reduce(cache, ev), expert, round);
            && (j >= 0 <==> i >= 0 || Starts(ev, expert, round) || Chunks(ev, expert, round))
            && (j >= 0 ==> (Reduce(cache, ev)[j].streaming <==>
                  Starts(ev, expert, round) || (Chunks(ev, expert, round) && i < 0)
                  || (i >= 0 && cache[i].streaming && !Ends(ev, expert, round))))
  {
    var k := LastOf(cache, ev.expert, ev.round);
    match ev.phase
    case ExpertStart =>
      AppendedLast(cache, Message(Expert, ev.expert, ev.round, "", true), expert, round);
    case ExpertChunk =>
      if k >= 0 {
        ReplacedLast(cache, k, cache[k].(text := cache[k].text + ev.text), expert, round);
      } else {
        AppendedLast(cache, Message(Expert, ev.expert, ev.round, ev.text, true), expert, round);
      }
    case ExpertDone =>
      if k >= 0 {
        ReplacedLast(cache, k, cache[k].(streaming := false), expert, round);
      }
    case SynthesisChunk =>
      SynthesisKeepsLast(cache, ev, expert, round);
    case OtherPhase =>
  }

  lemma SynthesisKeepsLast(cache: seq<Message>, ev: Event, expert: string, round: int)
    requires ev.phase == SynthesisChunk
    ensures var i := LastOf(cache, expert, round);
            LastOf(Reduce(cache, ev), expert, round) == i && (i >= 0 ==> Reduce(cache, ev)[i] == cache[i])
  {
    if ev.text != "" {
      var n := |cache| - 1;
      if cache != [] && cache[n].kind == Synthesis {
        ReplacedLast(cache, n, cache[n].(text := cache[n].text + ev.text), expert, round);
      } else {
        AppendedLast(cache, Message(Synthesis, "", 0, ev.text, true), expert, round);
      }
    }
  }

  /** An expert has a message for a round exactly if one was begun, and the latest of them still streams exactly if
      the expert was not reported done since. */
  lemma {:induction false} StreamsExactlyIfNotDone(events: seq<Event>, expert: string, round: int)
    ensures var cache := ReduceAll(events); var i := LastOf(cache, expert, round);
            && (i >= 0 <==> Begun(events, expert, round))
            && (i >= 0 ==> (cache[i].streaming <==> Streams(events, expert, round)))
  {
    if events != [] {
      var init, ev := events[..|events| - 1], events[|events| - 1];
      StreamsExactlyIfNotDone(init, expert, round);
      assert events == init + [ev];
      BegunOneMore(init, ev, expert, round);
      ReduceKeepsLast(ReduceAll(init), ev, expert, round);
    }
  }

  // ---- the run table ----

  type RunId = nat

  datatype RunState = RunState(id: RunId, running: bool, cache: seq<Message>)

  /** The run recorded for each team, and the runs whose context was cancelled. */
  datatype Table = Table(runs: map<string, RunState>, cancelled: set<RunId>)

  /** markExpertRunStarted, markExpertRunFinished (which does not say whose run finished), the removal after its
      grace period, and cacheCollabEvent. */
  datatype Op = Start(team: string, id: RunId) | Finish(team: string) | Remove(team: string) | Collab(ev: Event)

  function Apply(t: Table, op: Op): Table {
    match op
    case Start(team, id) =>
      Table(t.runs[team := RunState(id, true, [])],
            if team in t.runs && t.runs[team].running then t.cancelled + {t.runs[team].id} else t.cancelled)
    case Finish(team) =>
      if team in t.runs then t.(runs := t.runs[team := t.runs[team].(running := false)]) else t
    case Remove(team) =>
      if team in t.runs && !t.runs[team].running then t.(runs := t.runs - {team}) else t
    case Collab(ev) =>
      if ev.team != "" && ev.team in t.runs && t.runs[ev.team].running then
        t.(runs := t.runs[ev.team := t.runs[ev.team].(cache := Reduce(t.runs[ev.team].cache, ev))])
      else t
  }

  function After(ops: seq<Op>): Table {
    if ops == [] then Table(map[], {}) else Apply(After(ops[..|ops| - 1]), ops[|ops| - 1])
  }

  /** The team's events since its latest start. */
  function SinceStart(ops: seq<Op>, team: string): seq<Event> {
    if ops == [] then []
    else
      var before, op := SinceStart(ops[..|ops| - 1], team), ops[|ops| - 1];
      if op.Start? && op.team == team then []
      else if op.Collab? && op.ev.team == team then before + [op.ev] else before
  }

  lemma ReduceOneMore(events: seq<Event>, ev: Event)
    ensures ReduceAll(events + [ev]) == Reduce(ReduceAll(events), ev)
  {
    assert (events + [ev])[..|events|] == events;
  }

  lemma {:induction false} RunningCacheIsReduced(ops: seq<Op>, team: string)
    requires team != "" && team in After(ops).runs && After(ops).runs[team].running
    ensures After(ops).runs[team].cache == ReduceAll(SinceStart(ops, team))
  {
    var init, op := ops[..|ops| - 1], ops[|ops| - 1];
    if !(op.Start? && op.team == team) {
      RunningCacheIsReduced(init, team);
      if op.Collab? && op.ev.team == team {
        ReduceOneMore(SinceStart(init, team), op.ev);
      }
    }
  }

  /** Whatever runs of whatever teams came before: a running run's cached texts are, for every voice, the chunks of
      its team's events since it was started, and nothing of an earlier run. */
  lemma CacheIsOfTheLatestRun(ops: seq<Op>, team: string, v: Voice)
    requires team != "" && team in After(ops).runs && After(ops).runs[team].running
    ensures Cached(After(ops).runs[team].cache, v) == Arrived(SinceStart(ops, team), v)
  {
    RunningCacheIsReduced(ops, team);
    CacheKeepsEveryVoice(SinceStart(ops, team), v);
  }

  predicate DistinctRuns(ops: seq<Op>) {
    forall i, j :: 0 <= i < j < |ops| && ops[i].Start? && ops[j].Start? ==> ops[i].id != ops[j].id
  }

  /** No run of the team is started in between. */
  predicate NoStart(ops: seq<Op>, k: nat, n: nat, team: string)
    requires k <= n <= |ops|
  {
    forall i :: k <= i < n ==> !(ops[i].Start? && ops[i].team == team)
  }

  predicate NoFinish(ops: seq<Op>, k: nat, n: nat, team: string)
    requires k <= n <= |ops|
  {
    forall i :: k <= i < n ==> ops[i] != Finish(team)
  }

  lemma {:induction false} CancelledWereStarted(ops: seq<Op>)
    ensures forall id :: id in After(ops).cancelled ==> exists i :: 0 <= i < |ops| && ops[i].Start? && ops[i].id == id
    ensures forall team :: team in After(ops).runs ==>
              exists i :: 0 <= i < |ops| && ops[i].Start? && ops[i].id == After(ops).runs[team].id
  {
    if ops != [] {
      var init, op := ops[..|ops| - 1], ops[|ops| - 1];
      CancelledWereStarted(init);
      var t, before := After(ops), After(init);
      forall id | id in t.cancelled
        ensures exists i :: 0 <= i < |ops| && ops[i].Start? && ops[i].id == id
      {
        var i :| 0 <= i < |init| && init[i].Start? && init[i].id == id;
        assert ops[i] == init[i];
      }
      forall team | team in t.runs
        ensures exists i :: 0 <= i < |ops| && ops[i].Start? && ops[i].id == t.runs[team].id
      {
        if op.Start? && op.team == team {
          assert ops[|init|].id == t.runs[team].id;
        } else {
          var i :| 0 <= i < |init| && init[i].Start? && init[i].id == before.runs[team].id;
          assert ops[i] == init[i];
        }
      }
    }
  }

  /** The team's entry is run id (if it was not removed), running unless it was finished, and not cancelled. */
  predicate Recorded(t: Table, team: string, id: RunId, finished: bool) {
    && (!finished ==> team in t.runs)
    && (team in t.runs ==> t.runs[team].id == id && (t.runs[team].running <==> !finished))
    && id !in t.cancelled
  }

  lemma StaysRecorded(t: Table, op: Op, team: string, id: RunId, finished: bool)
    requires Recorded(t, team, id, finished) && !(op.Start? && op.team == team) && id !in Apply(t, op).cancelled
    ensures Recorded(Apply(t, op), team, id, finished || op == Finish(team))
  {}

  lemma RecordedAtStart(ops: seq<Op>, k: nat)
    requires k < |ops| && ops[k].Start? && DistinctRuns(ops)
    ensures Recorded(After(ops[..k + 1]), ops[k].team, ops[k].id, false)
  {
    var init := ops[..k];
    assert ops[..k + 1][..k] == init && ops[..k + 1][k] == ops[k];
    CancelledWereStarted(init);
    assert forall i :: 0 <= i < k ==> init[i] == ops[i];
  }

  /** Until its team starts another run, a run is recorded (unless it was removed), it is running exactly if
      nothing finished the team's run since, and it is not cancelled. */
  lemma {:induction false} WhileRecorded(ops: seq<Op>, k: nat, n: nat)
    requires k < n <= |ops| && ops[k].Start? && DistinctRuns(ops) && NoStart(ops, k + 1, n, ops[k].team)
    ensures Recorded(After(ops[..n]), ops[k].team, ops[k].id, !NoFinish(ops, k + 1, n, ops[k].team))
  {
    if n - 1 == k {
      RecordedAtStart(ops, k);
    } else {
      WhileRecorded(ops, k, n - 1);
      assert ops[..n][..n - 1] == ops[..n - 1] && ops[..n][n - 1] == ops[n - 1];
      OtherIdsOnly(ops, k, n);
      StaysRecorded(After(ops[..n - 1]), ops[n - 1], ops[k].team, ops[k].id, !NoFinish(ops, k + 1, n - 1, ops[k].team));
    }
  }

  /** A start of another team cancels no run of this one. */
  lemma OtherIdsOnly(ops: seq<Op>, k: nat, n: nat)
    requires k + 1 < n <= |ops| && ops[k].Start? && DistinctRuns(ops) && NoStart(ops, k + 1, n, ops[k].team)
    requires ops[k].id !in After(ops[..n - 1]).cancelled
    ensures ops[k].id !in Apply(After(ops[..n - 1]), ops[n - 1]).cancelled
  {
    var init, op := ops[..n - 1], ops[n - 1];
    if op.Start? && op.team in After(init).runs {
      IdBelongsToItsTeam(init, k, op.team);
    }
  }

  /** The run recorded for a team was started for that team. */
  lemma {:induction false} IdBelongsToItsTeam(ops: seq<Op>, k: nat, team: string)
    requires k < |ops| && ops[k].Start? && DistinctRuns(ops) && team in After(ops).runs && team != ops[k].team
    ensures After(ops).runs[team].id != ops[k].id
  {
    var init, op := ops[..|ops| - 1], ops[|ops| - 1];
    if op.Start? && op.team == team {
      assert k < |ops| - 1;
    } else if k < |ops| - 1 {
      assert init[k] == ops[k];
      IdBelongsToItsTeam(init, k, team);
    } else {
      CancelledWereStarted(init);
      var i :| 0 <= i < |init| && init[i].Start? && init[i].id == After(init).runs[team].id;
      assert ops[i] == init[i];
    }
  }

  /** When a team starts another run, the one before it is cancelled if and only if nothing has finished the team's
      run since. Since a finish does not say which run finished, that of an older one counts as well. */
  lemma ReplacedRunIsCancelledExactlyIf(ops: seq<Op>, k: nat, n: nat)
    requires k < n < |ops| && ops[k].Start? && ops[n].Start? && ops[n].team == ops[k].team
    requires DistinctRuns(ops) && NoStart(ops, k + 1, n, ops[k].team)
    ensures ops[k].id in After(ops[..n + 1]).cancelled <==> NoFinish(ops, k + 1, n, ops[k].team)
  {
    WhileRecorded(ops, k, n);
    assert ops[..n + 1][..n] == ops[..n] && ops[..n + 1][n] == ops[n];
  }

  class ExpertRuns {
    var runs: map<string, RunState>
    ghost var cancelled: set<RunId>

    ghost function View(): Table
      reads this
    {
      Table(runs, cancelled)
    }

    constructor ()
      ensures View() == After([])
    {
      runs, cancelled := map[], {};
    }

    /** markExpertRunStarted: a run of the team that is still going is cancelled before it is replaced. */
    method MarkStarted(team: string, id: RunId)
      modifies this
      ensures View() == Apply(old(View()), Start(team, id))
    {
      if team in runs && runs[team].running {
        CancelRun(runs[team].id);
      }
      runs := runs[team := RunState(id, true, [])];
    }

    /** The run's cancel function: its context is done. */
    ghost method CancelRun(id: RunId)
      modifies this`cancelled
      ensures cancelled == old(cancelled) + {id}
    {
      cancelled := cancelled + {id};
    }

    /** markExpertRunFinished: the team's recorded run, whichever it is, is no longer running. */
    method MarkFinished(team: string)
      modifies this`runs
      ensures View() == Apply(old(View()), Finish(team))
    {
      if team in runs {
        runs := runs[team := runs[team].(running := false)];
      }
    }

    /** The removal after the grace period. */
    method RemoveFinished(team: string)
      modifies this`runs
      ensures View() == Apply(old(View()), Remove(team))
    {
      if team in runs && !runs[team].running {
        runs := runs - {team};
      }
    }

    /** Only the team's running run is touched; events of a finished or unknown run are dropped. */
    method CacheCollabEvent(ev: Event)
      modifies this`runs
      ensures View() == Apply(old(View()), Collab(ev))
    {
      if ev.team == "" || ev.team !in runs || !runs[ev.team].running {
        return;
      }
      var cache := runs[ev.team].cache;
      match ev.phase {
        case ExpertStart =>
          if ev.expert == "" {
            assert runs == old(runs)[ev.team := old(runs)[ev.team]];
            return;
          }
          cache := cache + [Message(Expert, ev.expert, ev.round, "", true)];
        case ExpertChunk =>
          var i := FindLast(cache, ev.expert, ev.round);
          if i >= 0 {
            cache := cache[i := cache[i].(text := cache[i].text + ev.text)];
          } else {
            cache := cache + [Message(Expert, ev.expert, ev.round, ev.text, true)];
          }
        case ExpertDone =>
          var i := FindLast(cache, ev.expert, ev.round);
          if i >= 0 {
            cache := cache[i := cache[i].(streaming := false)];
          }
        case SynthesisChunk =>
          if ev.text == "" {
            assert runs == old(runs)[ev.team := old(runs)[ev.team]];
            return;
          }
          var n := |cache|;
          if n > 0 && cache[n - 1].kind == Synthesis {
            cache := cache[n - 1 := cache[n - 1].(text := cache[n - 1].text + ev.text)];
          } else {
            cache := cache + [Message(Synthesis, "", 0, ev.text, true)];
          }
        case OtherPhase =>
      }
      runs := runs[ev.team := runs[ev.team].(cache := cache)];
    }
  }

  /** The backward scan for the message to append to. */
  method FindLast(cache: seq<Message>, expert: string, round: int) returns (i: int)
    ensures i == LastOf(cache, expert, round)
  {
    i := |cache| - 1;
    while i >= 0
      invariant -1 <= i < |cache|
      invariant forall j :: i < j < |cache| ==> !Matches(cache[j], expert, round)
    {
      if Matches(cache[i], expert, round) {
        return;
      }
      i := i - 1;
    }
  }
}
