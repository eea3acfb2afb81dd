/** The bot bridge hub: it remembers which tab every open approval or question came from, notifies watching
    chats through a bounded queue and sends a chat's reply back to that tab. */
module BotBridge {
  import opened Text
  import opened WatchPersistence
  import opened Wrappers

  datatype Prompt = Prompt(tab: string, kind: PromptKind, tool: string, subject: string, questions: seq<string>)

  datatype PromptKind = Approval | Ask

  datatype Event =
    | ApprovalRequest(id: string, tool: string, subject: string)
    | AskRequest(id: string, questions: seq<string>)
    | TurnDone(err: Option<string>)

  datatype Notification = Pending(id: string, prompt: Prompt) | Done(tab: string, err: string)

  const QUEUE_CAP := 64

  type Pending = map<string, Prompt>

  // ---- one operation on the pending table ----

  /** The prompt that an event registers under its id. An event without an id registers nothing. */
  function Registered(tab: string, e: Event): Option<Prompt> {
    match e
    case ApprovalRequest(id, tool, subject) => if id == "" then None else Some(Prompt(tab, Approval, tool, subject, []))
    case AskRequest(id, questions) => if id == "" then None else Some(Prompt(tab, Ask, "", "", questions))
    case TurnDone(_) => None
  }

  function ClearTab(p: Pending, tab: string): Pending {
    map id | id in p && p[id].tab != tab :: p[id]
  }

  function Observed(p: Pending, tab: string, e: Event): Pending {
    match e
    case TurnDone(_) => ClearTab(p, tab)
    case _ => if Registered(tab, e).Some? then p[e.id := Registered(tab, e).value] else p
  }

  /** An observed event, or a reply (Approve or Answer) for an id. */
  datatype Op = Observe(tab: string, e: Event) | Reply(id: string)

  function Apply(p: Pending, op: Op): Pending {
    match op
    case Observe(tab, e) => Observed(p, tab, e)
    case Reply(id) => p - {id}
  }

  function After(ops: seq<Op>): Pending {
    if ops == [] then map[] else Apply(After(ops[..|ops| - 1]), ops[|ops| - 1])
  }

  // ---- what the table means, in terms of the history alone ----

  ghost predicate Registers(op: Op, id: string) {
    op.Observe? && Registered(op.tab, op.e).Some? && op.e.id == id
  }

  ghost predicate Ends(op: Op, id: string, tab: string) {
    Registers(op, id) || op == Reply(id) || (op.Observe? && op.tab == tab && op.e.TurnDone?)
  }

  /** Operation k registered p under id, and nothing since has replaced it, taken it or ended its tab's turn. */
  ghost predicate LiveSince(ops: seq<Op>, id: string, p: Prompt, k: int) {
    && 0 <= k < |ops| && Registers(ops[k], id) && Registered(ops[k].tab, ops[k].e) == Some(p)
    && forall j :: k < j < |ops| ==> !Ends(ops[j], id, p.tab)
  }

  ghost predicate Live(ops: seq<Op>, id: string, p: Prompt) {
    exists k :: LiveSince(ops, id, p, k)
  }

  lemma LiveAfterOne(ops: seq<Op>, op: Op, id: string, p: Prompt)
    ensures Live(ops + [op], id, p) <==>
            (Registers(op, id) && Registered(op.tab, op.e) == Some(p)) || (Live(ops, id, p) && !Ends(op, id, p.tab))
  {
    var all := ops + [op];
    if k :| LiveSince(all, id, p, k) {
      assert all[|ops|] == op;
      if k < |ops| {
        assert all[k] == ops[k];
        assert forall j :: k < j < |ops| ==> all[j] == ops[j];
        assert LiveSince(ops, id, p, k);
      }
    }
    if Registers(op, id) && Registered(op.tab, op.e) == Some(p) {
      assert LiveSince(all, id, p, |ops|);
    }
    if !Ends(op, id, p.tab) {
      if k :| LiveSince(ops, id, p, k) {
        assert all[k] == ops[k];
        assert LiveSince(all, id, p, k);
      }
    }
  }

  /** The table holds p under id exactly when p was registered under id and is still live. */
  lemma {:induction false} PendingIsWhatIsLive(ops: seq<Op>, id: string, p: Prompt)
    ensures (id in After(ops) && After(ops)[id] == p) <==> Live(ops, id, p)
  {
    if ops != [] {
      var init, op := ops[..|ops| - 1], ops[|ops| - 1];
      assert ops == init + [op];
      LiveAfterOne(init, op, id, p);
      PendingIsWhatIsLive(init, id, p);
      if op.Observe? && Registered(op.tab, op.e).Some? && op.e.id == id {
        assert After(ops)[id] == Registered(op.tab, op.e).value;
      }
    }
  }

  // ---- the same in the words of the events ----

  /** After operation k neither a request nor a reply names the id, and the tab's turn does not end. */
  predicate Unsettled(ops: seq<Op>, k: int, id: string, tab: string) {
    forall j :: 0 <= k < j < |ops| ==>
      && ops[j] != Reply(id)
      && (ops[j].Observe? && ops[j].e.TurnDone? ==> ops[j].tab != tab)
      && (ops[j].Observe? && !ops[j].e.TurnDone? ==> ops[j].e.id != id)
  }

  /** The tab asked these questions under the id, and nothing since has settled that. */
  predicate OpenQuestion(ops: seq<Op>, id: string, tab: string, questions: seq<string>) {
    id != "" && exists k :: 0 <= k < |ops| && ops[k] == Observe(tab, AskRequest(id, questions)) && Unsettled(ops, k, id, tab)
  }

  /** The tab asked for this approval under the id, and nothing since has settled that. */
  predicate OpenApproval(ops: seq<Op>, id: string, tab: string, tool: string, subject: string) {
    id != "" && exists k :: 0 <= k < |ops| && ops[k] == Observe(tab, ApprovalRequest(id, tool, subject)) && Unsettled(ops, k, id, tab)
  }

  lemma UnsettledIsNotEnded(ops: seq<Op>, k: int, id: string, tab: string)
    requires id != "" && 0 <= k
    ensures Unsettled(ops, k, id, tab) <==> forall j :: k < j < |ops| ==> !Ends(ops[j], id, tab)
  {
    if Unsettled(ops, k, id, tab) {
      forall j | k < j < |ops|
        ensures !Ends(ops[j], id, tab)
      {}
    }
    if forall j :: k < j < |ops| ==> !Ends(ops[j], id, tab) {
      forall j | k < j < |ops|
        ensures ops[j] != Reply(id)
        ensures ops[j].Observe? && ops[j].e.TurnDone? ==> ops[j].tab != tab
        ensures ops[j].Observe? && !ops[j].e.TurnDone? ==> ops[j].e.id != id
      {
        assert !Ends(ops[j], id, tab);
      }
    }
  }

  /** A question is pending under an id, with its tab and its questions, exactly if it was asked and is open. */
  lemma AskIsPendingExactlyIfOpen(ops: seq<Op>, id: string, tab: string, questions: seq<string>)
    ensures OpenQuestion(ops, id, tab, questions) <==>
            id in After(ops) && After(ops)[id].kind == Ask && After(ops)[id].tab == tab && After(ops)[id].questions == questions
  {
    var p := Prompt(tab, Ask, "", "", questions);
    forall k | 0 <= k < |ops|
      ensures id != "" && ops[k] == Observe(tab, AskRequest(id, questions)) && Unsettled(ops, k, id, tab) <==> LiveSince(ops, id, p, k)
    {
      if id != "" {
        UnsettledIsNotEnded(ops, k, id, tab);
      }
    }
    PendingIsWhatIsLive(ops, id, p);
    if id in After(ops) {
      PromptsAreAsRegistered(ops, id);
    }
  }

  /** And an approval, with its tab, its tool and its subject. */
  lemma ApprovalIsPendingExactlyIfOpen(ops: seq<Op>, id: string, tab: string, tool: string, subject: string)
    ensures OpenApproval(ops, id, tab, tool, subject) <==>
            id in After(ops) && After(ops)[id].kind == Approval && After(ops)[id].tab == tab
            && After(ops)[id].tool == tool && After(ops)[id].subject == subject
  {
    var p := Prompt(tab, Approval, tool, subject, []);
    forall k | 0 <= k < |ops|
      ensures id != "" && ops[k] == Observe(tab, ApprovalRequest(id, tool, subject)) && Unsettled(ops, k, id, tab) <==> LiveSince(ops, id, p, k)
    {
      if id != "" {
        UnsettledIsNotEnded(ops, k, id, tab);
      }
    }
    PendingIsWhatIsLive(ops, id, p);
    if id in After(ops) {
      PromptsAreAsRegistered(ops, id);
    }
  }

  /** A question has no tool and no subject, an approval no questions. */
  lemma {:induction false} PromptsAreAsRegistered(ops: seq<Op>, id: string)
    requires id in After(ops)
    ensures var p := After(ops)[id];
            if p.kind == Ask then p.tool == "" && p.subject == "" else p.questions == []
  {
    var init := ops[..|ops| - 1];
    if id in After(init) {
      PromptsAreAsRegistered(init, id);
    }
  }

  /** TurnDone removes exactly the entries of its tab. */
  lemma TurnDoneRemovesExactlyItsTab(ops: seq<Op>, tab: string, err: Option<string>, id: string)
    ensures var before := After(ops); var after := After(ops + [Observe(tab, TurnDone(err))]);
      && (id in after <==> id in before && before[id].tab != tab)
      && (id in after ==> after[id] == before[id])
  {}

  // ---- dispatches ----

  /** The k-th operation is a reply that is sent on to a tab. */
  ghost predicate Dispatches(ops: seq<Op>, k: nat, id: string)
    requires k < |ops|
  {
    ops[k] == Reply(id) && id in After(ops[..k])
  }

  ghost function DispatchCount(ops: seq<Op>, id: string): nat {
    if ops == [] then 0
    else DispatchCount(ops[..|ops| - 1], id) + if Dispatches(ops, |ops| - 1, id) then 1 else 0
  }

  ghost function RegistrationCount(ops: seq<Op>, id: string): nat {
    if ops == [] then 0
    else RegistrationCount(ops[..|ops| - 1], id) + if Registers(ops[|ops| - 1], id) then 1 else 0
  }

  /** No id is answered more often than it was asked; an entry still pending is a registration not yet used. */
  lemma {:induction false} DispatchesAreRegistered(ops: seq<Op>, id: string)
    ensures DispatchCount(ops, id) + (if id in After(ops) then 1 else 0) <= RegistrationCount(ops, id)
  {
    if ops != [] {
      DispatchesAreRegistered(ops[..|ops| - 1], id);
    }
  }

  /** Operation j registers id, and until k the id is neither registered again nor replied to, nor does the
      turn of j's tab end. */
  ghost predicate LatestRegistration(ops: seq<Op>, j: nat, k: nat, id: string)
    requires j < k <= |ops|
  {
    && Registers(ops[j], id)
    && (forall i :: j < i < k ==> !Registers(ops[i], id) && ops[i] != Reply(id))
    && (forall i :: j < i < k && ops[i].Observe? && ops[i].e.TurnDone? ==> ops[i].tab != ops[j].tab)
  }

  /** A reply goes to the tab of the id's latest registration, and only if neither an earlier reply nor the end
      of that tab's turn came in between. */
  lemma DispatchGoesToLatestRegistration(ops: seq<Op>, k: nat, id: string)
    requires k < |ops| && ops[k] == Reply(id)
    ensures Dispatches(ops, k, id) <==> exists p :: Live(ops[..k], id, p)
    ensures Dispatches(ops, k, id) ==>
              exists j :: 0 <= j < k && LatestRegistration(ops, j, k, id) && ops[j].tab == After(ops[..k])[id].tab
  {
    var before := ops[..k];
    if id in After(before) {
      var p := After(before)[id];
      PendingIsWhatIsLive(before, id, p);
      var j :| LiveSince(before, id, p, j);
      assert forall i :: j <= i < k ==> before[i] == ops[i];
      assert forall i :: j < i < k ==> !Ends(ops[i], id, p.tab);
      assert LatestRegistration(ops, j, k, id);
    }
    if p :| Live(before, id, p) {
      PendingIsWhatIsLive(before, id, p);
    }
  }

  // ---- sessions ----

  datatype PendingInfo = PendingInfo(id: string, kind: PromptKind, tool: string)

  datatype Session = Session(tab: string, title: string, pending: seq<PendingInfo>, prompt: bool)

  /** The list names exactly the tab's pending entries, each once. */
  ghost predicate ListsTab(list: seq<PendingInfo>, p: Pending, tab: string) {
    && (forall i, j :: 0 <= i < j < |list| ==> list[i].id != list[j].id)
    && (forall i :: 0 <= i < |list| ==>
          list[i].id in p && p[list[i].id].tab == tab && list[i] == PendingInfo(list[i].id, p[list[i].id].kind, p[list[i].id].tool))
    && (forall id :: id in p && p[id].tab == tab ==> exists i :: 0 <= i < |list| && list[i].id == id)
  }

  /** Among distinct tabs, an entry appears in the session of its own tab and in no other. */
  lemma EntryAppearsUnderItsOwnTab(out: seq<Session>, p: Pending, id: string, i: nat)
    requires i < |out| && (forall j :: 0 <= j < |out| ==> ListsTab(out[j].pending, p, out[j].tab))
    requires (forall j, k :: 0 <= j < k < |out| ==> out[j].tab != out[k].tab)
    requires id in p
    ensures (exists m :: 0 <= m < |out[i].pending| && out[i].pending[m].id == id) <==> p[id].tab == out[i].tab
    ensures p[id].tab == out[i].tab ==> forall j :: 0 <= j < |out| && j != i ==>
              forall m :: 0 <= m < |out[j].pending| ==> out[j].pending[m].id != id
  {}

  /** The list for a tab shows its open questions and approvals, with their tools, and nothing else. */
  lemma ListShowsWhatIsOpen(list: seq<PendingInfo>, ops: seq<Op>, tab: string, id: string)
    requires ListsTab(list, After(ops), tab)
    ensures PendingInfo(id, Ask, "") in list <==> exists questions :: OpenQuestion(ops, id, tab, questions)
    ensures forall tool :: PendingInfo(id, Approval, tool) in list <==> exists subject :: OpenApproval(ops, id, tab, tool, subject)
  {
    forall questions
      ensures OpenQuestion(ops, id, tab, questions) ==> id in After(ops) && After(ops)[id].tab == tab && After(ops)[id].kind == Ask
    {
      AskIsPendingExactlyIfOpen(ops, id, tab, questions);
    }
    forall tool, subject
      ensures OpenApproval(ops, id, tab, tool, subject) ==>
                id in After(ops) && After(ops)[id].tab == tab && After(ops)[id].kind == Approval && After(ops)[id].tool == tool
    {
      ApprovalIsPendingExactlyIfOpen(ops, id, tab, tool, subject);
    }
    if id in After(ops) && After(ops)[id].tab == tab {
      var p := After(ops)[id];
      PromptsAreAsRegistered(ops, id);
      AskIsPendingExactlyIfOpen(ops, id, tab, p.questions);
      ApprovalIsPendingExactlyIfOpen(ops, id, tab, p.tool, p.subject);
      var i :| 0 <= i < |list| && list[i].id == id;
      assert list[i] == PendingInfo(id, p.kind, p.tool);
    }
  }

  // ---- the notification queue ----

  /** A notification offered without blocking, or one taken out by the delivering goroutine. */
  datatype QueueOp = Offer(n: Notification) | Deliver

  /** What was taken out so far, and what waits. */
  datatype Mail = Mail(delivered: seq<Notification>, queue: seq<Notification>)

  function Mailed(m: Mail, op: QueueOp): Mail {
    match op
    case Offer(n) => if |m.queue| < QUEUE_CAP then m.(queue := m.queue + [n]) else m
    case Deliver => if m.queue == [] then m else Mail(m.delivered + [m.queue[0]], m.queue[1..])
  }

  function MailAfter(ops: seq<QueueOp>): Mail {
    if ops == [] then Mail([], []) else Mailed(MailAfter(ops[..|ops| - 1]), ops[|ops| - 1])
  }

  /** The notifications that were offered when fewer than QUEUE_CAP of the accepted ones waited, in that order. */
  function Accepted(ops: seq<QueueOp>): seq<Notification> {
    if ops == [] then []
    else
      var init, op := ops[..|ops| - 1], ops[|ops| - 1];
      if op.Offer? && |Accepted(init)| - Deliveries(init) < QUEUE_CAP then Accepted(init) + [op.n] else Accepted(init)
  }

  /** How many deliveries found something to deliver. */
  function Deliveries(ops: seq<QueueOp>): nat {
    if ops == [] then 0
    else
      var init := ops[..|ops| - 1];
      Deliveries(init) + if ops[|ops| - 1].Deliver? && |Accepted(init)| > Deliveries(init) then 1 else 0
  }

  /** Never blocking loses exactly the notifications that find QUEUE_CAP others waiting; all others are delivered
      once, in the order in which they were offered, or still wait in that order. */
  lemma {:induction false} NotificationsKeepTheirOrder(ops: seq<QueueOp>)
    ensures var m := MailAfter(ops);
            && m.delivered + m.queue == Accepted(ops) && |m.delivered| == Deliveries(ops) && |m.queue| <= QUEUE_CAP
  {
    if ops != [] {
      var init, op := ops[..|ops| - 1], ops[|ops| - 1];
      NotificationsKeepTheirOrder(init);
      var m := MailAfter(init);
      if op.Offer? {
        assert m.delivered + (m.queue + [op.n]) == (m.delivered + m.queue) + [op.n];
      } else if m.queue != [] {
        assert (m.delivered + [m.queue[0]]) + m.queue[1..] == m.delivered + m.queue;
      }
    }
  }

  // ---- the hub ----

  class BotBridgeHub {
    var watchers: Watchers
    var pending: Pending
    var queue: seq<Notification>
    var disk: seq<Route>              // what persistWatchers wrote last
    var persistMu: Option<nat>        // the SetWatch call that holds it
    var calls: map<nat, Pc>           // where each SetWatch call stands
    var history: seq<Watchers>        // every version of the table; kept for the specification
    ghost var ops: seq<Op>            // what happened to the pending entries
    ghost var diskAt: nat
    ghost var failed: bool

    ghost predicate Valid()
      reads this
    {
      |queue| <= QUEUE_CAP && pending == After(ops)
    }

    /** The hub's watchers and their file, as the WatchPersistence machine has them. */
    ghost function WatchView(): Sys
      reads this
    {
      Sys(history, disk, diskAt, failed, persistMu, calls)
    }

    ghost predicate WatchValid()
      reads this
    {
      Inv(WatchView()) && WatchView().Current() == watchers
    }

    constructor (initial: seq<Route>)
      ensures Valid() && pending == map[] && queue == [] && ops == []
      ensures forall r :: r in initial ==> r.Key() in watchers
      ensures forall k :: k in watchers ==> watchers[k] in initial
      ensures (forall i, j :: 0 <= i < j < |initial| ==> initial[i].Key() != initial[j].Key()) ==>
                WatchValid() && WatchPersistence.Initial(WatchView())
    {
      watchers, pending, queue, disk, ops := map[], map[], [], initial, [];
      persistMu, calls, history, diskAt, failed := None, map[], [], 0, false;
      new;
      for i := 0 to |initial|
        invariant pending == map[] && queue == [] && ops == [] && KeyedWatchers(watchers) && disk == initial
        invariant persistMu == None && calls == map[] && diskAt == 0 && !failed
        invariant forall j :: 0 <= j < i ==> initial[j].Key() in watchers
        invariant forall k :: k in watchers ==> watchers[k] in initial
      {
        watchers := watchers[initial[i].Key() := initial[i]];
      }
      history := [watchers];
      if forall i, j :: 0 <= i < j < |initial| ==> initial[i].Key() != initial[j].Key() {
        ListsItsRoutes(initial, watchers);
      }
    }

    /** Never blocks: a notification that finds the queue full is dropped. */
    method Enqueue(n: Notification)
      requires Valid()
      modifies this`queue
      ensures Valid() && Mail([], queue) == Mailed(Mail([], old(queue)), Offer(n))
    {
      if |queue| < QUEUE_CAP {
        queue := queue + [n];
      }
    }

    /** The delivering goroutine takes the next notification. */
    method Receive() returns (n: Option<Notification>)
      requires Valid()
      modifies this`queue
      ensures Valid() && Mail(if n.Some? then [n.value] else [], queue) == Mailed(Mail([], old(queue)), Deliver)
    {
      if queue == [] {
        return None;
      }
      n := Some(queue[0]);
      queue := queue[1..];
    }

    method ClearTabPending(tab: string)
      modifies this`pending
      ensures pending == ClearTab(old(pending), tab)
    {
      var todo := pending.Keys;
      while todo != {}
        invariant todo <= old(pending).Keys && pending.Keys <= old(pending).Keys
        invariant forall id :: id in pending ==> pending[id] == old(pending)[id]
        invariant forall id :: id in old(pending) ==>
                    (id in pending <==> id in todo || old(pending)[id].tab != tab)
        decreases |todo|
      {
        var id :| id in todo;
        if id in pending && pending[id].tab == tab {
          pending := pending - {id};
        }
        todo := todo - {id};
      }
      assert pending == ClearTab(old(pending), tab);
    }

    method Observe(tab: string, e: Event)
      requires Valid()
      modifies this`pending, this`queue, this`ops
      ensures Valid() && ops == old(ops) + [Op.Observe(tab, e)] && pending == Apply(old(pending), Op.Observe(tab, e))
      ensures (e.TurnDone? && e.err.Some? && Contains(e.err.value, "context canceled")) || watchers == map[] ==> queue == old(queue)
      ensures !e.TurnDone? && watchers != map[] && |old(queue)| < QUEUE_CAP ==>
                queue == old(queue) + match e
                  case ApprovalRequest(id, tool, subject) =>
                    if id == "" then [] else [Notification.Pending(id, Prompt(tab, Approval, tool, subject, []))]
                  case AskRequest(id, questions) =>
                    if id == "" then [] else [Notification.Pending(id, Prompt(tab, Ask, "", "", questions))]
                  case _ => []
      ensures e.TurnDone? && watchers != map[] && |old(queue)| < QUEUE_CAP && !(e.err.Some? && Contains(e.err.value, "context canceled")) ==>
                queue == old(queue) + [Done(tab, if e.err.Some? then e.err.value else "")]
      ensures |old(queue)| >= QUEUE_CAP ==> queue == old(queue)
      ensures old(queue) <= queue
    {
      assert (ops + [Op.Observe(tab, e)])[..|ops|] == ops;
      ops := ops + [Op.Observe(tab, e)];
      match e
      case ApprovalRequest(id, tool, subject) =>
        var p := Prompt(tab, Approval, tool, subject, []);
        if id != "" {
          pending := pending[id := p];
        }
        if |watchers| > 0 && id != "" {
          Enqueue(Notification.Pending(id, p));
        }
      case AskRequest(id, questions) =>
        var p := Prompt(tab, Ask, "", "", questions);
        if id != "" {
          pending := pending[id := p];
        }
        if |watchers| > 0 && id != "" {
          Enqueue(Notification.Pending(id, p));
        }
      case TurnDone(err) =>
        var canceled := err.Some? && Contains(err.value, "context canceled");
        ClearTabPending(tab);
        if canceled {
          return;
        }
        if |watchers| > 0 {
          Enqueue(Done(tab, if err.Some? then err.value else ""));
        }
    }

    /** Approve and Answer: the entry is taken before the tab is called, so a second reply finds nothing.
        The result is the tab to dispatch to. */
    method Take(id: string) returns (tab: Option<string>)
      requires Valid()
      modifies this`pending, this`ops
      ensures Valid() && ops == old(ops) + [Reply(id)] && pending == Apply(old(pending), Reply(id))
      ensures tab == if id in old(pending) then Some(old(pending)[id].tab) else None
    {
      assert (ops + [Reply(id)])[..|ops|] == ops;
      ops := ops + [Reply(id)];
      if id !in pending {
        return None;
      }
      tab := Some(pending[id].tab);
      pending := pending - {id};
    }

    /** The questions open under the id, whichever tab asked them. */
    method AskQuestions(id: string) returns (questions: Option<seq<string>>)
      requires Valid()
      ensures questions.Some? <==> id in pending && pending[id].kind == Ask
      ensures questions.Some? ==> questions.value == pending[id].questions
      ensures forall qs :: questions == Some(qs) <==> exists tab :: OpenQuestion(ops, id, tab, qs)
    {
      forall tab, qs
        ensures OpenQuestion(ops, id, tab, qs) <==>
                id in pending && pending[id].kind == Ask && pending[id].tab == tab && pending[id].questions == qs
      {
        AskIsPendingExactlyIfOpen(ops, id, tab, qs);
      }
      if id !in pending || pending[id].kind != Ask {
        return None;
      }
      assert OpenQuestion(ops, id, pending[id].tab, pending[id].questions);
      return Some(pending[id].questions);
    }

    /** Groups the pending entries by tab in whatever order the table is visited, then fills every session. */
    method Sessions(sessions: seq<Session>) returns (out: seq<Session>)
      ensures |out| == |sessions|
      ensures forall i :: 0 <= i < |out| ==>
        && out[i].tab == sessions[i].tab && out[i].title == sessions[i].title
        && ListsTab(out[i].pending, pending, sessions[i].tab)
        && (out[i].prompt <==> sessions[i].prompt || exists id :: id in pending && pending[id].tab == sessions[i].tab)
    {
      var byTab := GroupByTab();
      out := sessions;
      for i := 0 to |sessions|
        invariant |out| == |sessions|
        invariant forall j :: i <= j < |out| ==> out[j] == sessions[j]
        invariant forall j :: 0 <= j < i ==>
          && out[j].tab == sessions[j].tab && out[j].title == sessions[j].title
          && ListsTab(out[j].pending, pending, sessions[j].tab)
          && (out[j].prompt <==> sessions[j].prompt || exists id :: id in pending && pending[id].tab == sessions[j].tab)
      {
        var tab := out[i].tab;
        var list := if tab in byTab then byTab[tab] else [];
        out := out[i := out[i].(pending := list, prompt := out[i].prompt || tab in byTab)];
      }
    }

    method GroupByTab() returns (byTab: map<string, seq<PendingInfo>>)
      ensures forall tab :: tab in byTab <==> exists id :: id in pending && pending[id].tab == tab
      ensures forall tab :: tab in byTab ==> ListsTab(byTab[tab], pending, tab)
    {
      byTab := map[];
      var todo := pending.Keys;
      while todo != {}
        invariant todo <= pending.Keys
        invariant forall tab :: tab in byTab <==> exists id :: id in pending && id !in todo && pending[id].tab == tab
        invariant forall tab :: tab in byTab ==> ListsTab(byTab[tab], pending - todo, tab)
        decreases |todo|
      {
        var id :| id in todo;
        var p := pending[id];
        var before := if p.tab in byTab then byTab[p.tab] else [];
        ghost var seen := pending - todo;
        assert ListsTab(before, seen, p.tab);
        byTab := byTab[p.tab := before + [PendingInfo(id, p.kind, p.tool)]];
        todo := todo - {id};
        assert pending - todo == seen[id := p];
        ListsOneMore(before, seen, id, p);
        forall tab | tab in byTab && tab != p.tab
          ensures ListsTab(byTab[tab], pending - todo, tab)
        {
          ListsOther(byTab[tab], seen, id, p, tab);
        }
      }
      assert pending - {} == pending;
    }

    method Watching(route: Route) returns (r: bool)
      ensures r <==> route.Key() in watchers
    {
      r := route.Key() in watchers;
    }

    // ---- SetWatch, with other SetWatch calls in between ----

    /** Any steps of other calls, none if quiet. Callers may rely on the postconditions only, which every run of
        other calls' steps meets (OthersRun). */
    method Others(ghost start: Sys, ghost me: nat, ghost quiet: bool)
      requires WatchValid() && WatchPersistence.Reaches(start, WatchView())
      modifies this`watchers, this`disk, this`persistMu, this`calls, this`history, this`diskAt, this`failed
      ensures WatchValid() && WatchPersistence.Reaches(start, WatchView())
      ensures Untouched(old(WatchView()), WatchView(), me)
      ensures quiet ==> WatchView() == old(WatchView())
    {}

    /** What steps of other calls leave alone. */
    static ghost predicate Untouched(s: Sys, e: Sys, me: nat) {
      && (me in s.calls <==> me in e.calls) && (me in s.calls ==> s.calls[me] == e.calls[me])
      && (s.persistMu == Some(me) <==> e.persistMu == Some(me))
      && (s.persistMu == Some(me) ==> s.disk == e.disk && s.diskAt == e.diskAt && s.failed == e.failed)
      && s.history <= e.history && s.diskAt <= e.diskAt
    }

    /** A step of one call leaves the others alone. */
    static ghost predicate OthersUntouched(s: Sys, e: Sys, c: nat) {
      forall me :: me != c ==> Untouched(s, e, me)
    }

    /** Bookkeeping of one step: the code has just changed the fields as the step says. */
    ghost method Took(start: Sys, before: Sys, st: WatchPersistence.Step)
      requires WatchPersistence.Reaches(start, before) && Inv(before) && Enabled(before, st)
      requires Next(before, st).(diskAt := diskAt, failed := failed) == WatchView()
      modifies this`diskAt, this`failed
      ensures WatchView() == Next(before, st) && Inv(WatchView()) && WatchPersistence.Reaches(start, WatchView())
    {
      diskAt, failed := Next(before, st).diskAt, Next(before, st).failed;
      StepKeepsInv(before, st);
      WatchPersistence.ReachesOneMore(start, before, st);
    }

    method Toggle(route: Route, enable: bool) returns (changed: bool)
      modifies this`watchers
      ensures watchers == Toggled(old(watchers), route, enable) && (changed <==> watchers != old(watchers))
      ensures route.Key() in watchers <==> enable
    {
      var key := route.Key();
      changed := false;
      if enable {
        if key !in watchers {
          watchers := watchers[key := route];
          changed := true;
        }
      } else {
        if key in watchers {
          watchers := watchers - {key};
          changed := true;
        }
      }
      assert (key in watchers) != (key in old(watchers)) <==> changed;
    }

    /** Under the hub's mutex: the table is changed, unless it is already as wanted. */
    method ChangeTable(ghost start: Sys, me: nat, route: Route, enable: bool) returns (changed: bool)
      requires WatchValid() && WatchPersistence.Reaches(start, WatchView()) && me !in calls
      modifies this`watchers, this`calls, this`history, this`diskAt, this`failed
      ensures WatchValid() && WatchPersistence.Reaches(start, WatchView())
      ensures watchers == Toggled(old(watchers), route, enable) && (changed <==> watchers != old(watchers))
      ensures (route.Key() in watchers <==> enable) && old(history) <= history
      ensures me in calls && calls[me] == if changed then Wanting else Returned
    {
      ghost var before := WatchView();
      changed := Toggle(route, enable);
      RecordChange(start, before, me, route, enable, changed);
    }

    /** The table was toggled, which changed it or did not: where the call goes on, and the version it made. */
    method RecordChange(ghost start: Sys, ghost before: Sys, me: nat, ghost route: Route, ghost enable: bool, changed: bool)
      requires WatchPersistence.Reaches(start, before) && Inv(before) && before == WatchView() && me !in calls
      requires watchers == Toggled(before.Current(), route, enable) && (changed <==> watchers != before.Current())
      modifies this`calls, this`history, this`diskAt, this`failed
      ensures WatchValid() && WatchPersistence.Reaches(start, WatchView()) && old(history) <= history
      ensures me in calls && calls[me] == if changed then Wanting else Returned
    {
      ChangeStep(before, me, route, enable);
      calls := calls[me := if changed then Wanting else Returned];
      if changed {
        history := history + [watchers];
      }
      Took(start, before, Change(me, route, enable));
    }

    method LockPersist(ghost start: Sys, me: nat)
      requires WatchValid() && WatchPersistence.Reaches(start, WatchView())
      requires persistMu == None && me in calls && calls[me] == Wanting
      modifies this`persistMu, this`calls, this`diskAt, this`failed
      ensures WatchValid() && WatchPersistence.Reaches(start, WatchView())
      ensures WatchView() == Next(old(WatchView()), Lock(me))
    {
      ghost var before := WatchView();
      persistMu, calls := Some(me), calls[me := Holding];
      Took(start, before, Lock(me));
    }

    /** The routes of the table, each once, in whatever order the table is visited. */
    method ListTable() returns (snap: seq<Route>)
      requires KeyedWatchers(watchers)
      ensures Lists(snap, watchers)
    {
      snap := [];
      var todo := watchers.Keys;
      while todo != {}
        invariant todo <= watchers.Keys
        invariant forall i, j :: 0 <= i < j < |snap| ==> snap[i] != snap[j]
        invariant forall r :: r in snap <==> r.Key() in watchers && r.Key() !in todo && watchers[r.Key()] == r
        decreases |todo|
      {
        var k :| k in todo;
        snap := snap + [watchers[k]];
        todo := todo - {k};
      }
      forall r
        ensures r in snap <==> r in watchers.Values
      {}
    }

    /** Under both mutexes: a snapshot of the table as it is now. */
    method TakeSnapshot(ghost start: Sys, me: nat)
      requires WatchValid() && WatchPersistence.Reaches(start, WatchView())
      requires me in calls && calls[me] == Holding
      modifies this`calls, this`diskAt, this`failed
      ensures WatchValid() && WatchPersistence.Reaches(start, WatchView())
      ensures exists snap :: Lists(snap, watchers) && WatchView() == Next(old(WatchView()), Snap(me, snap))
      ensures OthersUntouched(old(WatchView()), WatchView(), me)
    {
      ghost var before := WatchView();
      assert KeyedWatchers(before.Current());
      var snap := ListTable();
      calls := calls[me := Snapped(snap, |history| - 1)];
      Took(start, before, Snap(me, snap));
      LeavesOthers(before, Snap(me, snap));
    }

    method WriteSnapshot(ghost start: Sys, me: nat, writeOk: bool)
      requires WatchValid() && WatchPersistence.Reaches(start, WatchView())
      requires me in calls && calls[me].Snapped?
      modifies this`disk, this`calls, this`diskAt, this`failed
      ensures WatchValid() && WatchPersistence.Reaches(start, WatchView())
      ensures WatchView() == Next(old(WatchView()), Write(me, writeOk))
      ensures OthersUntouched(old(WatchView()), WatchView(), me)
    {
      ghost var before := WatchView();
      if writeOk {
        disk := calls[me].list;
      }
      calls := calls[me := Written];
      Took(start, before, Write(me, writeOk));
      LeavesOthers(before, Write(me, writeOk));
    }

    method UnlockPersist(ghost start: Sys, me: nat)
      requires WatchValid() && WatchPersistence.Reaches(start, WatchView())
      requires me in calls && calls[me] == Written
      modifies this`persistMu, this`calls, this`diskAt, this`failed
      ensures WatchValid() && WatchPersistence.Reaches(start, WatchView())
      ensures WatchView() == Next(old(WatchView()), Unlock(me)) && persistMu == None
      ensures OthersUntouched(old(WatchView()), WatchView(), me)
    {
      ghost var before := WatchView();
      persistMu, calls := None, calls[me := Returned];
      Took(start, before, Unlock(me));
      LeavesOthers(before, Unlock(me));
    }

    /** A call that holds the file's mutex goes through the rest of its critical section. */
    method FinishCritical(ghost start: Sys, c: nat)
      requires WatchValid() && WatchPersistence.Reaches(start, WatchView()) && persistMu == Some(c)
      modifies this`disk, this`persistMu, this`calls, this`diskAt, this`failed
      ensures WatchValid() && WatchPersistence.Reaches(start, WatchView())
      ensures persistMu == None && OthersUntouched(old(WatchView()), WatchView(), c)
    {
      ghost var before := WatchView();
      FinishSnapshot(start, c);
      ghost var snapped := WatchView();
      FinishWrite(start, c);
      UntouchedTwice(before, snapped, WatchView(), c);
    }

    method FinishSnapshot(ghost start: Sys, c: nat)
      requires WatchValid() && WatchPersistence.Reaches(start, WatchView()) && persistMu == Some(c)
      modifies this`calls, this`diskAt, this`failed
      ensures WatchValid() && WatchPersistence.Reaches(start, WatchView())
      ensures c in calls && (calls[c].Snapped? || calls[c] == Written)
      ensures OthersUntouched(old(WatchView()), WatchView(), c)
    {
      if calls[c] == Holding {
        TakeSnapshot(start, c);
      }
    }

    method FinishWrite(ghost start: Sys, c: nat)
      requires WatchValid() && WatchPersistence.Reaches(start, WatchView())
      requires c in calls && (calls[c].Snapped? || calls[c] == Written)
      modifies this`disk, this`persistMu, this`calls, this`diskAt, this`failed
      ensures WatchValid() && WatchPersistence.Reaches(start, WatchView())
      ensures persistMu == None && OthersUntouched(old(WatchView()), WatchView(), c)
    {
      if calls[c].Snapped? {
        WriteSnapshot(start, c, true);
      }
      UnlockPersist(start, c);
    }

    /** Waits for the file's mutex. Whoever holds it can always go on to the end of its critical section. */
    method AwaitPersist(ghost start: Sys, me: nat, ghost quiet: bool)
      requires WatchValid() && WatchPersistence.Reaches(start, WatchView())
      requires me in calls && calls[me] == Wanting
      modifies this`watchers, this`disk, this`persistMu, this`calls, this`history, this`diskAt, this`failed
      ensures WatchValid() && WatchPersistence.Reaches(start, WatchView())
      ensures persistMu == None && Untouched(old(WatchView()), WatchView(), me)
      ensures quiet && old(persistMu) == None ==> WatchView() == old(WatchView())
    {
      Others(start, me, quiet);
      if persistMu.Some? {
        ghost var c := persistMu.value;
        ghost var s := WatchView();
        assert Critical(calls[c]);
        FinishCritical(start, persistMu.value);
        assert Untouched(s, WatchView(), me);
      }
    }

    /** A snapshot of the table, once the mutex is held. It is at least as new as the table was before. */
    method Snapshot(ghost start: Sys, me: nat, ghost quiet: bool)
      requires WatchValid() && WatchPersistence.Reaches(start, WatchView())
      requires me in calls && calls[me] == Holding
      modifies this`watchers, this`disk, this`persistMu, this`calls, this`history, this`diskAt, this`failed
      ensures WatchValid() && WatchPersistence.Reaches(start, WatchView())
      ensures me in calls && calls[me].Snapped? && calls[me].at >= |old(history)| - 1 && old(history) <= history
      ensures quiet ==> history == old(history) && disk == old(disk)
    {
      assert Critical(calls[me]);
      Others(start, me, quiet);
      TakeSnapshot(start, me);
      assert Critical(calls[me]);
      Others(start, me, quiet);
    }

    /** The write, and the end of the call. */
    method WriteAndUnlock(ghost start: Sys, me: nat, writeOk: bool, ghost quiet: bool)
      requires WatchValid() && WatchPersistence.Reaches(start, WatchView())
      requires me in calls && calls[me].Snapped?
      modifies this`watchers, this`disk, this`persistMu, this`calls, this`history, this`diskAt, this`failed
      ensures WatchValid() && WatchPersistence.Reaches(start, WatchView())
      ensures me in calls && calls[me] == Returned && old(history) <= history
      ensures if writeOk then disk == old(calls[me].list) && diskAt == old(calls[me].at) else disk == old(disk) && diskAt == old(diskAt)
      ensures quiet ==> history == old(history)
    {
      WriteSnapshot(start, me, writeOk);
      UnlockAmongOthers(start, me, quiet);
    }

    method UnlockAmongOthers(ghost start: Sys, me: nat, ghost quiet: bool)
      requires WatchValid() && WatchPersistence.Reaches(start, WatchView())
      requires me in calls && calls[me] == Written
      modifies this`watchers, this`disk, this`persistMu, this`calls, this`history, this`diskAt, this`failed
      ensures WatchValid() && WatchPersistence.Reaches(start, WatchView())
      ensures me in calls && calls[me] == Returned && old(history) <= history
      ensures disk == old(disk) && diskAt == old(diskAt)
      ensures quiet ==> history == old(history)
    {
      assert Critical(calls[me]);
      Others(start, me, quiet);
      UnlockPersist(start, me);
    }

    /** persistSnapshot: a successful write leaves a version on disk that is at least as new as the table was when
        the call began. */
    method PersistSnapshot(ghost start: Sys, me: nat, writeOk: bool, ghost quiet: bool) returns (ok: bool)
      requires WatchValid() && WatchPersistence.Reaches(start, WatchView())
      requires me in calls && calls[me] == Wanting
      modifies this`watchers, this`disk, this`persistMu, this`calls, this`history, this`diskAt, this`failed
      ensures WatchValid() && WatchPersistence.Reaches(start, WatchView())
      ensures me in calls && calls[me] == Returned && ok == writeOk && old(history) <= history
      ensures ok ==> diskAt >= |old(history)| - 1
      ensures quiet && old(persistMu) == None ==> history == old(history) && (!ok ==> disk == old(disk))
    {
      AwaitPersist(start, me, quiet);
      LockPersist(start, me);
      Snapshot(start, me, quiet);
      WriteAndUnlock(start, me, writeOk, quiet);
      ok := writeOk;
    }

    /** The first half of SetWatch: the change is made, in the version of the table named, or found made. */
    method MakeChange(ghost start: Sys, me: nat, route: Route, enable: bool, ghost quiet: bool) returns (changed: bool, ghost version: nat)
      requires WatchValid() && WatchPersistence.Reaches(start, WatchView()) && me !in calls
      modifies this`watchers, this`disk, this`persistMu, this`calls, this`history, this`diskAt, this`failed
      ensures WatchValid() && WatchPersistence.Reaches(start, WatchView())
      ensures me in calls && calls[me] == if changed then Wanting else Returned
      ensures old(history) <= history && version == |history| - 1 && (route.Key() in history[version] <==> enable)
      ensures quiet ==> watchers == Toggled(old(watchers), route, enable) && (changed <==> watchers != old(watchers))
      ensures quiet ==> disk == old(disk) && persistMu == old(persistMu)
    {
      Others(start, me, quiet);
      changed := ChangeTable(start, me, route, enable);
      version := |history| - 1;
    }

    /** SetWatch, as call me: steps of the WatchPersistence machine with steps of other calls in between. The change
        is made, or found made, in some version of the table from then on; if it is made and the call returns without
        an error, the version on disk is at least as new. If no other call is made meanwhile (quiet), the table is
        toggled and the disk lists it. */
    method SetWatch(me: nat, route: Route, enable: bool, writeOk: bool, ghost quiet: bool)
      returns (ok: bool, ghost version: nat, ghost changed: bool)
      requires WatchValid() && me !in calls
      modifies this`watchers, this`disk, this`persistMu, this`calls, this`history, this`diskAt, this`failed
      ensures WatchValid() && WatchPersistence.Reaches(old(WatchView()), WatchView())
      ensures me in calls && calls[me] == Returned
      ensures |old(history)| - 1 <= version < |history| && (route.Key() in history[version] <==> enable)
      ensures (ok <==> !changed || writeOk) && (changed && ok ==> diskAt >= version)
      ensures quiet && old(persistMu) == None ==>
                watchers == Toggled(old(watchers), route, enable) && (changed <==> watchers != old(watchers))
      ensures quiet && old(persistMu) == None ==> if changed && ok then Lists(disk, watchers) else disk == old(disk)
    {
      ghost var start := WatchView();
      WatchPersistence.ReachesSelf(start);
      var toPersist;
      toPersist, version := MakeChange(start, me, route, enable, quiet);
      changed := toPersist;
      if !toPersist {
        return true, version, changed;
      }
      ok := PersistChange(start, me, writeOk, quiet);
    }

    /** The second half of SetWatch. */
    method PersistChange(ghost start: Sys, me: nat, writeOk: bool, ghost quiet: bool) returns (ok: bool)
      requires WatchValid() && WatchPersistence.Reaches(start, WatchView())
      requires me in calls && calls[me] == Wanting
      modifies this`watchers, this`disk, this`persistMu, this`calls, this`history, this`diskAt, this`failed
      ensures WatchValid() && WatchPersistence.Reaches(start, WatchView())
      ensures me in calls && calls[me] == Returned && ok == writeOk && old(history) <= history
      ensures ok ==> diskAt >= |old(history)| - 1
      ensures quiet && old(persistMu) == None ==> watchers == old(watchers)
      ensures quiet && old(persistMu) == None ==> if ok then Lists(disk, watchers) else disk == old(disk)
    {
      ok := PersistSnapshot(start, me, writeOk, quiet);
      if quiet && ok && diskAt >= |history| - 1 {
        NewestIsListed(WatchView());
      }
    }
  }

  lemma LeavesOthers(s: Sys, st: WatchPersistence.Step)
    requires Inv(s) && Enabled(s, st)
    ensures BotBridgeHub.OthersUntouched(s, Next(s, st), st.call)
  {
    forall me | me != st.call
      ensures BotBridgeHub.Untouched(s, Next(s, st), me)
    {
      StepIsNotMine(s, st, me);
    }
  }

  lemma ChangeStep(s: Sys, me: nat, route: Route, enable: bool)
    requires |s.history| > 0 && me !in s.calls
    ensures var w := Toggled(s.Current(), route, enable);
      var e := Next(s, Change(me, route, enable));
      e == if w == s.Current() then s.(calls := s.calls[me := Returned])
           else s.(history := s.history + [w], calls := s.calls[me := Wanting])
  {}

  lemma UntouchedTwice(s: Sys, m: Sys, e: Sys, c: nat)
    requires BotBridgeHub.OthersUntouched(s, m, c) && BotBridgeHub.OthersUntouched(m, e, c)
    ensures BotBridgeHub.OthersUntouched(s, e, c)
  {
    forall me | me != c
      ensures BotBridgeHub.Untouched(s, e, me)
    {
      assert BotBridgeHub.Untouched(s, m, me) && BotBridgeHub.Untouched(m, e, me);
    }
  }

  /** So every run of other calls' steps leaves what call me relies on. */
  lemma {:induction false} OthersRun(s: Sys, run: seq<WatchPersistence.Step>, me: nat)
    requires Inv(s) && Legal(s, run) && forall st :: st in run ==> st.call != me
    ensures BotBridgeHub.Untouched(s, Exec(s, run), me)
    decreases |run|
  {
    if run != [] {
      assert run[0] in run;
      var m := Next(s, run[0]);
      StepIsNotMine(s, run[0], me);
      StepKeepsInv(s, run[0]);
      OthersRun(m, run[1..], me);
      assert BotBridgeHub.Untouched(s, m, me) && BotBridgeHub.Untouched(m, Exec(m, run[1..]), me);
    }
  }

  lemma NewestIsListed(s: Sys)
    requires Inv(s) && s.diskAt >= |s.history| - 1
    ensures Lists(s.disk, s.Current())
  {}

  lemma ListsOneMore(list: seq<PendingInfo>, p: Pending, id: string, prompt: Prompt)
    requires ListsTab(list, p, prompt.tab) && id !in p
    ensures ListsTab(list + [PendingInfo(id, prompt.kind, prompt.tool)], p[id := prompt], prompt.tab)
  {
    var list' := list + [PendingInfo(id, prompt.kind, prompt.tool)];
    assert list'[|list|].id == id;
    forall x | x in p && p[x].tab == prompt.tab
      ensures exists i :: 0 <= i < |list'| && list'[i].id == x
    {
      var i :| 0 <= i < |list| && list[i].id == x;
      assert list'[i].id == x;
    }
  }

  lemma ListsOther(list: seq<PendingInfo>, p: Pending, id: string, prompt: Prompt, tab: string)
    requires ListsTab(list, p, tab) && id !in p && tab != prompt.tab
    ensures ListsTab(list, p[id := prompt], tab)
  {}

  /** A step of one call leaves the others alone. */
  lemma StepIsNotMine(s: Sys, st: WatchPersistence.Step, me: nat)
    requires Inv(s) && Enabled(s, st) && st.call != me
    ensures BotBridgeHub.Untouched(s, Next(s, st), me)
  {
    if !st.Change? {
      CriticalStepKeepsInv(s, st);
    }
  }

  /** Routes with different keys are listed by the table made of them. */
  lemma ListsItsRoutes(list: seq<Route>, w: Watchers)
    requires forall i, j :: 0 <= i < j < |list| ==> list[i].Key() != list[j].Key()
    requires KeyedWatchers(w) && (forall r :: r in list ==> r.Key() in w) && (forall k :: k in w ==> w[k] in list)
    ensures Lists(list, w)
  {
    forall r | r in list
      ensures r in w.Values
    {
      var other := w[r.Key()];
      assert other in list && other.Key() == r.Key();
      var i :| 0 <= i < |list| && list[i] == r;
      var j :| 0 <= j < |list| && list[j] == other;
      assert i == j;
    }
  }
}
