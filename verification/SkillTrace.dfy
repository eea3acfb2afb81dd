/** The steps a recorded trace turns into, and the draft written from them. */
module SkillTrace {
  import opened Text
  import opened SkillDraft

  datatype Event = Event(kind: string, selector: string, name: string, value: string, url: string, password: bool)

  datatype Step = Step(op: string, target: string, value: string)

  const MAX_LABEL: nat := 20
  const MAX_INT := 0x7fff_ffff_ffff_ffff

  // ---- numbers and words ----

  function Decimal(n: nat): string {
    if n < 10 then [('0' as int + n) as char] else Decimal(n / 10) + [('0' as int + n % 10) as char]
  }

  predicate IsDigit(c: char) { '0' <= c <= '9' }

  function DigitsValue(s: string): nat
    requires forall i :: 0 <= i < |s| ==> IsDigit(s[i])
  {
    if s == "" then 0
    else
      assert IsDigit(s[|s| - 1]);
      10 * DigitsValue(s[..|s| - 1]) + (s[|s| - 1] as int - '0' as int)
  }

  /** The number a text stands for if strconv.Atoi reads a positive one, else 0. */
  function PositiveAtoi(s: string): nat {
    var digits := if s != "" && s[0] == '+' then s[1..] else s;
    if digits != "" && forall i :: 0 <= i < |digits| ==> IsDigit(digits[i]) then
      var n := DigitsValue(digits);
      if n <= MAX_INT then n else 0
    else 0
  }

  function WordEnd(s: string): (n: nat)
    ensures n <= |s|
  {
    if s == "" || IsSpace(s[0]) then 0 else 1 + WordEnd(s[1..])
  }

  /** strings.Fields. */
  function Fields(s: string): seq<string>
    decreases |s|
  {
    var t := TrimLeft(s);
    if t == "" then [] else [t[..WordEnd(t)]] + Fields(t[WordEnd(t)..])
  }

  // ---- one event ----

  /** multiAnchorTarget: the visible label is added as a fallback anchor when it is short and says more. */
  function MultiAnchorTarget(selector: string, name: string): string {
    var shown := TrimSpace(name);
    if shown == "" || |shown| > MAX_LABEL || shown == selector then selector
    else selector + ";;text=" + shown
  }

  function ScrollStep(value: string): Step {
    var fields := Fields(value);
    var screens := if |fields| > 1 then PositiveAtoi(fields[1]) else 0;
    Step("scroll", if fields == [] then "down" else fields[0], if screens == 0 then "3" else Decimal(screens))
  }

  const ASK_PASSWORD := "请在浏览器中输入密码并提交"
  const UNNAMED := "该输入框"

  function AskHuman(name: string): string {
    "请在浏览器中完成「" + (if TrimSpace(name) == "" then UNNAMED else TrimSpace(name)) + "」（验证码类输入）并提交"
  }

  /** The steps of one event: one, or none. human says which input fields only a person can fill in. */
  function StepsOf(ev: Event, human: (string, string) -> bool): (steps: seq<Step>)
    ensures |steps| <= 1
  {
    match ev.kind
    case "navigate" => [Step("navigate", ev.url, "")]
    case "click" => if ev.password then [] else [Step("click", MultiAnchorTarget(ev.selector, ev.name), "")]
    case "input" =>
      if ev.password then [Step("human", "", ASK_PASSWORD)]
      else if human(ev.name, ev.selector) then [Step("human", "", AskHuman(ev.name))]
      else [Step("type", MultiAnchorTarget(ev.selector, ev.name), ev.value)]
    case "hover" => [Step("hover", MultiAnchorTarget(ev.selector, ""), "")]
    case "change" => [Step("select", ev.selector, ev.value)]
    case "scroll" => [ScrollStep(ev.value)]
    case "submit" => [Step("key", ev.selector, "enter")]
    case _ => []
  }

  function TraceSteps(events: seq<Event>, human: (string, string) -> bool): seq<Step> {
    if events == [] then []
    else TraceSteps(events[..|events| - 1], human) + StepsOf(events[|events| - 1], human)
  }

  function Row(n: nat, s: Step): string {
    "| " + Decimal(n) + " | " + s.op + " | `" + s.target + "` | " + s.value + " |\n"
  }

  function Rows(steps: seq<Step>): string {
    if steps == [] then "" else Rows(steps[..|steps| - 1]) + Row(|steps|, steps[|steps| - 1])
  }

  // ---- the draft ----

  /** naiveSkillDraft: the rows are numbered from one without gaps, in the order of the events. */
  method NaiveSkillDraft(hint: string, events: seq<Event>, human: (string, string) -> bool)
      returns (name: string, content: string)
    ensures name == DraftName(hint)
    ensures content == DraftContent(hint, Rows(TraceSteps(events, human)))
    ensures ValidateSave(content).Ok?
    ensures SplitFrontmatter(content).Ok? && FrontmatterValue(SplitFrontmatter(content).value.0, "name") == name
  {
    name := DraftName(hint);
    var rows := TraceRows(events, human);
    content := DraftContent(hint, rows);
    EveryDraftIsSavable(hint, rows);
  }

  /** The row loop of naiveSkillDraft. */
  method TraceRows(events: seq<Event>, human: (string, string) -> bool) returns (rows: string)
    ensures rows == Rows(TraceSteps(events, human))
  {
    rows := "";
    var n := 0;
    for i := 0 to |events|
      invariant n == |TraceSteps(events[..i], human)| && rows == Rows(TraceSteps(events[..i], human))
    {
      var steps := StepsOf(events[i], human);
      AddsSteps(events, i, steps, human);
      if steps != [] {
        n := n + 1;
        rows := rows + Row(n, steps[0]);
      }
    }
    assert events[..|events|] == events;
  }

  lemma AddsSteps(events: seq<Event>, i: nat, steps: seq<Step>, human: (string, string) -> bool)
    requires i < |events| && steps == StepsOf(events[i], human)
    ensures TraceSteps(events[..i + 1], human) == TraceSteps(events[..i], human) + steps
    ensures steps == [] ==> Rows(TraceSteps(events[..i + 1], human)) == Rows(TraceSteps(events[..i], human))
    ensures steps != [] ==> Rows(TraceSteps(events[..i + 1], human)) ==
                            Rows(TraceSteps(events[..i], human)) + Row(|TraceSteps(events[..i], human)| + 1, steps[0])
  {
    assert events[..i + 1][..i] == events[..i];
    var before := TraceSteps(events[..i], human);
    assert TraceSteps(events[..i + 1], human) == before + steps;
    if steps == [] {
      assert before + steps == before;
    } else {
      assert steps == [steps[0]];
      AddsRow(before, steps[0]);
    }
  }

  lemma AddsRow(steps: seq<Step>, s: Step)
    ensures Rows(steps + [s]) == Rows(steps) + Row(|steps| + 1, s)
  {
    var more := steps + [s];
    assert more != [] && more[..|more| - 1] == steps && more[|more| - 1] == s;
  }

  // ---- every row comes from its event ----

  /** The selector alone, or with the trimmed label if that is short and is not the selector itself. */
  predicate Anchors(target: string, selector: string, name: string) {
    var shown := TrimSpace(name);
    target == if shown != "" && |shown| <= 20 && shown != selector then selector + ";;text=" + shown else selector
  }

  /** The row that an event gives. */
  predicate Gives(ev: Event, s: Step, human: (string, string) -> bool) {
    || (ev.kind == "navigate" && s == Step("navigate", ev.url, ""))
    || (ev.kind == "click" && !ev.password && s.op == "click" && Anchors(s.target, ev.selector, ev.name) && s.value == "")
    || (ev.kind == "input" && ev.password && s == Step("human", "", "请在浏览器中输入密码并提交"))
    || (ev.kind == "input" && !ev.password && human(ev.name, ev.selector) && s.op == "human" && s.target == ""
        && s.value == "请在浏览器中完成「" + (if TrimSpace(ev.name) == "" then "该输入框" else TrimSpace(ev.name)) + "」（验证码类输入）并提交")
    || (ev.kind == "input" && !ev.password && !human(ev.name, ev.selector) && s.op == "type"
        && Anchors(s.target, ev.selector, ev.name) && s.value == ev.value)
    || (ev.kind == "hover" && s == Step("hover", ev.selector, ""))
    || (ev.kind == "change" && s == Step("select", ev.selector, ev.value))
    || (ev.kind == "scroll" && s == ScrollStep(ev.value))
    || (ev.kind == "submit" && s == Step("key", ev.selector, "enter"))
  }

  /** Clicks into password fields and events of other kinds give no row. */
  predicate GivesNone(ev: Event) {
    || (ev.kind == "click" && ev.password)
    || ev.kind !in {"navigate", "click", "input", "hover", "change", "scroll", "submit"}
  }

  lemma TargetAnchors(selector: string, name: string)
    ensures Anchors(MultiAnchorTarget(selector, name), selector, name) && MultiAnchorTarget(selector, "") == selector
  {}

  lemma EventGivesItsRow(ev: Event, human: (string, string) -> bool)
    ensures if GivesNone(ev) then StepsOf(ev, human) == [] else |StepsOf(ev, human)| == 1 && Gives(ev, StepsOf(ev, human)[0], human)
  {
    TargetAnchors(ev.selector, ev.name);
  }

  /** Strictly increasing positions in a list of n. */
  predicate Rising(at: seq<nat>, n: nat) {
    && (forall k :: 0 <= k < |at| ==> at[k] < n)
    && (forall k, l :: 0 <= k < l < |at| ==> at[k] < at[l])
  }

  /** Row k is what event at[k] gives, and the events in between give none. */
  predicate Follow(rows: seq<Step>, events: seq<Event>, human: (string, string) -> bool, at: seq<nat>) {
    && Rising(at, |events|) && |at| == |rows|
    && (forall k :: 0 <= k < |at| ==> Gives(events[at[k]], rows[k], human))
    && (forall j :: 0 <= j < |events| && j !in at ==> GivesNone(events[j]))
  }

  lemma OneMoreRow(rows: seq<Step>, events: seq<Event>, human: (string, string) -> bool, at: seq<nat>, ev: Event, s: Step)
    requires Follow(rows, events, human, at) && Gives(ev, s, human)
    ensures Follow(rows + [s], events + [ev], human, at + [|events|])
  {
    forall j | 0 <= j < |events + [ev]| && j !in at + [|events|]
      ensures GivesNone((events + [ev])[j])
    {
      assert (at + [|events|])[|at|] == |events|;
      assert j < |events| && j !in at;
    }
  }

  lemma OneMoreSilent(rows: seq<Step>, events: seq<Event>, human: (string, string) -> bool, at: seq<nat>, ev: Event)
    requires Follow(rows, events, human, at) && GivesNone(ev)
    ensures Follow(rows, events + [ev], human, at)
  {}

  /** The rows of a trace are those of its events, in their order. */
  lemma {:induction false} RowsFollowTheEvents(events: seq<Event>, human: (string, string) -> bool) returns (at: seq<nat>)
    ensures Follow(TraceSteps(events, human), events, human, at)
  {
    if events == [] {
      at := [];
    } else {
      var init, ev := events[..|events| - 1], events[|events| - 1];
      at := RowsFollowTheEvents(init, human);
      EventGivesItsRow(ev, human);
      assert events == init + [ev];
      var rows := TraceSteps(init, human);
      if GivesNone(ev) {
        OneMoreSilent(rows, init, human, at, ev);
        assert TraceSteps(events, human) == rows;
      } else {
        OneMoreRow(rows, init, human, at, ev, StepsOf(ev, human)[0]);
        assert StepsOf(ev, human) == [StepsOf(ev, human)[0]];
        at := at + [|init|];
      }
    }
  }

  /** Row i stands behind the rows before it, with its number, its step's three fields, and a line break. */
  lemma {:induction false} RowIsItsStep(steps: seq<Step>, i: nat) returns (rest: string)
    requires i < |steps|
    ensures Rows(steps) == Rows(steps[..i])
            + ("| " + Decimal(i + 1) + " | " + steps[i].op + " | `" + steps[i].target + "` | " + steps[i].value + " |\n") + rest
  {
    var last := |steps| - 1;
    if i == last {
      rest := "";
    } else {
      var more := RowIsItsStep(steps[..last], i);
      assert steps[..last][..i] == steps[..i];
      rest := more + Row(|steps|, steps[last]);
    }
  }

  // ---- numbers are read back ----

  lemma {:induction false} DecimalIsReadBack(n: nat)
    ensures Decimal(n) != "" && (forall i :: 0 <= i < |Decimal(n)| ==> IsDigit(Decimal(n)[i])) && DigitsValue(Decimal(n)) == n
  {
    if n >= 10 {
      DecimalIsReadBack(n / 10);
      var d := Decimal(n);
      assert d[..|d| - 1] == Decimal(n / 10);
    } else {
      assert Decimal(n)[..0] == "";
    }
  }

  lemma {:induction false} WordEndsAtSpace(word: string, rest: string)
    requires forall i :: 0 <= i < |word| ==> !IsSpace(word[i])
    requires rest == "" || IsSpace(rest[0])
    ensures WordEnd(word + rest) == |word|
  {
    if word == "" {
      assert word + rest == rest;
    } else {
      assert (word + rest)[1..] == word[1..] + rest;
      WordEndsAtSpace(word[1..], rest);
    }
  }

  predicate IsWord(w: string) {
    w != "" && forall i :: 0 <= i < |w| ==> !IsSpace(w[i])
  }

  lemma FieldInFront(word: string, rest: string)
    requires IsWord(word)
    requires rest == "" || IsSpace(rest[0])
    ensures Fields(word + rest) == [word] + Fields(rest)
  {
    var s := word + rest;
    assert s[0] == word[0];
    assert TrimLeft(s) == s;
    WordEndsAtSpace(word, rest);
    assert s[..|word|] == word && s[|word|..] == rest;
  }

  lemma NoFields()
    ensures Fields("") == []
  {}

  lemma OneField(word: string)
    requires IsWord(word)
    ensures Fields(word) == [word] && TrimLeft(word) == word
  {
    FieldInFront(word, "");
    NoFields();
    assert word + "" == word && [word] + [] == [word];
  }

  lemma SpaceBeforeField(word: string)
    requires IsWord(word)
    ensures Fields(" " + word) == [word]
  {
    TrimLeftSpace(' ', word);
    OneField(word);
  }

  lemma DigitsAreNoSpace(n: nat)
    ensures IsWord(Decimal(n))
  {
    DecimalIsReadBack(n);
    forall i | 0 <= i < |Decimal(n)|
      ensures !IsSpace(Decimal(n)[i])
    {
      assert IsDigit(Decimal(n)[i]);
    }
  }

  lemma TwoFields(direction: string, number: string)
    requires IsWord(direction) && IsWord(number)
    ensures Fields(direction + (" " + number)) == [direction, number]
    ensures Fields(direction) == [direction]
  {
    var rest := " " + number;
    SpaceBeforeField(number);
    StartsWithSpace(number);
    FieldInFront(direction, rest);
    OneField(direction);
    Pair(direction, number);
  }

  lemma StartsWithSpace(s: string)
    ensures (" " + s)[0] == ' ' && IsSpace(' ')
  {}

  lemma Pair<T>(a: T, b: T)
    ensures [a] + [b] == [a, b]
  {}

  lemma DecimalIsPositive(n: nat)
    requires 0 < n <= MAX_INT
    ensures PositiveAtoi(Decimal(n)) == n
  {
    DecimalIsReadBack(n);
    assert IsDigit(Decimal(n)[0]);
  }

  /** A recorded scroll "<direction> <screens>" gives a row with that direction and that number; without a number it
      is three screens, and without anything three down. */
  lemma ScrollIsReadBack(direction: string, screens: nat)
    requires IsWord(direction) && 0 < screens <= MAX_INT
    ensures ScrollStep(direction + (" " + Decimal(screens))) == Step("scroll", direction, Decimal(screens))
    ensures ScrollStep(direction) == Step("scroll", direction, "3") && ScrollStep("") == Step("scroll", "down", "3")
  {
    DigitsAreNoSpace(screens);
    TwoFields(direction, Decimal(screens));
    DecimalIsPositive(screens);
  }

  // ---- what was typed into secret fields stays out of the draft ----

  /** An input whose value only a person may enter again: a password or a verification code. */
  predicate Secret(ev: Event, human: (string, string) -> bool) {
    ev.kind == "input" && (ev.password || human(ev.name, ev.selector))
  }

  /** The same event but for what was typed, if that is a secret. */
  predicate SameButSecret(a: Event, b: Event, human: (string, string) -> bool) {
    a == b || (Secret(a, human) && b == a.(value := b.value))
  }

  lemma {:induction false} SecretsLeaveNoTrace(events: seq<Event>, others: seq<Event>, human: (string, string) -> bool)
    requires |events| == |others|
    requires forall i :: 0 <= i < |events| ==> SameButSecret(events[i], others[i], human)
    ensures TraceSteps(events, human) == TraceSteps(others, human)
  {
    if events != [] {
      var last := |events| - 1;
      SecretsLeaveNoTrace(events[..last], others[..last], human);
      assert SameButSecret(events[last], others[last], human);
    }
  }

  /** Two traces that differ only in what was typed into password and verification fields give the same draft,
      whatever the classification of fields is. */
  lemma SecretsNeverReachTheDraft(hint: string, events: seq<Event>, others: seq<Event>, human: (string, string) -> bool)
    requires |events| == |others|
    requires forall i :: 0 <= i < |events| ==> SameButSecret(events[i], others[i], human)
    ensures DraftContent(hint, Rows(TraceSteps(events, human))) == DraftContent(hint, Rows(TraceSteps(others, human)))
  {
    SecretsLeaveNoTrace(events, others, human);
  }

  /** A draft types a text only if an event that is no secret recorded it: each type step carries the value of
      such an input verbatim, and each secret input became a step for a person. */
  lemma {:induction false} TypedTextsWereNoSecrets(events: seq<Event>, human: (string, string) -> bool, s: Step)
    requires s in TraceSteps(events, human) && s.op == "type"
    ensures exists i :: 0 <= i < |events| && Types(events[i], s, human)
  {
    var last := |events| - 1;
    if s in TraceSteps(events[..last], human) {
      TypedTextsWereNoSecrets(events[..last], human, s);
      var i :| 0 <= i < last && Types(events[..last][i], s, human);
      assert Types(events[i], s, human);
    } else {
      assert s in StepsOf(events[last], human);
      assert Types(events[last], s, human);
    }
  }

  predicate Types(ev: Event, s: Step, human: (string, string) -> bool) {
    ev.kind == "input" && !Secret(ev, human) && s == Step("type", MultiAnchorTarget(ev.selector, ev.name), ev.value)
  }
}
