/** The mechanical conversion of a recorded browser trace into a skill file, the reading of such a file's
    frontmatter, and the validation it has to pass to be saved. */
module SkillDraft {
  import opened Text
  import opened SkillNames

  datatype Result<T> = Ok(value: T) | Err(error: SaveError)

  datatype SaveError = NoFrontmatter | UnclosedFrontmatter | NoName | NoDescription | EmptyBody | BadName | LongDescription

  // ---- reading frontmatter ----

  /** The text goes on with a line break and three dashes. */
  predicate AtFence(s: string) {
    |s| >= 4 && s[0] == '\n' && s[1] == '-' && s[2] == '-' && s[3] == '-'
  }

  /** strings.Index(s, "\n---"), or -1. */
  function FindFence(s: string): (i: int)
    ensures i == -1 || 0 <= i <= |s| - 4
  {
    if AtFence(s) then 0
    else if s == "" then -1
    else if FindFence(s[1..]) == -1 then -1
    else FindFence(s[1..]) + 1
  }

  /** splitSkillFrontmatter: the text between a leading --- and the next line starting with ---, and the rest. */
  function SplitFrontmatter(content: string): Result<(string, string)> {
    SplitText(TrimSpace(content))
  }

  function SplitText(text: string): Result<(string, string)> {
    if !(|text| >= 3 && text[0] == '-' && text[1] == '-' && text[2] == '-') then Err(NoFrontmatter)
    else
      var rest := text[3..];
      var end := FindFence(rest);
      if end < 0 then Err(UnclosedFrontmatter)
      else Ok((TrimSpace(rest[..end]), TrimSpace(rest[end + 4..])))
  }

  predicate IsQuote(c: char) { c == '"' || c == '\'' }

  function TrimQuotesLeft(s: string): (r: string)
    ensures |r| <= |s|
  {
    if s != "" && IsQuote(s[0]) then TrimQuotesLeft(s[1..]) else s
  }

  function TrimQuotesRight(s: string): (r: string)
    ensures |r| <= |s|
  {
    if s != "" && IsQuote(s[|s| - 1]) then TrimQuotesRight(s[..|s| - 1]) else s
  }

  function Unquoted(v: string): (r: string)
    ensures |r| <= |v|
  {
    TrimSpace(TrimQuotesRight(TrimQuotesLeft(v)))
  }

  function TrimAll(lines: seq<string>): (r: seq<string>)
    ensures |r| == |lines| && forall i :: 0 <= i < |r| ==> r[i] == TrimSpace(lines[i])
  {
    seq(|lines|, i requires 0 <= i < |lines| => TrimSpace(lines[i]))
  }

  /** The value of the first line that starts with the prefix. */
  function ValueIn(lines: seq<string>, prefix: string): string {
    if lines == [] then ""
    else if prefix <= lines[0] then Unquoted(lines[0][|prefix|..])
    else ValueIn(lines[1..], prefix)
  }

  /** frontmatterValue. */
  function FrontmatterValue(fm: string, key: string): string {
    ValueIn(TrimAll(Split(fm)), key + ":")
  }

  /** BrowserConsoleSaveSkill's checks; the result is the directory name. */
  function ValidateSave(content: string): Result<string> {
    match SplitFrontmatter(content)
    case Err(e) => Err(e)
    case Ok((fm, body)) =>
      Checked(Contains(fm, "name:"), Contains(fm, "description:"), TrimSpace(body), Sanitized(FrontmatterValue(fm, "name")),
              FrontmatterValue(fm, "description"))
  }

  /** The checks in their order. */
  function Checked(hasName: bool, hasDescription: bool, body: string, name: string, description: string): Result<string> {
    if !hasName then Err(NoName)
    else if !hasDescription then Err(NoDescription)
    else if body == "" then Err(EmptyBody)
    else if !MatchesNamePattern(name) then Err(BadName)
    else if |description| > 200 then Err(LongDescription)
    else Ok(name)
  }

  // ---- what the reading means ----

  /** The text begins with a fence, and `fm` is what comes before the first line that begins with three dashes. */
  predicate Fenced(text: string, fm: string, body: string) {
    && text == "---" + (fm + ("\n---" + body))
    && forall i :: 0 <= i < |fm| ==> !("\n---" <= (fm + ("\n---" + body))[i..])
  }

  lemma AtFenceIs(s: string)
    ensures AtFence(s) <==> "\n---" <= s
  {
    var fence := "\n---";
    assert fence[0] == '\n' && fence[1] == '-' && fence[2] == '-' && fence[3] == '-';
  }

  lemma {:induction false} FindsTheFirst(s: string)
    ensures var k := FindFence(s);
            && (k >= 0 ==> "\n---" <= s[k..] && forall i :: 0 <= i < k ==> !("\n---" <= s[i..]))
            && (k < 0 ==> forall i :: 0 <= i <= |s| ==> !("\n---" <= s[i..]))
  {
    AtFenceIs(s);
    assert s[0..] == s;
    if !AtFence(s) && s != "" {
      FindsTheFirst(s[1..]);
      forall i | 1 <= i <= |s|
        ensures s[i..] == s[1..][i - 1..]
      {}
    }
  }

  /** A file is split exactly if it is fenced, into the trimmed parts. */
  lemma SplitIsFenced(text: string) returns (fm: string, body: string)
    requires SplitText(text).Ok?
    ensures Fenced(text, fm, body) && SplitText(text) == Ok((TrimSpace(fm), TrimSpace(body)))
  {
    StartsWithDashes(text);
    var rest := text[3..];
    FindsTheFirst(rest);
    var k := FindFence(rest);
    fm, body := rest[..k], rest[k + 4..];
    FencedAt(text, rest, k);
  }

  /** Without the first fence there is no frontmatter. */
  lemma NoFenceNoFrontmatter(text: string)
    ensures SplitText(text) == Err(NoFrontmatter) <==> !("---" <= text)
  {
    StartsWithDashes(text);
  }

  lemma StartsWithDashes(text: string)
    ensures "---" <= text <==> |text| >= 3 && text[0] == '-' && text[1] == '-' && text[2] == '-'
  {
    var dashes := "---";
    assert dashes[0] == '-' && dashes[1] == '-' && dashes[2] == '-';
  }

  lemma FencedAt(text: string, rest: string, k: nat)
    requires "---" <= text && rest == text[3..] && k + 4 <= |rest|
    requires "\n---" <= rest[k..] && forall i :: 0 <= i < k ==> !("\n---" <= rest[i..])
    ensures Fenced(text, rest[..k], rest[k + 4..])
  {
    var body := rest[k + 4..];
    assert rest[k..] == "\n---" + body by {
      assert rest[k..][..4] == "\n---" && rest[k..][4..] == body;
    }
    assert rest == rest[..k] + ("\n---" + body);
    assert text == "---" + rest;
  }

  lemma FencedSplits(text: string, fm: string, body: string)
    requires Fenced(text, fm, body)
    ensures SplitText(text) == Ok((TrimSpace(fm), TrimSpace(body)))
  {
    var rest := fm + ("\n---" + body);
    assert text[3..] == rest;
    FindsTheFirst(rest);
    assert rest[|fm|..] == "\n---" + body;
    assert "\n---" <= rest[|fm|..];
    SplitsAt(rest, fm, body);
  }

  /** Both fields are named, there is a body, and the name and the description that are read are acceptable. */
  predicate Acceptable(fm: string, body: string, name: string) {
    && Contains(fm, "name:") && Contains(fm, "description:") && TrimSpace(body) != ""
    && name == Sanitized(FrontmatterValue(fm, "name")) && MatchesNamePattern(name)
    && |FrontmatterValue(fm, "description")| <= 200
  }

  lemma Validates(content: string, fm: string, body: string, name: string)
    requires SplitFrontmatter(content) == Ok((fm, body))
    ensures ValidateSave(content) == Ok(name) <==> Acceptable(fm, body, name)
  {
    ChecksPass(Contains(fm, "name:"), Contains(fm, "description:"), TrimSpace(body), Sanitized(FrontmatterValue(fm, "name")),
               FrontmatterValue(fm, "description"), name);
  }

  lemma ChecksPass(hasName: bool, hasDescription: bool, body: string, read: string, description: string, name: string)
    ensures Checked(hasName, hasDescription, body, read, description) == Ok(name) <==>
            hasName && hasDescription && body != "" && MatchesNamePattern(read) && |description| <= 200 && name == read
  {}

  /** A file is saved exactly if it is fenced and its two parts are acceptable, and then under the sanitised name. */
  lemma SavedExactlyIf(content: string, name: string)
    ensures ValidateSave(content) == Ok(name) <==>
            exists fm, body :: Fenced(TrimSpace(content), fm, body) && Acceptable(TrimSpace(fm), TrimSpace(body), name)
  {
    var text := TrimSpace(content);
    if SplitText(text).Ok? {
      var fm, body := SplitIsFenced(text);
      Validates(content, TrimSpace(fm), TrimSpace(body), name);
    }
    forall fm, body | Fenced(text, fm, body)
      ensures ValidateSave(content) == Ok(name) <==> Acceptable(TrimSpace(fm), TrimSpace(body), name)
    {
      FencedSplits(text, fm, body);
      Validates(content, TrimSpace(fm), TrimSpace(body), name);
    }
  }

  /** The value of a field is that of the first line that begins with it; none gives the empty value. */
  lemma FirstLineCounts(lines: seq<string>, prefix: string, k: nat)
    requires k <= |lines| && forall i :: 0 <= i < k ==> !(prefix <= lines[i])
    ensures k < |lines| && prefix <= lines[k] ==> ValueIn(lines, prefix) == Unquoted(lines[k][|prefix|..])
    ensures k == |lines| ==> ValueIn(lines, prefix) == ""
  {
    LaterLines(lines, prefix, k);
    if k < |lines| {
      FoundInFront(lines[k..], prefix);
      assert lines[k..][0] == lines[k];
    }
  }

  lemma FoundInFront(lines: seq<string>, prefix: string)
    requires lines != []
    ensures prefix <= lines[0] ==> ValueIn(lines, prefix) == Unquoted(lines[0][|prefix|..])
  {}

  lemma {:induction false} LaterLines(lines: seq<string>, prefix: string, k: nat)
    requires k <= |lines| && forall i :: 0 <= i < k ==> !(prefix <= lines[i])
    ensures ValueIn(lines, prefix) == ValueIn(lines[k..], prefix)
    decreases k
  {
    if k == 0 {
      assert lines[0..] == lines;
    } else {
      LaterLine(lines, prefix);
      LaterLines(lines[1..], prefix, k - 1);
      assert lines[1..][k - 1..] == lines[k..];
    }
  }

  lemma LaterLine(lines: seq<string>, prefix: string)
    requires lines != [] && !(prefix <= lines[0])
    ensures ValueIn(lines, prefix) == ValueIn(lines[1..], prefix)
  {}

  /** A value without quotes at its ends is only trimmed. */
  lemma UnquotedIsTrimmed(v: string)
    requires v == "" || (!IsQuote(v[0]) && !IsQuote(v[|v| - 1]))
    ensures Unquoted(v) == TrimSpace(v)
  {}

  /** Quotes are looked for before the space after the colon is trimmed: of a quoted value the closing quote goes
      and the opening one stays. */
  lemma QuotedValueKeepsItsFirstQuote(v: string, q: char)
    requires Solid(v) && !IsQuote(v[|v| - 1]) && IsQuote(q)
    ensures Unquoted(" " + ([q] + v + [q])) == [q] + v
  {
    var s := " " + ([q] + v + [q]);
    assert s[0] == ' ' && s[|s| - 1] == q && s[..|s| - 1] == " " + ([q] + v);
    assert TrimQuotesLeft(s) == s;
    var t := s[..|s| - 1];
    assert t[|t| - 1] == v[|v| - 1];
    assert TrimQuotesRight(t) == t;
    SpaceThenSolid(' ', [q] + v);
    assert ([q] + v)[|v|] == v[|v| - 1];
  }

  // ---- the draft ----

  const DEFAULT_NAME := "browser-skill"

  function DraftName(hint: string): string {
    if Sanitized(hint) == "" then DEFAULT_NAME else Sanitized(hint)
  }

  function DraftTitle(hint: string): string {
    if TrimSpace(hint) == "" then DraftName(hint) else TrimSpace(hint)
  }

  const NAME_KEY := "name:"
  const DESCRIPTION_KEY := "description:"
  const DESCRIPTION := " 浏览器操作技能（录制朴素转换，请人工完善描述）。"
  const RUN_AS := "runAs: subagent"
  const TOOLS_1 := "allowed-tools: browser_open, "
  const TOOLS_2 := "browser_navigate, browser_click, "
  const TOOLS_3 := "browser_type, browser_wait, "
  const TOOLS_4 := "browser_extract, browser_screenshot"
  const TOOLS := (TOOLS_1 + TOOLS_2) + (TOOLS_3 + TOOLS_4)

  function HeaderLines(name: string): seq<string> {
    [NAME_KEY + (" " + name), DESCRIPTION_KEY + DESCRIPTION, RUN_AS, TOOLS]
  }

  const INTRO := "\n\n## 何时使用\n\n（待补充：说明这个操作流程的适用场景与参数）\n\n## 步骤\n\n| # | 操作 | 目标 | 值 |\n|---|------|------|------|\n"
  const OUTRO := "\n## 注意事项\n\n- 本技能由录制朴素转换生成，请人工检查步骤与目标选择器\n- human 步骤会在运行时暂停，等人工完成后继续（可在编辑器配置自动检测条件）\n\n## 验证\n\n"
  const CLOSING := "（待补充：如何确认执行成功）"

  function DraftBody(title: string, rows: string): string {
    "\n\n#" + (" " + title + INTRO + rows + OUTRO) + CLOSING
  }

  function DraftContent(hint: string, rows: string): string {
    Assembled(HeaderLines(DraftName(hint)), DraftBody(DraftTitle(hint), rows))
  }

  /** A fence, header lines, a fence and a body that ends the line. */
  function Assembled(lines: seq<string>, body: string): string {
    "---" + ("\n" + Join(lines) + ("\n---" + body)) + "\n"
  }

  // ---- every draft passes the validation ----

  lemma {:induction false} FenceAfterLine(line: string, t: string)
    requires '\n' !in line && FindFence(t) >= 0
    ensures FindFence(line + t) == |line| + FindFence(t)
  {
    if line == "" {
      assert line + t == t;
    } else {
      assert (line + t)[0] == line[0] && (line + t)[1..] == line[1..] + t;
      FenceAfterLine(line[1..], t);
    }
  }

  lemma FenceAfterBreak(t: string)
    requires t != "" && t[0] != '-' && FindFence(t) >= 0
    ensures FindFence("\n" + t) == 1 + FindFence(t)
  {
    var s := "\n" + t;
    assert s[1] == t[0] && s[1..] == t;
  }

  /** Begins and ends with something other than space. */
  predicate Solid(s: string) {
    s != "" && !IsSpace(s[0]) && !IsSpace(s[|s| - 1])
  }

  predicate GoodLine(line: string) {
    '\n' !in line && Solid(line) && line[0] != '-'
  }

  predicate GoodLines(lines: seq<string>) {
    forall i :: 0 <= i < |lines| ==> GoodLine(lines[i])
  }

  /** Lines that do not start with a dash hide no fence: the first one is where they end. */
  lemma {:induction false} FirstFence(lines: seq<string>, t: string)
    requires lines != [] && AtFence(t) && GoodLines(lines)
    ensures FindFence("\n" + (Join(lines) + t)) == 1 + |Join(lines)|
  {
    var first := lines[0];
    assert GoodLine(first);
    if |lines| == 1 {
      FenceAfterLine(first, t);
      assert (first + t)[0] == first[0];
      FenceAfterBreak(first + t);
    } else {
      var rest := "\n" + (Join(lines[1..]) + t);
      FirstFence(lines[1..], t);
      FenceAfterLine(first, rest);
      assert Join(lines) + t == first + rest;
      assert (first + rest)[0] == first[0];
      FenceAfterBreak(first + rest);
    }
  }

  lemma SolidTrims(s: string)
    requires Solid(s)
    ensures TrimSpace(s) == s
  {}

  lemma SolidThenBreak(s: string)
    requires Solid(s)
    ensures TrimSpace(s + "\n") == s
  {
    var t := s + "\n";
    assert t[0] == s[0] && t[..|s|] == s && t[|t| - 1] == '\n';
    assert TrimLeft(t) == t;
    SolidTrims(s);
    assert TrimRight(t) == TrimRight(s);
  }

  lemma SpaceThenSolid(c: char, s: string)
    requires IsSpace(c) && Solid(s)
    ensures TrimSpace([c] + s) == s
  {
    TrimLeftSpace(c, s);
    SolidTrims(s);
  }

  lemma SplitsAt(rest: string, header: string, body: string)
    requires FindFence(rest) == |header| && rest == header + ("\n---" + body)
    ensures SplitText("---" + rest) == Ok((TrimSpace(header), TrimSpace(body)))
  {
    var text := "---" + rest;
    assert text[3..] == rest;
    assert rest[..|header|] == header;
    assert rest[|header| + 4..] == body;
  }

  lemma FenceFollows(lines: seq<string>, body: string)
    requires lines != [] && GoodLines(lines)
    ensures FindFence("\n" + (Join(lines) + ("\n---" + body))) == 1 + |Join(lines)|
  {
    var tail := "\n---" + body;
    assert tail[0] == '\n' && tail[1] == '-' && tail[2] == '-' && tail[3] == '-';
    FirstFence(lines, tail);
  }

  lemma EndOf(a: string, b: string)
    requires b != ""
    ensures (a + b)[|a + b| - 1] == b[|b| - 1]
  {}

  lemma AssembledIsSolid(header: string, body: string)
    requires body != "" && !IsSpace(body[|body| - 1])
    ensures Solid("---" + ("\n" + header + ("\n---" + body)))
  {
    EndOf("\n---", body);
    EndOf("\n" + header, "\n---" + body);
    EndOf("---", "\n" + header + ("\n---" + body));
  }

  /** An assembled file splits into its header and its body. */
  lemma AssembledSplits(lines: seq<string>, body: string)
    requires lines != [] && GoodLines(lines)
    requires body != "" && !IsSpace(body[|body| - 1])
    ensures SplitFrontmatter(Assembled(lines, body)) == Ok((Join(lines), TrimSpace(body)))
  {
    var header := Join(lines);
    JoinSolid(lines);
    FenceFollows(lines, body);
    assert "\n" + header + ("\n---" + body) == "\n" + (header + ("\n---" + body));
    SplitsAt("\n" + header + ("\n---" + body), "\n" + header, body);
    SpaceThenSolid('\n', header);
    AssembledIsSolid(header, body);
    SolidThenBreak("---" + ("\n" + header + ("\n---" + body)));
  }

  lemma {:induction false} ContainsInside(a: string, b: string, sub: string)
    requires sub <= b
    ensures Contains(a + b, sub)
  {
    if a == "" {
      assert a + b == b;
    } else {
      assert (a + b)[1..] == a[1..] + b;
      ContainsInside(a[1..], b, sub);
    }
  }

  lemma {:induction false} JoinSolid(lines: seq<string>)
    requires lines != [] && GoodLines(lines)
    ensures Solid(Join(lines))
  {
    assert GoodLine(lines[0]);
    if |lines| > 1 {
      JoinSolid(lines[1..]);
      var rest := Join(lines[1..]);
      assert Join(lines)[0] == lines[0][0] && Join(lines)[|Join(lines)| - 1] == rest[|rest| - 1];
    }
  }

  lemma TrimAllSolid(lines: seq<string>)
    requires GoodLines(lines)
    ensures TrimAll(lines) == lines
  {
    forall i | 0 <= i < |lines|
      ensures TrimSpace(lines[i]) == lines[i]
    {
      assert GoodLine(lines[i]);
      SolidTrims(lines[i]);
    }
  }

  /** Reading a value from joined solid lines is reading it from the lines. */
  lemma ValueOfJoined(lines: seq<string>, key: string)
    requires lines != [] && GoodLines(lines)
    ensures FrontmatterValue(Join(lines), key) == ValueIn(lines, key + ":")
  {
    SplitJoin(lines);
    TrimAllSolid(lines);
  }

  lemma NameIsReadBack(lines: seq<string>, name: string)
    requires lines != [] && GoodLines(lines)
    requires lines[0] == NAME_KEY + (" " + name) && CleanName(name) && name != ""
    ensures FrontmatterValue(Join(lines), "name") == name
  {
    ValueOfJoined(lines, "name");
    assert "name" + ":" == NAME_KEY;
    FirstLineValue(lines, NAME_KEY, " " + name);
    UnquotedName(name);
  }

  lemma SecondIsReadBack(lines: seq<string>, key: string, prefix: string, v: string)
    requires |lines| >= 2 && GoodLines(lines) && prefix == key + ":"
    requires !(prefix <= lines[0]) && lines[1] == prefix + v
    ensures FrontmatterValue(Join(lines), key) == Unquoted(v)
  {
    ValueOfJoined(lines, key);
    SecondLineValue(lines, prefix, v);
  }

  lemma DescriptionIsReadBack(lines: seq<string>, name: string, description: string)
    requires |lines| >= 2 && GoodLines(lines)
    requires lines[0] == NAME_KEY + (" " + name) && lines[1] == DESCRIPTION_KEY + description
    ensures FrontmatterValue(Join(lines), "description") == Unquoted(description)
  {
    NameLineIsNoDescription(name);
    assert DESCRIPTION_KEY == "description" + ":";
    SecondIsReadBack(lines, "description", DESCRIPTION_KEY, description);
  }

  /** What the validation needs of a split file. */
  lemma SavableIf(content: string, fm: string, body: string, name: string)
    requires SplitFrontmatter(content) == Ok((fm, body))
    requires Contains(fm, NAME_KEY) && Contains(fm, DESCRIPTION_KEY) && TrimSpace(body) != ""
    requires FrontmatterValue(fm, "name") == name && |FrontmatterValue(fm, "description")| <= 200
    requires MatchesNamePattern(Sanitized(name))
    ensures ValidateSave(content) == Ok(Sanitized(name))
  {}

  /** Any file assembled from solid header lines, the first the name and the second a short description, with a
      body that is not blank, can be saved under the sanitised name, and the name is read back as it is. */
  lemma AssembledIsSavable(lines: seq<string>, body: string, name: string, description: string)
    requires |lines| >= 2 && GoodLines(lines)
    requires lines[0] == NAME_KEY + (" " + name) && lines[1] == DESCRIPTION_KEY + description && |description| <= 200
    requires CleanName(name) && 0 < |name| <= MAX_NAME
    requires body != "" && !IsSpace(body[|body| - 1])
    ensures SplitFrontmatter(Assembled(lines, body)) == Ok((Join(lines), TrimSpace(body)))
    ensures FrontmatterValue(Join(lines), "name") == name
    ensures ValidateSave(Assembled(lines, body)) == Ok(Sanitized(name))
  {
    AssembledSplits(lines, body);
    NameIsReadBack(lines, name);
    ShortDescription(lines, name, description);
    HeaderHasFields(lines, name, description);
    NotBlankAtEnd(body);
    CleanNameMatches(name);
    SavableIf(Assembled(lines, body), Join(lines), TrimSpace(body), name);
  }

  lemma ShortDescription(lines: seq<string>, name: string, description: string)
    requires |lines| >= 2 && GoodLines(lines) && |description| <= 200
    requires lines[0] == NAME_KEY + (" " + name) && lines[1] == DESCRIPTION_KEY + description
    ensures |FrontmatterValue(Join(lines), "description")| <= 200
  {
    DescriptionIsReadBack(lines, name, description);
  }

  lemma CleanNameMatches(name: string)
    requires CleanName(name) && 0 < |name| <= MAX_NAME
    ensures MatchesNamePattern(Sanitized(name))
  {
    SanitizeCleanName(name);
    CleanPrefixMatches(name, |name|);
    CleanPrefixMatches(name, |name| - 1);
    assert name[..|name|] == name;
  }

  lemma CleanPrefixMatches(name: string, n: nat)
    requires CleanName(name) && n <= |name|
    ensures n > 0 ==> MatchesNamePattern(name[..n])
  {}

  lemma FirstLineValue(lines: seq<string>, prefix: string, v: string)
    requires lines != [] && lines[0] == prefix + v
    ensures ValueIn(lines, prefix) == Unquoted(v)
  {
    assert (prefix + v)[|prefix|..] == v;
  }

  lemma SecondLineValue(lines: seq<string>, prefix: string, v: string)
    requires |lines| >= 2 && !(prefix <= lines[0]) && lines[1] == prefix + v
    ensures ValueIn(lines, prefix) == Unquoted(v)
  {
    FirstLineValue(lines[1..], prefix, v);
  }

  lemma UnquotedName(name: string)
    requires CleanName(name) && name != ""
    ensures Unquoted(" " + name) == name
  {
    var v := " " + name;
    assert v[0] == ' ' && v[|v| - 1] == name[|name| - 1] && v[1..] == name;
    assert TrimQuotesLeft(v) == v && TrimQuotesRight(v) == v;
    assert Solid(name);
    SolidTrims(name);
    assert TrimLeft(v) == TrimLeft(name) == name;
  }

  lemma NameLineIsNoDescription(name: string)
    ensures !(DESCRIPTION_KEY <= NAME_KEY + (" " + name))
  {
    assert (NAME_KEY + (" " + name))[0] == 'n' && DESCRIPTION_KEY[0] == 'd';
  }

  lemma HeaderHasFields(lines: seq<string>, name: string, description: string)
    requires |lines| >= 2 && lines[0] == NAME_KEY + (" " + name) && lines[1] == DESCRIPTION_KEY + description
    ensures Contains(Join(lines), NAME_KEY) && Contains(Join(lines), DESCRIPTION_KEY)
  {
    var tail := Join(lines[1..]);
    assert Join(lines) == (lines[0] + "\n") + tail;
    assert lines[1..][0] == lines[1];
    assert lines[1] <= tail;
    assert DESCRIPTION_KEY <= tail;
    ContainsInside(lines[0] + "\n", tail, DESCRIPTION_KEY);
    assert NAME_KEY <= Join(lines);
  }

  lemma NotBlankAtEnd(s: string)
    requires s != "" && !IsSpace(s[|s| - 1])
    ensures TrimSpace(TrimSpace(s)) != ""
  {
    TrimLeftKeepsEnd(s);
    var t := TrimLeft(s);
    assert TrimRight(t) == t;
    SolidTrims(t);
  }

  lemma {:induction false} TrimLeftKeepsEnd(s: string)
    requires s != "" && !IsSpace(s[|s| - 1])
    ensures Solid(TrimLeft(s))
  {
    if IsSpace(s[0]) {
      TrimLeftKeepsEnd(s[1..]);
    }
  }

  // ---- the draft's own text has that form ----

  lemma DraftNameIsClean(hint: string)
    ensures CleanName(DraftName(hint)) && 0 < |DraftName(hint)| <= MAX_NAME
  {
    if Sanitized(hint) == "" {
      DefaultNameIsClean();
    } else {
      SanitizedIsCleanName(hint);
    }
  }

  lemma DefaultNameIsClean()
    ensures CleanName(DEFAULT_NAME) && 0 < |DEFAULT_NAME| <= MAX_NAME
  {}

  lemma NameLineIsGood(name: string)
    requires CleanName(name) && name != ""
    ensures GoodLine(NAME_KEY + (" " + name))
  {
    var v := " " + name;
    var line := NAME_KEY + v;
    assert '\n' !in name && '\n' !in NAME_KEY && '\n' !in v;
    assert line[0] == 'n' && line[|line| - 1] == v[|v| - 1] == name[|name| - 1];
  }

  lemma DescriptionLineIsGood()
    ensures GoodLine(DESCRIPTION_KEY + DESCRIPTION) && |DESCRIPTION| <= 200
  {
    var line := DESCRIPTION_KEY + DESCRIPTION;
    assert '\n' !in DESCRIPTION_KEY && '\n' !in DESCRIPTION;
    assert line[0] == 'd' && line[|line| - 1] == DESCRIPTION[|DESCRIPTION| - 1] == '。';
  }

  lemma RunAsLineIsGood()
    ensures GoodLine(RUN_AS)
  {
    assert '\n' !in RUN_AS;
  }

  lemma ToolsLineIsGood()
    ensures GoodLine(TOOLS)
  {
    FirstToolsAreLine();
    LastToolsAreLine();
    assert TOOLS[0] == TOOLS_1[0] == 'a';
    assert TOOLS[|TOOLS| - 1] == TOOLS_4[|TOOLS_4| - 1] == 't';
  }

  lemma FirstToolsAreLine()
    ensures '\n' !in TOOLS_1 + TOOLS_2
  {
    assert '\n' !in TOOLS_1;
    assert '\n' !in TOOLS_2;
  }

  lemma LastToolsAreLine()
    ensures '\n' !in TOOLS_3 + TOOLS_4
  {
    assert '\n' !in TOOLS_3;
    assert '\n' !in TOOLS_4;
  }

  lemma DraftBodyEnds(title: string, rows: string)
    ensures DraftBody(title, rows) != "" && !IsSpace(DraftBody(title, rows)[|DraftBody(title, rows)| - 1])
  {
    var b := DraftBody(title, rows);
    assert b[|b| - 1] == CLOSING[|CLOSING| - 1] == '）';
  }

  lemma HeaderIsGood(name: string)
    requires CleanName(name) && name != ""
    ensures GoodLines(HeaderLines(name))
  {
    NameLineIsGood(name);
    DescriptionLineIsGood();
    RunAsLineIsGood();
    ToolsLineIsGood();
  }

  lemma DraftOfIsSavable(name: string, body: string)
    requires CleanName(name) && 0 < |name| <= MAX_NAME
    requires body != "" && !IsSpace(body[|body| - 1])
    ensures ValidateSave(Assembled(HeaderLines(name), body)) == Ok(Sanitized(name))
    ensures SplitFrontmatter(Assembled(HeaderLines(name), body)).Ok?
    ensures FrontmatterValue(SplitFrontmatter(Assembled(HeaderLines(name), body)).value.0, "name") == name
  {
    HeaderIsGood(name);
    DescriptionLineIsGood();
    AssembledIsSavable(HeaderLines(name), body, name, DESCRIPTION);
  }

  lemma BodyHoldsItsParts(title: string, intro: string, rows: string, outro: string, closing: string)
    ensures "\n\n#" + (" " + title + intro + rows + outro) + closing == ("\n\n#" + (" " + title + intro)) + rows + (outro + closing)
  {
    var front := " " + title + intro;
    Reassociate("\n\n#", front + rows, outro);
    Reassociate("\n\n#", front, rows);
    Reassociate("\n\n#" + front + rows, outro, closing);
  }

  /** A draft has its title, in front of the table's head, and its rows right after it; the title is the trimmed hint
      and the name the sanitised one, and without them the default name. */
  lemma DraftHoldsItsParts(hint: string, rows: string)
    ensures var name := if Sanitized(hint) == "" then "browser-skill" else Sanitized(hint);
            var title := if TrimSpace(hint) == "" then name else TrimSpace(hint);
            && DraftName(hint) == name
            && DraftContent(hint, rows) ==
                 Assembled(HeaderLines(name), ("\n\n#" + (" " + title + INTRO)) + rows + (OUTRO + CLOSING))
  {
    BodyHoldsItsParts(DraftTitle(hint), INTRO, rows, OUTRO, CLOSING);
  }

  /** Every mechanical draft, whatever the hint and the trace, passes the save validation; the name read back
      from it is the draft's name, and the directory it is saved to is that name sanitised. */
  lemma EveryDraftIsSavable(hint: string, rows: string)
    ensures ValidateSave(DraftContent(hint, rows)) == Ok(Sanitized(DraftName(hint)))
    ensures SplitFrontmatter(DraftContent(hint, rows)).Ok?
    ensures FrontmatterValue(SplitFrontmatter(DraftContent(hint, rows)).value.0, "name") == DraftName(hint)
  {
    DraftNameIsClean(hint);
    DraftBodyEnds(DraftTitle(hint), rows);
    DraftOfIsSavable(DraftName(hint), DraftBody(DraftTitle(hint), rows));
  }
}
