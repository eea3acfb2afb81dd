/** Turning any text into a name that can be a skill's directory. */
module SkillNames {
  import opened Text

  const MAX_NAME: nat := 48

  // ---- the steps of sanitizeSkillName ----

  /** unicode.ToLower where it yields an ASCII rune: the capital letters, and the two other runes whose
      lower case is ASCII. Every other rune stays outside ASCII and is dropped by the next step. */
  function LowerRune(r: char): char {
    if 'A' <= r <= 'Z' then r - 'A' + 'a'
    else if r == '\U{0130}' then 'i'
    else if r == '\U{212A}' then 'k'
    else r
  }

  predicate IsAlnum(r: char) { 'a' <= r <= 'z' || '0' <= r <= '9' }

  /** Letters and digits stay, separators become dashes, everything else goes. */
  function MapRune(r: char): string {
    if IsAlnum(r) then [r] else if r in " _-." then "-" else ""
  }

  function MapRunes(s: string): string {
    if s == "" then "" else MapRune(LowerRune(s[0])) + MapRunes(s[1..])
  }

  predicate HasDouble(s: string) {
    exists i :: 0 <= i < |s| - 1 && s[i] == '-' && s[i + 1] == '-'
  }

  /** strings.ReplaceAll(s, "--", "-"). */
  function ReplaceDoubles(s: string): (r: string)
    ensures |r| <= |s| && (HasDouble(s) ==> |r| < |s|)
    ensures s == "" <==> r == ""
    ensures s != "" ==> r[0] == s[0]
  {
    if s == "" then ""
    else if |s| >= 2 && s[0] == '-' && s[1] == '-' then "-" + ReplaceDoubles(s[2..])
    else
      assert HasDouble(s) ==> HasDouble(s[1..]) by {
        if HasDouble(s) {
          var i :| 0 <= i < |s| - 1 && s[i] == '-' && s[i + 1] == '-';
          assert s[1..][i - 1] == '-' && s[1..][i] == '-';
        }
      }
      [s[0]] + ReplaceDoubles(s[1..])
  }

  /** Every run of dashes becomes one dash. */
  function Collapse(s: string): (r: string)
    ensures s == "" <==> r == ""
    ensures s != "" ==> r[0] == s[0]
  {
    if s == "" then ""
    else if |s| >= 2 && s[0] == '-' && s[1] == '-' then Collapse(s[1..])
    else [s[0]] + Collapse(s[1..])
  }

  lemma {:induction false} CollapseAfterReplace(s: string)
    ensures Collapse(ReplaceDoubles(s)) == Collapse(s)
  {
    if s == "" {
    } else if |s| >= 2 && s[0] == '-' && s[1] == '-' {
      CollapseAfterReplace(s[2..]);
      var r := ReplaceDoubles(s[2..]);
      assert ("-" + r)[1..] == r;
      assert s[1..][1..] == s[2..];
    } else {
      CollapseAfterReplace(s[1..]);
      var r := ReplaceDoubles(s[1..]);
      assert ([s[0]] + r)[1..] == r;
    }
  }

  lemma {:induction false} CollapseFixesSingles(s: string)
    requires !HasDouble(s)
    ensures Collapse(s) == s
  {
    if s != "" {
      assert !HasDouble(s[1..]) by {
        SliceKeepsSingles(s, 1, |s|);
      }
      CollapseFixesSingles(s[1..]);
      assert [s[0]] + s[1..] == s;
    }
  }

  lemma {:induction false} CollapseHasNoDouble(s: string)
    ensures !HasDouble(Collapse(s))
  {
    if s != "" {
      CollapseHasNoDouble(s[1..]);
      if !(|s| >= 2 && s[0] == '-' && s[1] == '-') {
        var rest := Collapse(s[1..]);
        forall i | 0 <= i < |Collapse(s)| - 1
          ensures Collapse(s)[i] != '-' || Collapse(s)[i + 1] != '-'
        {
          if i > 0 {
            assert Collapse(s)[i] == rest[i - 1] && Collapse(s)[i + 1] == rest[i];
          }
        }
      }
    }
  }

  /** The loop that replaces double dashes until none is left. */
  method CollapseDashes(s: string) returns (n: string)
    ensures n == Collapse(s)
  {
    n := s;
    while HasDouble(n)
      invariant Collapse(n) == Collapse(s)
      decreases |n|
    {
      CollapseAfterReplace(n);
      n := ReplaceDoubles(n);
    }
    CollapseFixesSingles(n);
  }

  function TrimDashLeft(s: string): string {
    if s != "" && s[0] == '-' then TrimDashLeft(s[1..]) else s
  }

  function TrimDashRight(s: string): string {
    if s != "" && s[|s| - 1] == '-' then TrimDashRight(s[..|s| - 1]) else s
  }

  /** The whole name, before it is cut to length. */
  function FullName(name: string): string {
    TrimDashRight(TrimDashLeft(Collapse(MapRunes(TrimSpace(name)))))
  }

  function Sanitized(name: string): string {
    var n := FullName(name);
    if |n| > MAX_NAME then n[..MAX_NAME] else n
  }

  method SanitizeSkillName(name: string) returns (n: string)
    ensures n == Sanitized(name)
  {
    n := MapRunes(TrimSpace(name));
    n := CollapseDashes(n);
    n := TrimDashRight(TrimDashLeft(n));
    if |n| > MAX_NAME {
      n := n[..MAX_NAME];
    }
  }

  // ---- what a sanitised name looks like ----

  /** skillNameRe: a letter or digit, then letters, digits, dashes and underscores. */
  predicate MatchesNamePattern(s: string) {
    s != "" && IsAlnum(s[0]) && forall i :: 0 <= i < |s| ==> IsAlnum(s[i]) || s[i] == '-' || s[i] == '_'
  }

  /** Letters, digits and single dashes, the first not a dash. */
  predicate CleanName(s: string) {
    && (forall i :: 0 <= i < |s| ==> IsAlnum(s[i]) || s[i] == '-')
    && !HasDouble(s) && (s != "" ==> s[0] != '-')
  }

  predicate Alphabet(s: string) {
    forall i :: 0 <= i < |s| ==> IsAlnum(s[i]) || s[i] == '-'
  }

  lemma {:induction false} MapRunesAlphabet(s: string)
    ensures Alphabet(MapRunes(s))
  {
    if s != "" {
      MapRunesAlphabet(s[1..]);
    }
  }

  lemma {:induction false} CollapseAlphabet(s: string)
    requires Alphabet(s)
    ensures Alphabet(Collapse(s))
  {
    if s != "" {
      CollapseAlphabet(s[1..]);
    }
  }

  lemma NoDoubleAt(s: string, i: nat)
    requires !HasDouble(s) && i + 1 < |s|
    ensures s[i] != '-' || s[i + 1] != '-'
  {}

  lemma SliceKeepsSingles(s: string, lo: nat, hi: nat)
    requires lo <= hi <= |s| && !HasDouble(s)
    ensures !HasDouble(s[lo..hi])
  {
    forall i | 0 <= i < hi - lo - 1
      ensures s[lo..hi][i] != '-' || s[lo..hi][i + 1] != '-'
    {
      assert s[lo..hi][i] == s[lo + i] && s[lo..hi][i + 1] == s[lo + i + 1];
    }
  }

  lemma {:induction false} TrimDashLeftKeeps(s: string)
    requires Alphabet(s) && !HasDouble(s)
    ensures CleanName(TrimDashLeft(s))
  {
    if s != "" && s[0] == '-' {
      SliceKeepsSingles(s, 1, |s|);
      TrimDashLeftKeeps(s[1..]);
    }
  }

  lemma {:induction false} TrimDashRightKeeps(s: string)
    requires CleanName(s)
    ensures CleanName(TrimDashRight(s))
    ensures TrimDashRight(s) == if s != "" && s[|s| - 1] == '-' then s[..|s| - 1] else s
  {
    if s != "" && s[|s| - 1] == '-' {
      var init := s[..|s| - 1];
      SliceKeepsSingles(s, 0, |s| - 1);
      if |s| >= 2 {
        NoDoubleAt(s, |s| - 2);
      }
      TrimDashRightKeeps(init);
    }
  }

  lemma FullNameIsClean(name: string)
    ensures CleanName(FullName(name))
    ensures FullName(name) != "" ==> FullName(name)[|FullName(name)| - 1] != '-'
  {
    var m := MapRunes(TrimSpace(name));
    MapRunesAlphabet(TrimSpace(name));
    CollapseAlphabet(m);
    CollapseHasNoDouble(m);
    TrimDashLeftKeeps(Collapse(m));
    TrimDashRightKeeps(TrimDashLeft(Collapse(m)));
    TrimDashRightEnd(TrimDashLeft(Collapse(m)));
  }

  lemma {:induction false} TrimDashRightEnd(s: string)
    ensures TrimDashRight(s) != "" ==> TrimDashRight(s)[|TrimDashRight(s)| - 1] != '-'
  {
    if s != "" && s[|s| - 1] == '-' {
      TrimDashRightEnd(s[..|s| - 1]);
    }
  }

  /** A sanitised name is empty or matches the name pattern, has no double dash and at most 48 characters. */
  lemma SanitizedIsCleanName(name: string)
    ensures CleanName(Sanitized(name)) && |Sanitized(name)| <= MAX_NAME
    ensures Sanitized(name) == "" || MatchesNamePattern(Sanitized(name))
    ensures !HasDouble(Sanitized(name))
  {
    FullNameIsClean(name);
    if |FullName(name)| > MAX_NAME {
      SliceKeepsSingles(FullName(name), 0, MAX_NAME);
    }
  }

  // ---- the words of a name ----

  const LETTERS := "abcdefghijklmnopqrstuvwxyz"

  /** What a character leaves in its word: letters and digits stay, capitals as the same letter in lower case, two
      more characters become the letter that is their lower case, and all others go. */
  function Leaves(c: char): string {
    if 'a' <= c <= 'z' || '0' <= c <= '9' then [c]
    else if 'A' <= c <= 'Z' then [LETTERS[c as int - 'A' as int]]
    else if c == '\U{0130}' then "i"
    else if c == '\U{212A}' then "k"
    else ""
  }

  predicate Separates(c: char) {
    c == ' ' || c == '_' || c == '-' || c == '.'
  }

  /** The words between separators; some may be empty. */
  function Words(s: string): (words: seq<string>)
    ensures words != []
  {
    if s == "" then [""]
    else
      var rest := Words(s[1..]);
      if Separates(s[0]) then [""] + rest else [Leaves(s[0]) + rest[0]] + rest[1..]
  }

  function NonEmpty(words: seq<string>): seq<string> {
    if words == [] then []
    else (if words[0] == "" then [] else [words[0]]) + NonEmpty(words[1..])
  }

  lemma WithNothing(words: seq<string>)
    requires words != []
    ensures ["" + words[0]] + words[1..] == words
  {
    assert "" + words[0] == words[0];
  }

  lemma NonEmptySkips(words: seq<string>)
    ensures NonEmpty([""] + words) == NonEmpty(words)
  {
    assert ([""] + words)[1..] == words;
  }

  lemma WordsInFront(c: char, s: string)
    ensures Words([c] + s) == if Separates(c) then [""] + Words(s) else [Leaves(c) + Words(s)[0]] + Words(s)[1..]
  {
    assert ([c] + s)[1..] == s;
  }

  lemma LetterIsLower(c: char)
    requires 'A' <= c <= 'Z'
    ensures LETTERS[c as int - 'A' as int] == LowerRune(c)
  {
    assert forall i :: 0 <= i < 26 ==> LETTERS[i] as int == 'a' as int + i;
  }

  lemma MappedIs(c: char)
    ensures MapRune(LowerRune(c)) == if Separates(c) then "-" else Leaves(c)
    ensures '-' !in Leaves(c)
  {
    if 'A' <= c <= 'Z' {
      LetterIsLower(c);
    }
  }

  lemma {:induction false} WordsAreSplit(s: string)
    ensures Split(MapRunes(s), '-') == Words(s)
  {
    if s != "" {
      var rest := MapRunes(s[1..]);
      WordsAreSplit(s[1..]);
      MappedIs(s[0]);
      if Separates(s[0]) {
        SplitInFront('-', rest, '-');
      } else if Leaves(s[0]) == "" {
        assert "" + rest == rest;
        WithNothing(Words(s[1..]));
      } else {
        SplitInFront(Leaves(s[0])[0], rest, '-');
      }
    }
  }

  function Dashed(m: string): string { TrimDashRight(TrimDashLeft(Collapse(m))) }

  function Spelled(m: string): string { Join(NonEmpty(Split(m, '-')), '-') }

  lemma DashInFront(m: string)
    ensures TrimDashLeft(Collapse("-" + m)) == TrimDashLeft(Collapse(m))
    ensures Spelled("-" + m) == Spelled(m)
  {
    var s := "-" + m;
    assert s[0] == '-' && s[1..] == m;
    if !(m != "" && m[0] == '-') {
      assert Collapse(s) == ['-'] + Collapse(m);
      assert Collapse(s)[1..] == Collapse(m);
    }
    SplitInFront('-', m, '-');
    NonEmptySkips(Split(m, '-'));
  }

  lemma OtherInFront(c: char, m: string)
    requires c != '-'
    ensures Dashed([c] + m) == [c] + TrimDashRight(Collapse(m))
  {
    var s := [c] + m;
    assert s[0] == c && s[1..] == m;
    assert Collapse(s) == [c] + Collapse(m);
    assert TrimDashLeft(Collapse(s)) == Collapse(s);
    TrimRightInFront(c, Collapse(m));
  }

  lemma {:induction false} TrimRightInFront(c: char, t: string)
    requires c != '-'
    ensures TrimDashRight([c] + t) == [c] + TrimDashRight(t)
  {
    if t != "" && t[|t| - 1] == '-' {
      var init := t[..|t| - 1];
      assert ([c] + t)[..|t|] == [c] + init && ([c] + t)[|t|] == '-';
      TrimRightInFront(c, init);
    } else {
      assert t != "" ==> ([c] + t)[|t|] == t[|t| - 1];
    }
  }

  /** The first word is as it is, and the others follow. */
  lemma JoinFirst(w: string, words: seq<string>)
    ensures Join([w] + words, '-') == if words == [] then w else w + "-" + Join(words, '-')
  {
    assert ([w] + words)[1..] == words;
  }

  lemma SplitIs(c: char, m: string)
    requires c != '-'
    ensures var words := Split(m, '-'); Split([c] + m, '-') == [[c] + words[0]] + words[1..]
    ensures m == "" ==> Split(m, '-') == [""]
    ensures m != "" ==> (Split(m, '-')[0] == "" <==> m[0] == '-')
  {
    SplitInFront(c, m, '-');
  }

  lemma SpelledBeforeDash(c: char, m: string)
    requires c != '-' && m != "" && m[0] == '-'
    ensures Spelled([c] + m) == if NonEmpty(Split(m, '-')) == [] then [c] else [c] + "-" + Spelled(m)
  {
    var words := Split(m, '-');
    SplitIs(c, m);
    FirstWordSpelled([c], words[1..]);
    NonEmptySkips(words[1..]);
    assert words == [""] + words[1..] && [c] + "" == [c];
  }

  lemma SpelledBeforeWord(c: char, m: string)
    requires c != '-' && m != "" && m[0] != '-'
    ensures Spelled([c] + m) == [c] + Spelled(m)
  {
    var words := Split(m, '-');
    SplitIs(c, m);
    FirstWordSpelled([c] + words[0], words[1..]);
    FirstWordSpelled(words[0], words[1..]);
    assert words == [words[0]] + words[1..];
  }

  lemma SpelledAlone(c: char)
    requires c != '-'
    ensures Spelled([c] + "") == [c] && Spelled("") == ""
  {
    SplitIs(c, "");
    FirstWordSpelled([c] + "", []);
    assert [c] + "" == [c] && [[c] + ""] + [""][1..] == [[c]] + [];
  }

  lemma SpelledInFront(c: char, m: string)
    requires c != '-'
    ensures Spelled([c] + m) ==
            if m == "" || m[0] != '-' then [c] + Spelled(m)
            else if NonEmpty(Split(m, '-')) == [] then [c] else [c] + "-" + Spelled(m)
  {
    if m == "" {
      SpelledAlone(c);
    } else if m[0] == '-' {
      SpelledBeforeDash(c, m);
    } else {
      SpelledBeforeWord(c, m);
    }
  }

  lemma FirstWordSpelled(w: string, words: seq<string>)
    requires w != ""
    ensures Join(NonEmpty([w] + words), '-') == if NonEmpty(words) == [] then w else w + "-" + Join(NonEmpty(words), '-')
  {
    assert ([w] + words)[1..] == words;
    JoinFirst(w, NonEmpty(words));
  }

  lemma {:induction false} NoWordsNoText(words: seq<string>)
    ensures Join(NonEmpty(words), '-') == "" <==> NonEmpty(words) == []
  {
    if words != [] {
      NoWordsNoText(words[1..]);
      if words[0] != "" {
        JoinFirst(words[0], NonEmpty(words[1..]));
      }
    }
  }

  /** Dashes at the end and in a row go, so that the words stand with single dashes between them. */
  lemma {:induction false} DashedIsSpelled(m: string)
    ensures Dashed(m) == Spelled(m)
    ensures TrimDashRight(Collapse(m)) ==
            if m != "" && m[0] == '-' && Spelled(m) != "" then "-" + Spelled(m) else Spelled(m)
  {
    if m == "" {
      assert Split("", '-') == [""] && [""][1..] == [];
    } else if m[0] == '-' {
      DashedIsSpelled(m[1..]);
      assert m == "-" + m[1..];
      DashInFront(m[1..]);
      TrimmedWithDash(m);
    } else {
      DashedIsSpelled(m[1..]);
      assert m == [m[0]] + m[1..];
      OtherInFront(m[0], m[1..]);
      SpelledInFront(m[0], m[1..]);
      NoWordsNoText(Split(m[1..], '-'));
      assert TrimDashLeft(Collapse(m)) == Collapse(m);
    }
  }

  lemma TrimmedWithDash(m: string)
    requires m != "" && m[0] == '-'
    ensures TrimDashRight(Collapse(m)) == if Dashed(m) == "" then "" else "-" + Dashed(m)
  {
    CollapseHasNoDouble(m);
    var c := Collapse(m);
    assert c == ['-'] + c[1..];
    assert |c| > 1 ==> c[1] != '-' by {
      if |c| > 1 {
        NoDoubleAt(c, 0);
      }
    }
    assert TrimDashLeft(c) == c[1..];
    if c[1..] == "" {
      assert c == "-";
      assert c[..0] == "";
    } else {
      TrimRightBehind(c[1..]);
    }
  }

  lemma {:induction false} TrimRightBehind(t: string)
    requires t != "" && t[0] != '-'
    ensures TrimDashRight("-" + t) == "-" + TrimDashRight(t) && TrimDashRight(t) != ""
  {
    if t[|t| - 1] == '-' {
      var init := t[..|t| - 1];
      assert ("-" + t)[..|t|] == "-" + init && ("-" + t)[|t|] == '-';
      TrimRightBehind(init);
    } else {
      assert ("-" + t)[|t|] == t[|t| - 1];
    }
  }

  // ---- trimming first makes no difference ----

  lemma SpaceLeaves(c: char)
    requires IsSpace(c)
    ensures Leaves(c) == "" && (Separates(c) <==> c == ' ')
  {}

  lemma SpaceInFront(c: char, s: string)
    requires IsSpace(c)
    ensures NonEmpty(Words([c] + s)) == NonEmpty(Words(s))
  {
    SpaceLeaves(c);
    WordsInFront(c, s);
    NonEmptySkips(Words(s));
    WithNothing(Words(s));
  }

  lemma {:induction false} TrimLeftKeepsWords(s: string)
    ensures NonEmpty(Words(TrimLeft(s))) == NonEmpty(Words(s))
  {
    if s != "" && IsSpace(s[0]) {
      TrimLeftKeepsWords(s[1..]);
      SpaceInFront(s[0], s[1..]);
      assert s == [s[0]] + s[1..];
    }
  }

  lemma OneMoreWord(words: seq<string>, front: string)
    requires words != []
    ensures [front + (words + [""])[0]] + (words + [""])[1..] == ([front + words[0]] + words[1..]) + [""]
    ensures [""] + (words + [""]) == ([""] + words) + [""]
  {}

  lemma {:induction false} WordsOneMore(s: string, c: char)
    requires IsSpace(c)
    ensures Words(s + [c]) == if c == ' ' then Words(s) + [""] else Words(s)
  {
    SpaceLeaves(c);
    if s == "" {
      WordsInFront(c, "");
      WithNothing(Words(""));
      assert "" + [c] == [c] + "" && Words("") == [""];
    } else {
      WordsOneMore(s[1..], c);
      WordsInFront(s[0], s[1..] + [c]);
      assert s + [c] == [s[0]] + (s[1..] + [c]);
      OneMoreWord(Words(s[1..]), Leaves(s[0]));
    }
  }

  lemma {:induction false} NonEmptyOneMore(words: seq<string>)
    ensures NonEmpty(words + [""]) == NonEmpty(words)
  {
    if words == [] {
      assert [] + [""] == [""] && [""][1..] == [];
    } else {
      assert (words + [""])[0] == words[0] && (words + [""])[1..] == words[1..] + [""];
      NonEmptyOneMore(words[1..]);
    }
  }

  lemma {:induction false} TrimRightKeepsWords(s: string)
    ensures NonEmpty(Words(TrimRight(s))) == NonEmpty(Words(s))
  {
    if s != "" && IsSpace(s[|s| - 1]) {
      var init, c := s[..|s| - 1], s[|s| - 1];
      TrimRightKeepsWords(init);
      assert s == init + [c];
      WordsOneMore(init, c);
      NonEmptyOneMore(Words(init));
    }
  }

  /** A sanitised name is the non-empty words of the text, in their order, with single dashes between them, cut to
      48 characters. */
  lemma SanitizedIsItsWords(name: string)
    ensures var full := Join(NonEmpty(Words(name)), '-');
            Sanitized(name) == if |full| > 48 then full[..48] else full
  {
    WordsAreSplit(TrimSpace(name));
    DashedIsSpelled(MapRunes(TrimSpace(name)));
    TrimLeftKeepsWords(name);
    TrimRightKeepsWords(TrimLeft(name));
  }

  // ---- sanitising again ----

  lemma {:induction false} MapRunesKeepsAlphabet(s: string)
    requires Alphabet(s)
    ensures MapRunes(s) == s
  {
    if s != "" {
      MapRunesKeepsAlphabet(s[1..]);
      assert MapRune(LowerRune(s[0])) == [s[0]];
    }
  }

  lemma CleanNameTrims(s: string)
    requires CleanName(s)
    ensures TrimSpace(s) == s
  {
    if s != "" {
      assert !IsSpace(s[0]) && !IsSpace(s[|s| - 1]);
      assert TrimLeft(s) == s && TrimRight(s) == s;
    }
  }

  lemma CleanIsMapped(s: string)
    requires CleanName(s)
    ensures MapRunes(s) == s
  {
    assert Alphabet(s);
    MapRunesKeepsAlphabet(s);
  }

  lemma CleanIsCollapsed(s: string)
    requires CleanName(s)
    ensures TrimDashLeft(Collapse(s)) == s
  {
    CollapseFixesSingles(s);
    assert TrimDashLeft(s) == s;
  }

  lemma CleanFullName(s: string)
    requires CleanName(s)
    ensures FullName(s) == TrimDashRight(s)
  {
    CleanNameTrims(s);
    CleanIsMapped(s);
    CleanIsCollapsed(s);
  }

  lemma SanitizeCleanName(s: string)
    requires CleanName(s) && |s| <= MAX_NAME
    ensures Sanitized(s) == if s != "" && s[|s| - 1] == '-' then s[..|s| - 1] else s
  {
    CleanFullName(s);
    TrimDashRightKeeps(s);
  }

  /** Where a dash can be at the end of a name that is cut to length. */
  lemma DashAtCut(f: string, n: string)
    requires f != "" ==> f[|f| - 1] != '-'
    requires n == if |f| > MAX_NAME then f[..MAX_NAME] else f
    ensures n != "" && n[|n| - 1] == '-' <==> |f| > MAX_NAME && f[MAX_NAME - 1] == '-'
  {}

  /** Sanitising twice is not always sanitising once: it is exactly if the cut at 48 characters does not fall
      right after a dash. */
  lemma SanitizeIsIdempotentExactlyIf(name: string)
    ensures Sanitized(Sanitized(name)) == Sanitized(name) <==>
            !(|FullName(name)| > MAX_NAME && FullName(name)[MAX_NAME - 1] == '-')
  {
    var n := Sanitized(name);
    SanitizedIsCleanName(name);
    FullNameIsClean(name);
    DashAtCut(FullName(name), n);
    SanitizeCleanName(n);
  }

  /** A fixpoint is reached after at most two applications. */
  lemma SanitizeTwiceIsFixpoint(name: string)
    ensures Sanitized(Sanitized(Sanitized(name))) == Sanitized(Sanitized(name))
  {
    SanitizedIsCleanName(name);
    var once := Sanitized(name);
    SanitizeCleanName(once);
    var twice := Sanitized(once);
    SanitizedIsCleanName(once);
    SanitizeCleanName(twice);
    if |once| >= 2 {
      NoDoubleAt(once, |once| - 2);
    }
  }

  /** Once is not enough: 47 letters, a dash and another letter. */
  lemma OnceIsNotEnough() returns (name: string)
    ensures Sanitized(Sanitized(name)) != Sanitized(name)
  {
    var letters: string := seq(47, i => 'a');
    name := letters + "-b";
    assert CleanName(name);
    assert TrimLeft(name) == name && TrimSpace(name) == name;
    assert Alphabet(name);
    MapRunesKeepsAlphabet(name);
    CollapseFixesSingles(name);
    assert TrimDashLeft(name) == name && TrimDashRight(name) == name;
    assert FullName(name) == name;
    SanitizeIsIdempotentExactlyIf(name);
  }
}
