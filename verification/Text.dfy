/** The string functions of Go's standard library that the modelled code uses. */
module Text {

  /** unicode.IsSpace. */
  predicate IsSpace(c: char) {
    || c == ' ' || '\U{0009}' <= c <= '\U{000D}' || c == '\U{0085}' || c == '\U{00A0}' || c == '\U{1680}'
    || '\U{2000}' <= c <= '\U{200A}' || c == '\U{2028}' || c == '\U{2029}' || c == '\U{202F}' || c == '\U{205F}'
    || c == '\U{3000}'
  }

  function TrimLeft(s: string): (r: string)
    ensures |r| <= |s|
  {
    if s != "" && IsSpace(s[0]) then TrimLeft(s[1..]) else s
  }

  function TrimRight(s: string): (r: string)
    ensures |r| <= |s|
  {
    if s != "" && IsSpace(s[|s| - 1]) then TrimRight(s[..|s| - 1]) else s
  }

  /** strings.TrimSpace. */
  function TrimSpace(s: string): (r: string)
    ensures |r| <= |s|
  {
    TrimRight(TrimLeft(s))
  }

  lemma {:induction false} TrimLeftShape(s: string)
    ensures TrimLeft(s) == s[|s| - |TrimLeft(s)|..] && (TrimLeft(s) != "" ==> !IsSpace(TrimLeft(s)[0]))
  {
    if s != "" && IsSpace(s[0]) {
      TrimLeftShape(s[1..]);
    }
  }

  lemma {:induction false} TrimRightShape(s: string)
    ensures TrimRight(s) == s[..|TrimRight(s)|] && (TrimRight(s) != "" ==> !IsSpace(TrimRight(s)[|TrimRight(s)| - 1]))
  {
    if s != "" && IsSpace(s[|s| - 1]) {
      TrimRightShape(s[..|s| - 1]);
    }
  }

  predicate AllSpace(s: string) {
    forall i :: 0 <= i < |s| ==> IsSpace(s[i])
  }

  lemma {:induction false} TrimLeftTakesSpace(s: string)
    ensures AllSpace(s[..|s| - |TrimLeft(s)|])
  {
    if s != "" && IsSpace(s[0]) {
      TrimLeftTakesSpace(s[1..]);
      var n := |s| - |TrimLeft(s)|;
      assert s[..n] == [s[0]] + s[1..][..n - 1];
    }
  }

  lemma {:induction false} TrimRightTakesSpace(s: string)
    ensures AllSpace(s[|TrimRight(s)|..])
  {
    if s != "" && IsSpace(s[|s| - 1]) {
      var init, n := s[..|s| - 1], |TrimRight(s)|;
      TrimRightTakesSpace(init);
      assert s[n..] == init[n..] + [s[|s| - 1]];
    }
  }

  /** Trimming takes off the space at both ends, and nothing else. */
  lemma TrimTakesSpace(s: string) returns (before: string, after: string)
    ensures s == before + TrimSpace(s) + after && AllSpace(before) && AllSpace(after)
    ensures TrimSpace(s) != "" ==> !IsSpace(TrimSpace(s)[0]) && !IsSpace(TrimSpace(s)[|TrimSpace(s)| - 1])
  {
    before, after := s[..|s| - |TrimLeft(s)|], TrimLeft(s)[|TrimRight(TrimLeft(s))|..];
    TrimLeftShape(s);
    TrimRightShape(TrimLeft(s));
    TrimLeftTakesSpace(s);
    TrimRightTakesSpace(TrimLeft(s));
    Parted(s, TrimLeft(s), TrimRight(TrimLeft(s)));
  }

  lemma Parted(s: string, t: string, u: string)
    requires |t| <= |s| && t == s[|s| - |t|..] && |u| <= |t| && u == t[..|u|]
    ensures s == s[..|s| - |t|] + u + t[|u|..]
  {}

  /** strings.Contains. */
  predicate Contains(s: string, sub: string) {
    sub <= s || (s != "" && Contains(s[1..], sub))
  }

  /** A text contains another exactly if that is a slice of it. */
  lemma {:induction false} ContainsExactlyIfSlice(s: string, sub: string)
    ensures Contains(s, sub) <==> exists i :: 0 <= i <= |s| && sub <= s[i..]
  {
    if sub <= s {
      assert s[0..] == s;
    } else if s != "" {
      ContainsExactlyIfSlice(s[1..], sub);
      if i :| 0 <= i <= |s[1..]| && sub <= s[1..][i..] {
        assert s[1..][i..] == s[i + 1..];
      }
      if i :| 0 <= i <= |s| && sub <= s[i..] {
        assert i > 0 by { assert s[0..] == s; }
        assert s[1..][i - 1..] == s[i..];
      }
    }
  }

  lemma TrimLeftSpace(c: char, s: string)
    requires IsSpace(c)
    ensures TrimLeft([c] + s) == TrimLeft(s)
  {
    assert ([c] + s)[1..] == s;
  }

  lemma Reassociate(a: string, b: string, c: string)
    ensures a + (b + c) == (a + b) + c
  {}

  // ---- splitting and joining, at newlines if nothing else is said ----

  /** strings.Split(s, sep). */
  function Split(s: string, sep: char := '\n'): (lines: seq<string>)
    ensures lines != [] && forall i :: 0 <= i < |lines| ==> sep !in lines[i]
  {
    if s == "" then [""]
    else
      var rest := Split(s[1..], sep);
      if s[0] == sep then [""] + rest else [[s[0]] + rest[0]] + rest[1..]
  }

  /** strings.Join(lines, sep). */
  function Join(lines: seq<string>, sep: char := '\n'): string {
    if lines == [] then "" else if |lines| == 1 then lines[0] else lines[0] + [sep] + Join(lines[1..], sep)
  }

  lemma {:induction false} SplitLine(line: string, sep: char := '\n')
    requires sep !in line
    ensures Split(line, sep) == [line]
  {
    if line != "" {
      SplitLine(line[1..], sep);
      assert [line[0]] + line[1..] == line;
    }
  }

  /** One more character in front of the first line. */
  function InFront(c: char, lines: seq<string>, sep: char := '\n'): seq<string>
    requires lines != []
  {
    if c == sep then [""] + lines else [[c] + lines[0]] + lines[1..]
  }

  lemma SplitInFront(c: char, s: string, sep: char := '\n')
    ensures Split([c] + s, sep) == InFront(c, Split(s, sep), sep)
  {
    assert ([c] + s)[1..] == s;
  }

  lemma InFrontOfConcat(c: char, a: seq<string>, b: seq<string>, sep: char := '\n')
    requires a != []
    ensures InFront(c, a + b, sep) == InFront(c, a, sep) + b
  {
    assert (a + b)[0] == a[0] && (a + b)[1..] == a[1..] + b;
  }

  lemma {:induction false} SplitConcat(s: string, t: string, sep: char := '\n')
    ensures Split(s + [sep] + t, sep) == Split(s, sep) + Split(t, sep)
  {
    if s == "" {
      assert "" + [sep] + t == [sep] + t;
      SplitInFront(sep, t, sep);
      assert Split("", sep) == [""];
    } else {
      var c, rest := s[0], s[1..];
      SplitConcat(rest, t, sep);
      assert s == [c] + rest && s + [sep] + t == [c] + (rest + [sep] + t);
      SplitInFront(c, rest, sep);
      SplitInFront(c, rest + [sep] + t, sep);
      InFrontOfConcat(c, Split(rest, sep), Split(t, sep), sep);
    }
  }

  /** Reading joined lines back gives the lines. */
  lemma {:induction false} SplitJoin(lines: seq<string>, sep: char := '\n')
    requires lines != [] && forall i :: 0 <= i < |lines| ==> sep !in lines[i]
    ensures Split(Join(lines, sep), sep) == lines
  {
    SplitLine(lines[0], sep);
    if |lines| > 1 {
      SplitConcat(lines[0], Join(lines[1..], sep), sep);
      SplitJoin(lines[1..], sep);
    } else {
      assert lines == [lines[0]];
    }
  }
}
