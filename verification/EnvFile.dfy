/** Line scanners over KEY=value files. Three of them read a line in slightly different ways; this module shows
    when they agree. */
module EnvFile {
  import opened Text
  import opened Wrappers

  // ---- lines ----

  /** strings.TrimRight(s, "\n"). */
  function TrimNewlines(s: string): (r: string)
    ensures |r| <= |s| && (r == "" || r[|r| - 1] != '\n')
  {
    if s != "" && s[|s| - 1] == '\n' then TrimNewlines(s[..|s| - 1]) else s
  }

  function Blanks(n: nat): (r: seq<string>)
    ensures |r| == n && forall i :: 0 <= i < n ==> r[i] == ""
  {
    seq(n, i => "")
  }

  /** Trailing newlines are blank lines at the end. */
  lemma {:induction false} SplitTrimmed(s: string)
    ensures Split(s) == Split(TrimNewlines(s)) + Blanks(|s| - |TrimNewlines(s)|)
  {
    if s != "" && s[|s| - 1] == '\n' {
      var init := s[..|s| - 1];
      assert s == init + "\n" + "";
      SplitConcat(init, "");
      SplitTrimmed(init);
      assert Blanks(|init| - |TrimNewlines(init)|) + [""] == Blanks(|s| - |TrimNewlines(s)|);
    }
  }

  // ---- one line ----

  function TrimExport(s: string): string {
    if "export " <= s then s[7..] else s
  }

  predicate HasEq(s: string) { '=' in s }

  function BeforeEq(s: string): string {
    if s == "" || s[0] == '=' then "" else [s[0]] + BeforeEq(s[1..])
  }

  /** What is left of a line when its surrounding space and an export prefix are gone. */
  function Stripped(line: string): string { TrimExport(TrimSpace(line)) }

  predicate AssignsTo(t: string, key: string) {
    HasEq(t) && TrimSpace(BeforeEq(t)) == key
  }

  predicate IsComment(t: string) { t != "" && t[0] == '#' }

  /** removeEnvFile's test: trims again after the export prefix and passes comments over. */
  predicate RemoveEnvDrops(line: string, key: string) {
    var t := TrimSpace(Stripped(line));
    t != "" && !IsComment(t) && AssignsTo(t, key)
  }

  /** removeHomeEnvKey's test: neither. */
  predicate HomeDrops(line: string, key: string) {
    AssignsTo(Stripped(line), key)
  }

  /** envFileKeys' reading of a line. */
  function ReadKey(line: string): Option<string> {
    var t := Stripped(line);
    if t == "" || IsComment(t) || !HasEq(t) then None else Some(TrimSpace(BeforeEq(t)))
  }

  lemma BeforeEqSpace(c: char, s: string)
    requires c != '='
    ensures HasEq([c] + s) == HasEq(s) && BeforeEq([c] + s) == [c] + BeforeEq(s)
  {
    assert ([c] + s)[0] == c && ([c] + s)[1..] == s;
  }

  lemma {:induction false} KeyAfterTrimLeft(s: string)
    ensures HasEq(TrimLeft(s)) == HasEq(s) && TrimSpace(BeforeEq(TrimLeft(s))) == TrimSpace(BeforeEq(s))
  {
    if s != "" && IsSpace(s[0]) {
      var c, rest := s[0], s[1..];
      assert s == [c] + rest;
      KeyAfterTrimLeft(rest);
      BeforeEqSpace(c, rest);
      TrimLeftSpace(c, rest);
      TrimLeftSpace(c, BeforeEq(rest));
    }
  }

  lemma {:induction false} KeyBeforeLast(s: string, c: char)
    requires c != '='
    ensures HasEq(s + [c]) == HasEq(s) && (HasEq(s) ==> BeforeEq(s + [c]) == BeforeEq(s))
  {
    if s != "" && s[0] != '=' {
      assert (s + [c])[1..] == s[1..] + [c];
      KeyBeforeLast(s[1..], c);
      assert HasEq(s) == HasEq(s[1..]) by { assert s == [s[0]] + s[1..]; }
    }
  }

  lemma {:induction false} KeyAfterTrimRight(s: string)
    ensures HasEq(TrimRight(s)) == HasEq(s) && (HasEq(s) ==> BeforeEq(TrimRight(s)) == BeforeEq(s))
  {
    if s != "" && IsSpace(s[|s| - 1]) {
      var init := s[..|s| - 1];
      assert s == init + [s[|s| - 1]];
      KeyBeforeLast(init, s[|s| - 1]);
      KeyAfterTrimRight(init);
    }
  }

  lemma KeyAfterTrimSpace(s: string)
    ensures HasEq(TrimSpace(s)) == HasEq(s)
    ensures HasEq(s) ==> TrimSpace(BeforeEq(TrimSpace(s))) == TrimSpace(BeforeEq(s))
  {
    KeyAfterTrimLeft(s);
    KeyAfterTrimRight(TrimLeft(s));
  }

  lemma TrimKeepsFirst(s: string)
    requires s != "" && !IsSpace(s[0])
    ensures TrimSpace(s) != "" && TrimSpace(s)[0] == s[0]
  {
    assert TrimLeft(s) == s;
    TrimRightKeepsFirst(s);
  }

  lemma {:induction false} TrimRightKeepsFirst(s: string)
    requires s != "" && !IsSpace(s[0])
    ensures TrimRight(s) != "" && TrimRight(s)[0] == s[0]
  {
    if IsSpace(s[|s| - 1]) {
      TrimRightKeepsFirst(s[..|s| - 1]);
    }
  }

  lemma CommentAssignsToComment(t: string, key: string)
    requires IsComment(t) && key != "" && key[0] != '#'
    ensures !AssignsTo(t, key)
  {
    if HasEq(t) {
      TrimKeepsFirst(BeforeEq(t));
    }
  }

  lemma AssignsAfterTrim(t: string, key: string)
    ensures AssignsTo(TrimSpace(t), key) <==> AssignsTo(t, key)
  {
    KeyAfterTrimSpace(t);
  }

  /** For a key that does not look like a comment, the two removers drop the same lines: those that the reader
      reads as that key. */
  lemma ScannersAgreeOnLine(line: string, key: string)
    requires key != "" && key[0] != '#'
    ensures RemoveEnvDrops(line, key) <==> HomeDrops(line, key)
    ensures HomeDrops(line, key) <==> ReadKey(line) == Some(key)
  {
    var t := Stripped(line);
    var u := TrimSpace(t);
    AssignsAfterTrim(t, key);
    if IsComment(t) {
      CommentAssignsToComment(t, key);
    }
    if IsComment(u) {
      CommentAssignsToComment(u, key);
    }
  }

  lemma {:induction false} BeforeEqOfKey(key: string, rest: string)
    requires !HasEq(key)
    ensures BeforeEq(key + "=" + rest) == key && HasEq(key + "=" + rest)
  {
    assert (key + "=" + rest)[|key|] == '=';
    if key != "" {
      assert (key + "=" + rest)[1..] == key[1..] + "=" + rest;
      BeforeEqOfKey(key[1..], rest);
      assert key == [key[0]] + key[1..];
    }
  }

  lemma {:induction false} BeforeEqHasNoEq(s: string)
    ensures !HasEq(BeforeEq(s))
  {
    if s != "" && s[0] != '=' {
      BeforeEqHasNoEq(s[1..]);
    }
  }

  lemma NeverAssignsToEq(t: string, key: string)
    requires HasEq(key)
    ensures !AssignsTo(t, key)
  {
    BeforeEqHasNoEq(t);
    var before, after := TrimTakesSpace(BeforeEq(t));
    assert forall c :: c in TrimSpace(BeforeEq(t)) ==> c in BeforeEq(t);
  }

  /** That is the exact condition: the removers agree on every line if and only if the key does not start with
      '#', or contains '=' and so is never found at all. */
  lemma ScannersAgreeExactlyIf(key: string)
    requires key != "" && TrimSpace(key) == key
    ensures (forall line :: RemoveEnvDrops(line, key) <==> HomeDrops(line, key)) <==> key[0] != '#' || HasEq(key)
  {
    if key[0] != '#' {
      forall line
        ensures RemoveEnvDrops(line, key) <==> HomeDrops(line, key)
      {
        ScannersAgreeOnLine(line, key);
      }
    } else if HasEq(key) {
      forall line
        ensures !RemoveEnvDrops(line, key) && !HomeDrops(line, key)
      {
        NeverAssignsToEq(Stripped(line), key);
        NeverAssignsToEq(TrimSpace(Stripped(line)), key);
      }
    } else {
      CommentKeySeparates(key);
    }
  }

  lemma NothingToTrim(line: string)
    requires line != "" && !IsSpace(line[0]) && !IsSpace(line[|line| - 1])
    ensures TrimSpace(line) == line
  {
    assert TrimLeft(line) == line;
    assert TrimRight(line) == line;
  }

  lemma CommentIsStripped(line: string)
    requires IsComment(line) && !IsSpace(line[|line| - 1])
    ensures Stripped(line) == line
  {
    NothingToTrim(line);
    assert "export "[0] == 'e';
  }

  lemma KeyLineAssigns(key: string)
    requires key != "" && TrimSpace(key) == key && !HasEq(key)
    ensures AssignsTo(key + "=", key)
  {
    BeforeEqOfKey(key, "");
    assert key + "=" + "" == key + "=";
  }

  lemma CommentIsPassedOver(line: string, key: string)
    requires IsComment(line) && !IsSpace(line[|line| - 1])
    ensures !RemoveEnvDrops(line, key) && (HomeDrops(line, key) <==> AssignsTo(line, key))
  {
    CommentIsStripped(line);
    NothingToTrim(line);
  }

  /** For a key such as "#A", the line "#A=" is a comment to one remover and an assignment to the other. */
  lemma CommentKeySeparates(key: string)
    requires key != "" && TrimSpace(key) == key && key[0] == '#' && !HasEq(key)
    ensures HomeDrops(key + "=", key) && !RemoveEnvDrops(key + "=", key)
  {
    KeyLineAssigns(key);
    CommentIsPassedOver(key + "=", key);
  }

  // ---- assignments are read ----

  lemma {:induction false} TrimRightOfMore(a: string, rest: string) returns (left: string)
    requires a != "" && !IsSpace(a[|a| - 1])
    ensures left <= rest && TrimRight(a + rest) == a + left
  {
    if rest == "" || !IsSpace(rest[|rest| - 1]) {
      left := rest;
    } else {
      var init := rest[..|rest| - 1];
      assert (a + rest)[..|a + rest| - 1] == a + init;
      left := TrimRightOfMore(a, init);
    }
  }

  lemma TrimOfMore(a: string, rest: string) returns (left: string)
    requires a != "" && !IsSpace(a[0]) && !IsSpace(a[|a| - 1])
    ensures left <= rest && TrimSpace(a + rest) == a + left
  {
    assert (a + rest)[0] == a[0];
    assert TrimLeft(a + rest) == a + rest;
    left := TrimRightOfMore(a, rest);
  }

  predicate IsKey(key: string) {
    key != "" && TrimSpace(key) == key && !HasEq(key) && key[0] != '#'
  }

  lemma KeyIsRead(t: string, key: string, left: string)
    requires IsKey(key) && t == key + "=" + left
    ensures t != "" && !IsComment(t) && HasEq(t) && TrimSpace(BeforeEq(t)) == key
  {
    BeforeEqOfKey(key, left);
    assert t[0] == key[0];
  }

  lemma NoExportPrefix(key: string, left: string)
    requires !HasEq(key) && !("export " <= key)
    ensures !("export " <= key + "=" + left)
  {
    var t := key + "=" + left;
    assert t[|key|] == '=' && t[..|key|] == key;
    assert forall i :: 0 <= i < 7 ==> "export "[i] != '=';
    if |key| >= 7 {
      assert t[..7] == key[..7];
    }
  }

  lemma ExportIsTrimmed(t: string)
    ensures TrimExport("export " + t) == t
  {}

  lemma PlainIsRead(key: string, value: string)
    requires IsKey(key) && !("export " <= key)
    ensures ReadKey(key + "=" + value) == Some(key)
  {
    var left := TrimOfMore(key + "=", value);
    NoExportPrefix(key, left);
    KeyIsRead(key + "=" + left, key, left);
  }

  lemma ExportedEnds(key: string)
    ensures ("export " + (key + "="))[0] == 'e' && ("export " + (key + "="))[|key| + 7] == '='
  {}

  lemma ExportedIsRead(key: string, value: string)
    requires IsKey(key)
    ensures ReadKey("export " + (key + "=" + value)) == Some(key)
  {
    ExportedEnds(key);
    var left := TrimOfMore("export " + (key + "="), value);
    Reassociate("export ", key + "=", value);
    Reassociate("export ", key + "=", left);
    ExportIsTrimmed(key + "=" + left);
    KeyIsRead(key + "=" + left, key, left);
  }

  /** A line KEY=value is read as an assignment to KEY, whatever the value; after "export " just the same. */
  lemma AssignmentIsRead(key: string, value: string)
    requires IsKey(key) && !("export " <= key)
    ensures ReadKey(key + "=" + value) == Some(key) && ReadKey("export " + (key + "=" + value)) == Some(key)
  {
    PlainIsRead(key, value);
    ExportedIsRead(key, value);
  }

  /** Comments, also exported ones, and lines without '=' are no assignments. */
  lemma OtherLinesAreNotRead(line: string)
    requires !HasEq(line) || IsComment(Stripped(line))
    ensures ReadKey(line) == None
  {
    if !HasEq(line) {
      KeyAfterTrimSpace(line);
      NoEqAfterExport(TrimSpace(line));
    }
  }

  lemma NoEqAfterExport(t: string)
    requires !HasEq(t)
    ensures !HasEq(TrimExport(t))
  {
    assert forall i :: 0 <= i < |t| ==> t[i] != '=';
  }

  // ---- whole files ----

  /** The lines that a scanner does not drop. */
  function Kept(lines: seq<string>, drops: string -> bool): seq<string> {
    if lines == [] then []
    else Kept(lines[..|lines| - 1], drops) + if drops(lines[|lines| - 1]) then [] else [lines[|lines| - 1]]
  }

  function KeysRead(lines: seq<string>, read: string -> Option<string>): set<string> {
    if lines == [] then {}
    else KeysRead(lines[..|lines| - 1], read) + if read(lines[|lines| - 1]).Some? then {read(lines[|lines| - 1]).value} else {}
  }

  function EnvDrops(key: string): string -> bool { (line: string) => RemoveEnvDrops(line, key) }

  function HomeDropsFor(key: string): string -> bool { (line: string) => HomeDrops(line, key) }

  function KeysOf(lines: seq<string>): set<string> { KeysRead(lines, ReadKey) }

  /** The file that removeEnvFile writes. */
  function EnvOutput(kept: seq<string>): string {
    if kept == [] then "" else Join(kept) + "\n"
  }

  /** Filtering goes line by line, and keeps the lines that are not dropped where they are. */
  lemma {:induction false} KeptIsAFilter(a: seq<string>, b: seq<string>, line: string, drops: string -> bool)
    ensures Kept(a + b, drops) == Kept(a, drops) + Kept(b, drops)
    ensures Kept([line], drops) == if drops(line) then [] else [line]
  {
    assert [line][..0] == [];
    if b == [] {
      assert a + b == a;
    } else {
      assert (a + b)[..|a + b| - 1] == a + b[..|b| - 1];
      KeptIsAFilter(a, b[..|b| - 1], line, drops);
    }
  }

  lemma KeptOneMore(lines: seq<string>, i: nat, drops: string -> bool)
    requires i < |lines|
    ensures Kept(lines[..i + 1], drops) == Kept(lines[..i], drops) + if drops(lines[i]) then [] else [lines[i]]
  {
    assert lines[..i + 1][..i] == lines[..i];
  }

  /** removeEnvFile on the text of a file; None means that the file is left alone. */
  method RemoveEnvFile(data: string, key: string) returns (out: Option<string>)
    ensures TrimSpace(key) == "" <==> out == None
    ensures out.Some? ==> out.value == EnvOutput(Kept(Split(TrimNewlines(data)), EnvDrops(TrimSpace(key))))
  {
    var k := TrimSpace(key);
    if k == "" {
      return None;
    }
    var lines := Split(TrimNewlines(data));
    var kept: seq<string> := [];
    ghost var drops := EnvDrops(k);
    for i := 0 to |lines|
      invariant kept == Kept(lines[..i], drops)
    {
      KeptOneMore(lines, i, drops);
      assert drops(lines[i]) == RemoveEnvDrops(lines[i], k);
      var t := TrimSpace(Stripped(lines[i]));
      if t == "" || IsComment(t) {
        kept := kept + [lines[i]];
        continue;
      }
      if AssignsTo(t, k) {
        continue;
      }
      kept := kept + [lines[i]];
    }
    assert lines[..|lines|] == lines;
    out := Some(EnvOutput(kept));
  }

  /** The line loop of removeHomeEnvKey. */
  method FilterLines(lines: seq<string>, drops: string -> bool) returns (kept: seq<string>, removed: bool)
    ensures kept == Kept(lines, drops) && (removed <==> kept != lines)
  {
    kept, removed := [], false;
    for i := 0 to |lines|
      invariant kept == Kept(lines[..i], drops)
      invariant if removed then |kept| < i else kept == lines[..i]
    {
      KeptOneMore(lines, i, drops);
      if drops(lines[i]) {
        removed := true;
        continue;
      }
      kept := kept + [lines[i]];
    }
    assert lines[..|lines|] == lines;
  }

  /** removeHomeEnvKey on the text of a file; None means that the file is not written. */
  method RemoveHomeEnvKey(data: string, key: string) returns (out: Option<string>)
    ensures out == None <==> Kept(Split(data), HomeDropsFor(key)) == Split(data)
    ensures out.Some? ==> out.value == Join(Kept(Split(data), HomeDropsFor(key)))
  {
    var kept, removed := FilterLines(Split(data), HomeDropsFor(key));
    out := if removed then Some(Join(kept)) else None;
  }

  lemma KeysOneMore(lines: seq<string>, i: nat, read: string -> Option<string>)
    requires i < |lines|
    ensures KeysRead(lines[..i + 1], read) == KeysRead(lines[..i], read) + if read(lines[i]).Some? then {read(lines[i]).value} else {}
  {
    assert lines[..i + 1][..i] == lines[..i];
  }

  /** A key is read from a file exactly if one of its lines is read as an assignment to it. */
  lemma {:induction false} KeysReadAreThoseOfLines(lines: seq<string>, read: string -> Option<string>, key: string)
    ensures key in KeysRead(lines, read) <==> exists i :: 0 <= i < |lines| && read(lines[i]) == Some(key)
  {
    if lines != [] {
      var init := lines[..|lines| - 1];
      KeysReadAreThoseOfLines(init, read, key);
      if i :| 0 <= i < |init| && read(init[i]) == Some(key) {
        assert lines[i] == init[i];
      }
      if i :| 0 <= i < |lines| && read(lines[i]) == Some(key) {
        assert i < |init| ==> init[i] == lines[i];
      }
    }
  }

  lemma KeysAreThoseOfLines(lines: seq<string>, key: string)
    ensures key in KeysOf(lines) <==> exists i :: 0 <= i < |lines| && ReadKey(lines[i]) == Some(key)
  {
    KeysReadAreThoseOfLines(lines, ReadKey, key);
  }

  method EnvFileKeys(data: string) returns (keys: set<string>)
    ensures keys == KeysOf(Split(data))
  {
    keys := {};
    var lines := Split(data);
    ghost var read: string -> Option<string> := ReadKey;
    for i := 0 to |lines|
      invariant keys == KeysRead(lines[..i], read)
    {
      KeysOneMore(lines, i, read);
      assert read(lines[i]) == ReadKey(lines[i]);
      var t := Stripped(lines[i]);
      if t == "" || IsComment(t) {
        continue;
      }
      if HasEq(t) {
        keys := keys + {TrimSpace(BeforeEq(t))};
      }
    }
    assert lines[..|lines|] == lines;
  }

  // ---- both removers, on the same file ----

  lemma {:induction false} KeptCongruent(lines: seq<string>, drops: string -> bool, also: string -> bool)
    requires forall line :: drops(line) <==> also(line)
    ensures Kept(lines, drops) == Kept(lines, also)
  {
    if lines != [] {
      KeptCongruent(lines[..|lines| - 1], drops, also);
    }
  }

  lemma {:induction false} KeysConcat(a: seq<string>, b: seq<string>, read: string -> Option<string>)
    ensures KeysRead(a + b, read) == KeysRead(a, read) + KeysRead(b, read)
  {
    if b == [] {
      assert a + b == a;
    } else {
      assert (a + b)[..|a + b| - 1] == a + b[..|b| - 1];
      KeysConcat(a, b[..|b| - 1], read);
    }
  }

  /** A scanner that drops exactly the lines read as one key removes exactly that key. */
  lemma {:induction false} KeptKeys(lines: seq<string>, drops: string -> bool, read: string -> Option<string>, key: string)
    requires forall line :: drops(line) <==> read(line) == Some(key)
    ensures KeysRead(Kept(lines, drops), read) == KeysRead(lines, read) - {key}
  {
    if lines != [] {
      var init, last := lines[..|lines| - 1], lines[|lines| - 1];
      KeptKeys(init, drops, read, key);
      if drops(last) {
        assert Kept(lines, drops) == Kept(init, drops);
      } else {
        assert Kept(lines, drops)[..|Kept(lines, drops)| - 1] == Kept(init, drops);
      }
    }
  }

  lemma {:induction false} KeptBlanks(lines: seq<string>, n: nat, drops: string -> bool)
    requires !drops("")
    ensures Kept(lines + Blanks(n), drops) == Kept(lines, drops) + Blanks(n)
  {
    if n == 0 {
      assert lines + Blanks(0) == lines;
    } else {
      assert (lines + Blanks(n))[..|lines| + n - 1] == lines + Blanks(n - 1);
      KeptBlanks(lines, n - 1, drops);
      assert Blanks(n) == Blanks(n - 1) + [""];
    }
  }

  lemma {:induction false} KeysOfBlanks(n: nat, read: string -> Option<string>)
    requires read("") == None
    ensures KeysRead(Blanks(n), read) == {}
  {
    if n > 0 {
      KeysOfBlanks(n - 1, read);
      assert Blanks(n)[..n - 1] == Blanks(n - 1);
    }
  }

  lemma {:induction false} KeptFrom(lines: seq<string>, drops: string -> bool)
    ensures forall i :: 0 <= i < |Kept(lines, drops)| ==> Kept(lines, drops)[i] in lines
  {
    if lines != [] {
      assert lines == lines[..|lines| - 1] + [lines[|lines| - 1]];
      KeptFrom(lines[..|lines| - 1], drops);
    }
  }

  lemma DropsAgree(key: string)
    requires key != "" && key[0] != '#'
    ensures forall line :: EnvDrops(key)(line) <==> HomeDropsFor(key)(line)
    ensures forall line :: HomeDropsFor(key)(line) <==> ReadKey(line) == Some(key)
    ensures !HomeDropsFor(key)("")
  {
    forall line: string
      ensures EnvDrops(key)(line) <==> HomeDropsFor(key)(line)
      ensures HomeDropsFor(key)(line) <==> ReadKey(line) == Some(key)
    {
      ScannersAgreeOnLine(line, key);
    }
    assert !HomeDrops("", key);
  }

  lemma SameKept(lines: seq<string>, n: nat, drops: string -> bool, also: string -> bool)
    requires (forall line :: drops(line) <==> also(line)) && !also("")
    ensures Kept(lines + Blanks(n), also) == Kept(lines, drops) + Blanks(n)
  {
    KeptBlanks(lines, n, also);
    KeptCongruent(lines, drops, also);
  }

  lemma SameKeptOfFile(data: string, drops: string -> bool, also: string -> bool)
    requires (forall line :: drops(line) <==> also(line)) && !also("")
    ensures Kept(Split(data), also) == Kept(Split(TrimNewlines(data)), drops) + Blanks(|data| - |TrimNewlines(data)|)
  {
    SplitTrimmed(data);
    SameKept(Split(TrimNewlines(data)), |data| - |TrimNewlines(data)|, drops, also);
  }

  /** Whatever the file holds, the two removers keep exactly the same lines in the same order; the second also
      keeps the blank lines that the file ends with. */
  lemma RemoversKeepTheSameLines(data: string, key: string)
    requires key != "" && key[0] != '#'
    ensures Kept(Split(data), HomeDropsFor(key))
         == Kept(Split(TrimNewlines(data)), EnvDrops(key)) + Blanks(|data| - |TrimNewlines(data)|)
  {
    DropsAgree(key);
    SameKeptOfFile(data, EnvDrops(key), HomeDropsFor(key));
  }

  /** What removeEnvFile writes has the kept lines, each ended by a line break. */
  lemma OutputHasTheLines(kept: seq<string>)
    requires forall i :: 0 <= i < |kept| ==> '\n' !in kept[i]
    ensures Split(EnvOutput(kept)) == kept + [""]
  {
    if kept != [] {
      SplitJoin(kept);
      assert Join(kept) + "\n" == Join(kept) + "\n" + "";
      SplitConcat(Join(kept), "");
    }
    assert Split("") == [""];
  }

  lemma NoLinesReadBack(read: string -> Option<string>)
    requires read("") == None
    ensures KeysRead(Split(""), read) == {}
  {
    KeysOfBlanks(1, read);
    assert Split("") == Blanks(1);
  }

  lemma OneMoreBreak(text: string, lines: seq<string>, read: string -> Option<string>)
    requires Split(text) == lines && read("") == None
    ensures KeysRead(Split(text + "\n"), read) == KeysRead(lines, read)
  {
    assert text + "\n" == text + "\n" + "";
    SplitConcat(text, "");
    assert Split("") == Blanks(1);
    KeysOfBlanks(1, read);
    KeysConcat(lines, Blanks(1), read);
  }

  /** Reading back the kept lines, joined by either remover, gives their keys. */
  lemma ReadBack(kept: seq<string>, read: string -> Option<string>)
    requires (forall i :: 0 <= i < |kept| ==> '\n' !in kept[i]) && read("") == None
    ensures KeysRead(Split(EnvOutput(kept)), read) == KeysRead(kept, read)
    ensures KeysRead(Split(Join(kept)), read) == KeysRead(kept, read)
  {
    if kept == [] {
      NoLinesReadBack(read);
    } else {
      SplitJoin(kept);
      OneMoreBreak(Join(kept), kept, read);
    }
  }

  /** A scanner that drops exactly the lines read as one key writes a file without that key. */
  lemma RemovalReadsBack(lines: seq<string>, drops: string -> bool, read: string -> Option<string>, key: string)
    requires (forall i :: 0 <= i < |lines| ==> '\n' !in lines[i]) && read("") == None
    requires forall line :: drops(line) <==> read(line) == Some(key)
    ensures KeysRead(Split(EnvOutput(Kept(lines, drops))), read) == KeysRead(lines, read) - {key}
    ensures KeysRead(Split(Join(Kept(lines, drops))), read) == KeysRead(lines, read) - {key}
  {
    KeptKeys(lines, drops, read, key);
    KeptFrom(lines, drops);
    ReadBack(Kept(lines, drops), read);
  }

  lemma TrimmedNewlinesKeepKeys(data: string, read: string -> Option<string>)
    requires read("") == None
    ensures KeysRead(Split(TrimNewlines(data)), read) == KeysRead(Split(data), read)
  {
    var n := |data| - |TrimNewlines(data)|;
    SplitTrimmed(data);
    KeysConcat(Split(TrimNewlines(data)), Blanks(n), read);
    KeysOfBlanks(n, read);
  }

  /** Reading back what either remover wrote gives the original keys minus the removed one. */
  lemma RemovalRemovesExactlyTheKey(data: string, key: string)
    requires key != "" && key[0] != '#'
    ensures KeysOf(Split(EnvOutput(Kept(Split(TrimNewlines(data)), EnvDrops(key))))) == KeysOf(Split(data)) - {key}
    ensures KeysOf(Split(Join(Kept(Split(data), HomeDropsFor(key))))) == KeysOf(Split(data)) - {key}
  {
    DropsAgree(key);
    assert ReadKey("") == None;
    TrimmedNewlinesKeepKeys(data, ReadKey);
    RemovalReadsBack(Split(TrimNewlines(data)), EnvDrops(key), ReadKey, key);
    RemovalReadsBack(Split(data), HomeDropsFor(key), ReadKey, key);
  }
}
