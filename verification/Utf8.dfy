/** Cutting UTF-8 text at a byte limit, written twice in the program: the crash report backs up to the start of
    a rune, the file preview drops a partial rune at the end. RFC 3629, sections 3 and 4, defines the encoding. */
module Utf8 {

  type Byte = b: int | 0 <= b < 0x100

  // ---- the grammar of section 4 of RFC 3629 ----

  predicate IsTail(b: Byte) { 0x80 <= b <= 0xBF }

  /** The number of octets that a first octet announces; 0 if it cannot start a character. */
  function Need(b: Byte): nat {
    if b <= 0x7F then 1
    else if 0xC2 <= b <= 0xDF then 2
    else if 0xE0 <= b <= 0xEF then 3
    else if 0xF0 <= b <= 0xF4 then 4
    else 0
  }

  predicate SecondOk(first: Byte, b: Byte) {
    if first == 0xE0 then 0xA0 <= b <= 0xBF
    else if first == 0xED then 0x80 <= b <= 0x9F
    else if first == 0xF0 then 0x90 <= b <= 0xBF
    else if first == 0xF4 then 0x80 <= b <= 0x8F
    else IsTail(b)
  }

  /** One UTF8-char: UTF8-1, UTF8-2, UTF8-3 or UTF8-4. */
  predicate IsChar(s: seq<Byte>) {
    && s != [] && |s| == Need(s[0])
    && (|s| > 1 ==> SecondOk(s[0], s[1]))
    && (forall i :: 2 <= i < |s| ==> IsTail(s[i]))
  }

  /** UTF8-octets: a sequence of characters. */
  predicate Valid(s: seq<Byte>) {
    s == [] || (0 < Need(s[0]) <= |s| && IsChar(s[..Need(s[0])]) && Valid(s[Need(s[0])..]))
  }

  // ---- the encoding of section 3 of RFC 3629 ----

  /** A character number that is not a surrogate. */
  predicate IsScalar(v: int) {
    0 <= v <= 0x10FFFF && !(0xD800 <= v <= 0xDFFF)
  }

  /** The octets of a character number: six bits in each octet but the first, in the fewest octets. */
  function Encoded(v: int): seq<Byte>
    requires IsScalar(v)
  {
    if v < 0x80 then [v]
    else if v < 0x800 then [0xC0 + v / 64, 0x80 + v % 64]
    else if v < 0x10000 then [0xE0 + v / 4096, 0x80 + v / 64 % 64, 0x80 + v % 64]
    else [0xF0 + v / 262144, 0x80 + v / 4096 % 64, 0x80 + v / 64 % 64, 0x80 + v % 64]
  }

  /** The number that the octets stand for. */
  function Number(c: seq<Byte>): int
    requires 1 <= |c| <= 4
  {
    if |c| == 1 then c[0] as int
    else if |c| == 2 then c[0] as int % 32 * 64 + c[1] as int % 64
    else if |c| == 3 then (c[0] as int % 16 * 64 + c[1] as int % 64) * 64 + c[2] as int % 64
    else ((c[0] as int % 8 * 64 + c[1] as int % 64) * 64 + c[2] as int % 64) * 64 + c[3] as int % 64
  }

  /** Six bits at a time. */
  lemma Sixes(v: nat)
    ensures v == v / 64 * 64 + v % 64 && v / 4096 == v / 64 / 64 && v / 262144 == v / 64 / 64 / 64
  {}

  lemma EncodedIsChar(v: int)
    requires IsScalar(v)
    ensures IsChar(Encoded(v)) && Number(Encoded(v)) == v
  {
    Sixes(v);
    Sixes(v / 64);
    Sixes(v / 64 / 64);
    if v < 0x80 {
    } else if v < 0x800 {
      TwoOctets(v / 64, v % 64);
    } else if v < 0x10000 {
      ThreeOctets(v / 64 / 64, v / 64 % 64, v % 64);
    } else {
      FourOctets(v / 64 / 64 / 64, v / 64 / 64 % 64, v / 64 % 64, v % 64);
    }
  }

  lemma TwoOctets(a: int, b: int)
    requires 2 <= a < 32 && 0 <= b < 64
    ensures IsChar([0xC0 + a, 0x80 + b]) && Number([0xC0 + a, 0x80 + b]) == a * 64 + b
  {}

  lemma ThreeOctets(a: int, b: int, c: int)
    requires 0 <= a < 16 && 0 <= b < 64 && 0 <= c < 64 && 0x800 <= (a * 64 + b) * 64 + c
    requires !(0xD800 <= (a * 64 + b) * 64 + c <= 0xDFFF)
    ensures IsChar([0xE0 + a, 0x80 + b, 0x80 + c]) && Number([0xE0 + a, 0x80 + b, 0x80 + c]) == (a * 64 + b) * 64 + c
  {}

  lemma FourOctets(a: int, b: int, c: int, d: int)
    requires 0 <= a < 8 && 0 <= b < 64 && 0 <= c < 64 && 0 <= d < 64
    requires 0x10000 <= ((a * 64 + b) * 64 + c) * 64 + d <= 0x10FFFF
    ensures IsChar([0xF0 + a, 0x80 + b, 0x80 + c, 0x80 + d])
    ensures Number([0xF0 + a, 0x80 + b, 0x80 + c, 0x80 + d]) == ((a * 64 + b) * 64 + c) * 64 + d
  {}

  lemma OneMoreSix(v: nat, r: int)
    requires 0 <= r < 64
    ensures (v * 64 + r) / 64 == v && (v * 64 + r) % 64 == r
  {}

  lemma CharIsEncoded(c: seq<Byte>)
    requires IsChar(c)
    ensures IsScalar(Number(c)) && Encoded(Number(c)) == c
  {
    CharRange(c);
    if |c| == 2 {
      TwoAreEncoded(c);
    } else if |c| == 3 {
      ThreeAreEncoded(c, c[0] as int - 0xE0, c[1] as int - 0x80, c[2] as int - 0x80);
    } else if |c| == 4 {
      FourAreEncoded(c, c[0] as int - 0xF0, c[1] as int - 0x80, c[2] as int - 0x80, c[3] as int - 0x80);
    }
  }

  lemma TwoAreEncoded(c: seq<Byte>)
    requires IsChar(c) && |c| == 2 && 0x80 <= Number(c) < 0x800
    ensures Encoded(Number(c)) == c
  {
    OneMoreSix(c[0] as int % 32, c[1] as int % 64);
  }

  lemma ThreeAreEncoded(s: seq<Byte>, a: int, b: int, c: int)
    requires 0 <= a < 16 && 0 <= b < 64 && 0 <= c < 64 && s == [0xE0 + a, 0x80 + b, 0x80 + c]
    requires 0x800 <= Number(s) && IsScalar(Number(s))
    ensures Encoded(Number(s)) == s
  {
    assert Number(s) == (a * 64 + b) * 64 + c;
    ThreeDigits(Number(s), a, b, c);
  }

  lemma FourAreEncoded(s: seq<Byte>, a: int, b: int, c: int, d: int)
    requires 0 <= a < 8 && 0 <= b < 64 && 0 <= c < 64 && 0 <= d < 64 && s == [0xF0 + a, 0x80 + b, 0x80 + c, 0x80 + d]
    requires 0x10000 <= Number(s) && IsScalar(Number(s))
    ensures Encoded(Number(s)) == s
  {
    assert Number(s) == ((a * 64 + b) * 64 + c) * 64 + d;
    FourDigits(Number(s), a, b, c, d);
  }

  lemma ThreeDigits(v: nat, a: nat, b: nat, c: nat)
    requires b < 64 && c < 64 && v == (a * 64 + b) * 64 + c
    ensures v / 4096 == a && v / 64 % 64 == b && v % 64 == c
  {
    OneMoreSix(a * 64 + b, c);
    OneMoreSix(a, b);
    Sixes(v);
  }

  lemma FourDigits(v: nat, a: nat, b: nat, c: nat, d: nat)
    requires b < 64 && c < 64 && d < 64 && v == ((a * 64 + b) * 64 + c) * 64 + d
    ensures v / 262144 == a && v / 4096 % 64 == b && v / 64 % 64 == c && v % 64 == d
  {
    OneMoreSix((a * 64 + b) * 64 + c, d);
    ThreeDigits((a * 64 + b) * 64 + c, a, b, c);
    Sixes(v);
  }

  lemma CharRange(c: seq<Byte>)
    requires IsChar(c)
    ensures IsScalar(Number(c))
    ensures |c| == 1 <==> Number(c) < 0x80
    ensures |c| == 2 <==> 0x80 <= Number(c) < 0x800
    ensures |c| == 3 <==> 0x800 <= Number(c) < 0x10000
  {}

  /** The grammar describes the encoding: a character is the encoding of a character number, of just one. */
  lemma CharExactlyIfEncoded(c: seq<Byte>)
    ensures IsChar(c) <==> exists v :: IsScalar(v) && Encoded(v) == c
    ensures forall v, w :: IsScalar(v) && IsScalar(w) && Encoded(v) == c && Encoded(w) == c ==> v == w
  {
    if IsChar(c) {
      CharIsEncoded(c);
    }
    forall v | IsScalar(v) && Encoded(v) == c
      ensures IsChar(c) && v == Number(c)
    {
      EncodedIsChar(v);
    }
  }

  predicate AllScalars(vs: seq<int>) {
    forall i :: 0 <= i < |vs| ==> IsScalar(vs[i])
  }

  /** The encodings of these characters, one after the other. */
  function EncodedText(vs: seq<int>): seq<Byte>
    requires AllScalars(vs)
  {
    if vs == [] then [] else Encoded(vs[0]) + EncodedText(vs[1..])
  }

  lemma {:induction false} TextIsValid(vs: seq<int>)
    requires AllScalars(vs)
    ensures Valid(EncodedText(vs))
  {
    if vs != [] {
      var c, rest := Encoded(vs[0]), EncodedText(vs[1..]);
      EncodedIsChar(vs[0]);
      TextIsValid(vs[1..]);
      assert (c + rest)[..|c|] == c && (c + rest)[|c|..] == rest;
    }
  }

  lemma {:induction false} ValidIsText(s: seq<Byte>) returns (vs: seq<int>)
    requires Valid(s)
    ensures AllScalars(vs) && EncodedText(vs) == s
  {
    if s == [] {
      vs := [];
    } else {
      var n := Need(s[0]);
      CharIsEncoded(s[..n]);
      var rest := ValidIsText(s[n..]);
      vs := [Number(s[..n])] + rest;
      assert vs[1..] == rest && s == s[..n] + s[n..];
    }
  }

  /** Valid bytes are exactly the encodings of sequences of characters. */
  lemma ValidExactlyIfText(s: seq<Byte>)
    ensures Valid(s) <==> exists vs :: AllScalars(vs) && EncodedText(vs) == s
  {
    if Valid(s) {
      var vs := ValidIsText(s);
    }
    forall vs | AllScalars(vs) && EncodedText(vs) == s
      ensures Valid(s)
    {
      TextIsValid(vs);
    }
  }

  // ---- Go's utf8 package ----

  predicate RuneStart(b: Byte) { !IsTail(b) }

  /** utf8.FullRune: the bytes begin with a whole rune, an encoding error counting as one. */
  predicate FullRune(p: seq<Byte>) {
    p != [] &&
    (|p| >= (if Need(p[0]) == 0 then 1 else Need(p[0]))
     || (|p| > 1 && !SecondOk(p[0], p[1]))
     || (|p| > 2 && !IsTail(p[2])))
  }

  /** A character that was cut short: a non-empty proper prefix of one. */
  ghost predicate IsPartial(p: seq<Byte>) {
    p != [] && exists c :: IsChar(c) && p < c
  }

  /** Any octets that complete a first octet to a character. */
  function Completion(first: Byte): (c: seq<Byte>)
    requires Need(first) > 1
    ensures IsChar(c) && c[0] == first
  {
    var second: Byte := if first == 0xE0 then 0xA0 else if first == 0xF0 then 0x90 else 0x80;
    [first, second, 0x80, 0x80][..Need(first)]
  }

  /** FullRune is false exactly for characters that were cut short. */
  lemma FullRuneMeansNotPartial(p: seq<Byte>)
    requires p != []
    ensures FullRune(p) <==> !IsPartial(p)
  {
    if !FullRune(p) {
      var c := Completion(p[0]);
      var whole := p + c[|p|..];
      assert IsChar(whole) && p < whole;
    }
  }

  // ---- character boundaries ----

  lemma SliceOfPrefix(s: seq<Byte>, n: nat, i: nat)
    requires n <= i <= |s|
    ensures s[..i][..n] == s[..n] && s[..i][n..] == s[n..][..i - n]
  {
    forall k | 0 <= k < i - n
      ensures s[..i][n..][k] == s[n..][..i - n][k]
    {
      assert s[..i][n..][k] == s[n + k] == s[n..][k];
    }
  }

  lemma {:induction false} PrefixIsValidAtRuneStart(s: seq<Byte>, i: nat)
    requires Valid(s) && i <= |s|
    ensures Valid(s[..i]) <==> i == |s| || RuneStart(s[i])
  {
    if i == |s| {
      assert s[..i] == s;
    } else if i > 0 {
      var n := Need(s[0]);
      if i < n {
        assert s[..n][i] == s[i];
        assert IsTail(s[i]);
      } else {
        SliceOfPrefix(s, n, i);
        PrefixIsValidAtRuneStart(s[n..], i - n);
      }
    }
  }

  lemma {:induction false} ValidAfterValid(a: seq<Byte>, b: seq<Byte>)
    requires Valid(a)
    ensures Valid(a + b) <==> Valid(b)
  {
    if a == [] {
      assert a + b == b;
    } else {
      var n := Need(a[0]);
      assert (a + b)[..n] == a[..n] && (a + b)[n..] == a[n..] + b;
      ValidAfterValid(a[n..], b);
    }
  }

  lemma PartialShape(p: seq<Byte>)
    requires IsPartial(p)
    ensures |p| <= 3 && RuneStart(p[0]) && !Valid(p)
    ensures forall i :: 0 < i < |p| ==> IsTail(p[i])
  {
    var c :| IsChar(c) && p < c;
    forall i | 0 < i < |p|
      ensures IsTail(p[i])
    {
      assert p[i] == c[i];
    }
    assert c[0] == p[0];
  }

  /** data is valid text up to k and a cut-short character from there on. */
  ghost predicate PartialAt(data: seq<Byte>, k: int) {
    0 <= k < |data| && Valid(data[..k]) && IsPartial(data[k..])
  }

  lemma PartialAtIsUnique(data: seq<Byte>, k: int, j: int)
    requires PartialAt(data, k) && PartialAt(data, j)
    ensures k == j
  {
    PartialShape(data[k..]);
    PartialShape(data[j..]);
  }

  /** r is the data, or the valid text before a cut-short character at its end. */
  ghost predicate Trimmed(data: seq<Byte>, r: seq<Byte>) {
    && r <= data
    && (|r| < |data| <==> exists k :: PartialAt(data, k))
    && (|r| < |data| ==> PartialAt(data, |r|))
  }

  // ---- the two implementations ----

  /** trimUTF8PartialSuffix: shortens the data exactly if it is valid text followed by a cut-short character,
      and then to that valid text, which is at most 3 bytes shorter. */
  method TrimUTF8PartialSuffix(data: seq<Byte>) returns (r: seq<Byte>)
    ensures Trimmed(data, r) && |data| - |r| <= 3
    ensures |r| < |data| ==> Valid(r)
    ensures Valid(data) ==> r == data
  {
    if Valid(data) {
      ValidHasNoPartial(data);
      return data;
    }
    var i := |data| - 1;
    while i >= 0 && |data| - i <= 4
      invariant -1 <= i < |data| && |data| - i <= 5
      invariant forall j :: i < j < |data| ==> IsTail(data[j])
    {
      if !RuneStart(data[i]) {
        i := i - 1;
        continue;
      }
      FullRuneMeansNotPartial(data[i..]);
      assert forall k :: PartialAt(data, k) ==> k == i by {
        OnlyLastStart(data, i);
      }
      if !Valid(data[..i]) || FullRune(data[i..]) {
        return data;
      }
      PartialShape(data[i..]);
      assert PartialAt(data, i);
      return data[..i];
    }
    forall k | PartialAt(data, k)
      ensures false
    {
      PartialShape(data[k..]);
    }
    return data;
  }

  lemma OnlyLastStart(data: seq<Byte>, i: nat)
    requires i < |data| && RuneStart(data[i]) && (forall j :: i < j < |data| ==> IsTail(data[j]))
    ensures forall k :: PartialAt(data, k) ==> k == i
  {
    forall k | PartialAt(data, k)
      ensures k == i
    {
      PartialShape(data[k..]);
      assert data[k] == data[k..][0];
    }
  }

  lemma ValidHasNoPartial(data: seq<Byte>)
    requires Valid(data)
    ensures forall k :: !PartialAt(data, k)
  {
    forall k | PartialAt(data, k)
      ensures false
    {
      PartialShape(data[k..]);
      assert data == data[..k] + data[k..];
      ValidAfterValid(data[..k], data[k..]);
    }
  }

  /** The cut in ReportCrash: the last position at or before the limit where a rune starts. */
  method CutAtRuneStart(detail: seq<Byte>, limit: nat) returns (r: seq<Byte>)
    ensures |detail| <= limit ==> r == detail
    ensures |detail| > limit ==> CutPoint(detail, limit, |r|) && r == detail[..|r|]
  {
    if |detail| <= limit {
      return detail;
    }
    var n := limit;
    while n > 0 && !RuneStart(detail[n])
      invariant 0 <= n <= limit
      invariant forall j :: n < j <= limit ==> !RuneStart(detail[j])
    {
      n := n - 1;
    }
    r := detail[..n];
  }

  ghost predicate CutPoint(s: seq<Byte>, limit: nat, n: int)
    requires limit < |s|
  {
    && 0 <= n <= limit && (n == 0 || RuneStart(s[n]))
    && (forall j :: n < j <= limit ==> !RuneStart(s[j]))
  }

  // ---- what both are for ----

  ghost predicate LongestValidPrefix(s: seq<Byte>, limit: nat, r: seq<Byte>) {
    && r <= s && |r| <= limit && Valid(r)
    && (forall q :: q <= s && |q| <= limit && Valid(q) ==> |q| <= |r|)
  }

  /** Backing up to a rune start gives the longest valid prefix within the limit. */
  lemma CutIsLongestValidPrefix(s: seq<Byte>, limit: nat, n: nat)
    requires Valid(s) && limit < |s| && CutPoint(s, limit, n)
    ensures LongestValidPrefix(s, limit, s[..n])
  {
    PrefixIsValidAtRuneStart(s, n);
    forall q | q <= s && |q| <= limit && Valid(q)
      ensures |q| <= n
    {
      assert q == s[..|q|];
      PrefixIsValidAtRuneStart(s, |q|);
    }
  }

  /** There is only one text that meets the promise of trimUTF8PartialSuffix. */
  lemma TrimmedIsUnique(data: seq<Byte>, r: seq<Byte>, q: seq<Byte>)
    requires Trimmed(data, r) && Trimmed(data, q)
    ensures r == q
  {
    if |r| < |data| {
      PartialAtIsUnique(data, |r|, |q|);
    }
    assert r == data[..|r|] && q == data[..|q|];
  }

  /** Valid text that starts with n octets without another rune start after the first: a character cut short,
      unless the next rune starts right there. */
  lemma NoStartMeansPartial(t: seq<Byte>, n: nat)
    requires Valid(t) && 0 < n < |t| && (forall j :: 0 < j <= n ==> !RuneStart(t[j]))
    ensures IsPartial(t[..n])
  {
    var m := Need(t[0]);
    if m <= n {
      assert RuneStart(t[m]) by {
        assert t[m..][0] == t[m];
      }
      assert false;
    }
    assert t[..n] == t[..m][..n];
    assert t[..n] < t[..m];
  }

  lemma TailIsCutShort(s: seq<Byte>, limit: nat, n: nat)
    requires Valid(s) && limit < |s| && CutPoint(s, limit, n) && n < limit
    ensures Valid(s[..n]) && IsPartial(s[n..][..limit - n])
  {
    PrefixIsValidAtRuneStart(s, n);
    assert s == s[..n] + s[n..];
    ValidAfterValid(s[..n], s[n..]);
    NoStartMeansPartial(s[n..], limit - n);
  }

  /** A valid text that is cut at the limit is valid up to its cut point and cut short from there on. */
  lemma CutLeavesPartial(s: seq<Byte>, limit: nat, n: nat)
    requires Valid(s) && limit < |s| && CutPoint(s, limit, n) && n < limit
    ensures PartialAt(s[..limit], n)
  {
    TailIsCutShort(s, limit, n);
    SliceOfPrefix(s, n, limit);
  }

  /** The two implementations agree on valid text longer than the limit: trimming the first `limit` bytes gives
      what backing up from the limit gives, the longest valid prefix of at most `limit` bytes. */
  lemma CutAndTrimAgree(s: seq<Byte>, limit: nat, n: nat, r: seq<Byte>)
    requires Valid(s) && limit < |s| && CutPoint(s, limit, n) && Trimmed(s[..limit], r)
    ensures r == s[..n] && LongestValidPrefix(s, limit, r) && limit - n <= 3
  {
    CutIsLongestValidPrefix(s, limit, n);
    var data := s[..limit];
    if n == limit {
      ValidHasNoPartial(data);
    } else {
      CutLeavesPartial(s, limit, n);
      PartialAtIsUnique(data, |r|, n);
      PartialShape(data[n..]);
    }
    assert r == data[..|r|] == s[..n];
  }
}
