/** Parameter references {{name}} in the fields of a step, and their substitution. */
module StepParams {
  import opened Text

  /** A text is a sequence of characters and of references. */
  datatype Piece = Lit(c: char) | Ref(raw: string)

  /** How many characters come before the first closing brace. */
  function BeforeClose(s: string): (n: nat)
    ensures n <= |s| && '}' !in s[..n] && (n < |s| ==> s[n] == '}')
  {
    if s == "" || s[0] == '}' then 0
    else
      assert s[..1 + BeforeClose(s[1..])] == [s[0]] + s[1..][..BeforeClose(s[1..])];
      1 + BeforeClose(s[1..])
  }

  /** The length of the match of \{\{([^}]+)\}\} at the start of the text, or 0. */
  function RefLength(s: string): (n: nat)
    ensures n == 0 || (5 <= n <= |s|)
  {
    if |s| >= 2 && s[0] == '{' && s[1] == '{' then
      var k := BeforeClose(s[2..]);
      if k > 0 && k + 3 < |s| && s[k + 3] == '}' then k + 4 else 0
    else 0
  }

  /** The matches of the regular expression, leftmost first, and what lies between them. */
  function Pieces(s: string): seq<Piece>
    decreases |s|
  {
    if s == "" then []
    else if RefLength(s) > 0 then [Ref(s[2..RefLength(s) - 2])] + Pieces(s[RefLength(s)..])
    else [Lit(s[0])] + Pieces(s[1..])
  }

  function Source(p: Piece): string {
    match p
    case Lit(c) => [c]
    case Ref(raw) => "{{" + raw + "}}"
  }

  function Rendered(p: Piece, params: map<string, string>): string {
    if p.Ref? && TrimSpace(p.raw) in params then params[TrimSpace(p.raw)] else Source(p)
  }

  function Joined(pieces: seq<Piece>, f: Piece -> string): string {
    if pieces == [] then "" else f(pieces[0]) + Joined(pieces[1..], f)
  }

  function RenderAll(pieces: seq<Piece>, params: map<string, string>): string {
    Joined(pieces, p => Rendered(p, params))
  }

  function TextOf(pieces: seq<Piece>): string {
    Joined(pieces, Source)
  }

  /** The substitution in one field. */
  function Subst(s: string, params: map<string, string>): string {
    RenderAll(Pieces(s), params)
  }

  /** No reference of the text is bound. */
  predicate Unbound(s: string, params: map<string, string>) {
    forall p :: p in Pieces(s) ==> p.Lit? || TrimSpace(p.raw) !in params
  }

  lemma RefText(s: string)
    requires RefLength(s) > 0
    ensures s == Source(Ref(s[2..RefLength(s) - 2])) + s[RefLength(s)..]
  {
    var n := RefLength(s);
    assert s[n - 2] == '}' && s[n - 1] == '}';
  }

  lemma FirstPiece(s: string) returns (n: nat)
    requires s != ""
    ensures 0 < n <= |s| && Pieces(s) != [] && Pieces(s)[1..] == Pieces(s[n..]) && s == Source(Pieces(s)[0]) + s[n..]
  {
    n := if RefLength(s) > 0 then RefLength(s) else 1;
    if RefLength(s) > 0 {
      RefText(s);
      assert Pieces(s) == [Ref(s[2..n - 2])] + Pieces(s[n..]);
    } else {
      assert Pieces(s) == [Lit(s[0])] + Pieces(s[n..]);
    }
  }

  lemma {:induction false} JoinedAlike(pieces: seq<Piece>, f: Piece -> string, g: Piece -> string)
    requires forall p :: p in pieces ==> f(p) == g(p)
    ensures Joined(pieces, f) == Joined(pieces, g)
  {
    if pieces != [] {
      assert pieces[0] in pieces;
      JoinedAlike(pieces[1..], f, g);
    }
  }

  lemma {:induction false} JoinedInParts(pieces: seq<Piece>, k: nat, f: Piece -> string)
    requires k <= |pieces|
    ensures Joined(pieces, f) == Joined(pieces[..k], f) + Joined(pieces[k..], f)
  {
    if k == 0 {
      assert pieces[..0] == [] && pieces[0..] == pieces;
    } else {
      JoinedInParts(pieces[1..], k - 1, f);
      assert pieces[..k][0] == pieces[0] && pieces[..k][1..] == pieces[1..][..k - 1] && pieces[k..] == pieces[1..][k - 1..];
    }
  }

  /** The pieces of a text spell it. */
  lemma {:induction false} PiecesSpellTheText(s: string)
    ensures TextOf(Pieces(s)) == s
    decreases |s|
  {
    if s != "" {
      var n := FirstPiece(s);
      PiecesSpellTheText(s[n..]);
      JoinedHead(Pieces(s), Source);
    }
  }

  lemma JoinedHead(pieces: seq<Piece>, f: Piece -> string)
    requires pieces != []
    ensures Joined(pieces, f) == f(pieces[0]) + Joined(pieces[1..], f)
  {}

  /** Unbound references stay as they are, so a missing value can be seen. */
  lemma UnboundStaysLiteral(s: string, params: map<string, string>)
    requires Unbound(s, params)
    ensures Subst(s, params) == s
  {
    JoinedAlike(Pieces(s), p => Rendered(p, params), Source);
    PiecesSpellTheText(s);
  }

  lemma BeforeCloseIs(raw: string, more: string)
    requires '}' !in raw
    ensures BeforeClose(raw + "}" + more) == |raw|
  {
    var s := raw + "}" + more;
    assert s[|raw|] == '}' && s[..|raw|] == raw;
  }

  /** The regular expression matches at the start of a text exactly if the text is a reference and a rest, and
      then it matches the whole reference. */
  lemma MatchMeans(s: string)
    ensures RefLength(s) > 0 ==>
              var raw := s[2..RefLength(s) - 2]; raw != "" && '}' !in raw && s == "{{" + raw + "}}" + s[RefLength(s)..]
    ensures forall raw, rest :: raw != "" && '}' !in raw && s == "{{" + raw + "}}" + rest ==> RefLength(s) == |raw| + 4
  {
    if RefLength(s) > 0 {
      RefText(s);
      assert s[2..RefLength(s) - 2] == s[2..][..BeforeClose(s[2..])];
    }
    forall raw, rest | raw != "" && '}' !in raw && s == "{{" + raw + "}}" + rest
      ensures RefLength(s) == |raw| + 4
    {
      assert s[2..] == raw + "}" + ("}" + rest);
      BeforeCloseIs(raw, "}" + rest);
    }
  }

  lemma ReferenceSpelled(raw: string, rest: string)
    requires raw != "" && '}' !in raw
    ensures var s := "{{" + raw + "}}" + rest; Pieces(s) == [Ref(raw)] + Pieces(rest)
  {
    var s := "{{" + raw + "}}" + rest;
    MatchMeans(s);
    assert s[2..|raw| + 2] == raw && s[|raw| + 4..] == rest;
  }

  /** A text that begins with a reference: its value, or the reference as it is if it has none, and then the rest. */
  lemma ReferenceInFront(raw: string, rest: string, params: map<string, string>)
    requires raw != "" && '}' !in raw
    ensures Subst("{{" + raw + "}}" + rest, params) ==
            (if TrimSpace(raw) in params then params[TrimSpace(raw)] else "{{" + raw + "}}") + Subst(rest, params)
  {
    ReferenceSpelled(raw, rest);
    JoinedHead(Pieces("{{" + raw + "}}" + rest), p => Rendered(p, params));
  }

  /** A text that begins with anything else keeps its first character. */
  lemma OtherwiseInFront(c: char, rest: string, params: map<string, string>)
    requires forall raw, more :: raw != "" && '}' !in raw ==> [c] + rest != "{{" + raw + "}}" + more
    ensures Subst([c] + rest, params) == [c] + Subst(rest, params) && Subst("", params) == ""
  {
    var s := [c] + rest;
    MatchMeans(s);
    assert RefLength(s) == 0 && s[1..] == rest;
    assert Pieces(s) == [Lit(c)] + Pieces(rest);
    JoinedHead(Pieces(s), p => Rendered(p, params));
  }

  lemma {:induction false} RestHasTheRest(s: string, k: nat) returns (t: string)
    requires k <= |Pieces(s)|
    ensures Pieces(t) == Pieces(s)[k..]
    decreases k
  {
    if k == 0 {
      t := s;
      assert Pieces(s)[0..] == Pieces(s);
    } else {
      var n := FirstPiece(s);
      t := RestHasTheRest(s[n..], k - 1);
      assert Pieces(s)[k..] == Pieces(s)[1..][k - 1..];
    }
  }

  /** Wherever its pieces are split, a text splits with them, and the rest of it has the rest of the pieces. */
  lemma SplitsWithItsPieces(s: string, k: nat)
    requires k <= |Pieces(s)|
    ensures s == TextOf(Pieces(s)[..k]) + TextOf(Pieces(s)[k..])
    ensures Pieces(TextOf(Pieces(s)[k..])) == Pieces(s)[k..]
  {
    PiecesSpellTheText(s);
    JoinedInParts(Pieces(s), k, Source);
    var t := RestHasTheRest(s, k);
    PiecesSpellTheText(t);
  }

  lemma OneInTheMiddle(pieces: seq<Piece>, k: nat, f: Piece -> string)
    requires k < |pieces|
    ensures Joined(pieces, f) == Joined(pieces[..k], f) + f(pieces[k]) + Joined(pieces[k + 1..], f)
  {
    JoinedInParts(pieces, k, f);
    JoinedHead(pieces[k..], f);
    assert pieces[k..][0] == pieces[k] && pieces[k..][1..] == pieces[k + 1..];
  }

  /** Any piece of any text, in particular any reference, is rendered once and as it is: what comes before it is
      rendered on its own, and what comes after it is substituted as the text it was, whatever the value is. */
  lemma ReferenceIsReplacedOnce(s: string, k: nat, params: map<string, string>)
    requires k < |Pieces(s)|
    ensures var before, piece, after := Pieces(s)[..k], Pieces(s)[k], TextOf(Pieces(s)[k + 1..]);
            && s == TextOf(before) + Source(piece) + after
            && Subst(s, params) == RenderAll(before, params) + Rendered(piece, params) + Subst(after, params)
  {
    PiecesSpellTheText(s);
    OneInTheMiddle(Pieces(s), k, Source);
    OneInTheMiddle(Pieces(s), k, p => Rendered(p, params));
    SplitsWithItsPieces(s, k + 1);
  }

  /** The value of a bound reference stands in the result as it is, even if it looks like a bound reference. */
  lemma ValuesAreNotExpanded(s: string, k: nat, params: map<string, string>)
    requires k < |Pieces(s)| && Pieces(s)[k].Ref? && TrimSpace(Pieces(s)[k].raw) in params
    ensures Subst(s, params) == RenderAll(Pieces(s)[..k], params) + params[TrimSpace(Pieces(s)[k].raw)]
                                + Subst(TextOf(Pieces(s)[k + 1..]), params)
  {
    ReferenceIsReplacedOnce(s, k, params);
  }

  /** Only the values of the names a text refers to matter. */
  lemma OnlyReferredNamesMatter(s: string, params: map<string, string>, others: map<string, string>)
    requires forall p :: p in Pieces(s) && p.Ref? ==> Rendered(p, params) == Rendered(p, others)
    ensures Subst(s, params) == Subst(s, others)
  {
    JoinedAlike(Pieces(s), p => Rendered(p, params), p => Rendered(p, others));
  }
}
