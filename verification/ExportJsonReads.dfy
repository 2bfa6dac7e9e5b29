/** What the JSON export prints, an RFC 8259 reader reads back. */
module ExportJsonReads {
  import opened Sequences
  import opened Text
  import opened Json
  import opened ExportJson

  // ---------- strings ----------

  /** RFC 8259 section 7 wants control characters escaped; the printer escapes only newline and tab. */
  predicate Printable(s: string) {
    forall i | 0 <= i < |s| :: PrintableChar(s[i])
  }

  predicate PrintableChar(c: char) {
    c >= ' ' || c == '\n' || c == '\t'
  }

  lemma PrintableSplits(s: string)
    requires s != ""
    ensures Printable(s) <==> PrintableChar(s[0]) && Printable(s[1..])
  {
    assert forall i | 0 < i < |s| :: s[i] == s[1..][i - 1];
    if Printable(s) {
      assert PrintableChar(s[0]) && forall i | 0 <= i < |s[1..]| :: s[1..][i] == s[i + 1];
    }
  }

  lemma ScanOne(c: char, rest: string)
    ensures ScanString(EscapeChar(c) + rest) == if PrintableChar(c) then PrependChar(c, ScanString(rest)) else None
  {
    var e := EscapeChar(c);
    assert (e + rest)[|e|..] == rest && (e + rest)[0] == e[0];
    if |e| == 2 { assert (e + rest)[1] == e[1]; }
  }

  /**
   * Scanning a printed string gives the string back and stops at its own closing quote, whatever
   * follows; it fails exactly when the string holds a control character the printer leaves alone.
   */
  lemma {:induction false} ScansBack(s: string, rest: string)
    ensures ScanString(Escape(s) + "\"" + rest) == if Printable(s) then Some((s, rest)) else None
  {
    var text := Escape(s) + "\"" + rest;
    if s == "" {
      assert text == "\"" + rest && text[1..] == rest;
    } else {
      ScansBack(s[1..], rest);
      var tail := Escape(s[1..]) + "\"" + rest;
      Associate(EscapeChar(s[0]), Escape(s[1..]), "\"");
      Associate(EscapeChar(s[0]), Escape(s[1..]) + "\"", rest);
      ScanOne(s[0], tail);
      PrintableSplits(s);
      assert s == [s[0]] + s[1..];
    }
  }

  /** Dropping the escapes of any string at all gives it back. */
  function Unescape(s: string): string {
    if s == "" then "" else
    if s[0] == '\\' && |s| > 1 then
      [if s[1] == 'n' then '\n' else if s[1] == 't' then '\t' else s[1]] + Unescape(s[2..])
    else [s[0]] + Unescape(s[1..])
  }

  lemma UnescapeOne(c: char, rest: string)
    ensures Unescape(EscapeChar(c) + rest) == [c] + Unescape(rest)
  {
    var e := EscapeChar(c);
    assert (e + rest)[|e|..] == rest && (e + rest)[0] == e[0];
    if |e| == 2 { assert (e + rest)[1] == e[1]; }
  }

  lemma {:induction false} UnescapeUndoes(s: string)
    ensures Unescape(Escape(s)) == s
  {
    if s != "" {
      UnescapeUndoes(s[1..]);
      UnescapeOne(s[0], Escape(s[1..]));
      assert s == [s[0]] + s[1..];
    }
  }

  // ---------- pieces and their tokens ----------

  function LitTokens(s: string): seq<Token> {
    if s == "" then [] else (if IsStructural(s[0]) then [StructuralToken(s[0])] else []) + LitTokens(s[1..])
  }

  function PieceTokens(p: Piece): seq<Token> {
    match p
    case Lit(s) => LitTokens(s)
    case Quoted(s) => [StrTok(s)]
    case Lexeme(n) => [NumTok(n)]
    case Word(b) => [BoolTok(b)]
    case NullWord => [NullTok]
  }

  function AllTokens(ps: seq<Piece>): seq<Token> {
    if ps == [] then [] else PieceTokens(ps[0]) + AllTokens(ps[1..])
  }

  predicate AllPrintable(ps: seq<Piece>) {
    forall p | p in ps && p.Quoted? :: Printable(p.s)
  }

  predicate IsLiteral(s: string) {
    s != "" && forall c | c in s :: IsWhite(c) || IsStructural(c)
  }

  predicate IsLexeme(n: string) {
    n != "" && IsNumber(n) && forall c | c in n :: IsNumberChar(c)
  }

  predicate WellFormed(p: Piece) {
    && (p.Lit? ==> IsLiteral(p.s))
    && (p.Lexeme? ==> IsLexeme(p.n))
  }

  /** Numbers and names are followed by white space or punctuation, if by anything. */
  predicate WellSpaced(ps: seq<Piece>) {
    && (forall p | p in ps :: WellFormed(p))
    && (forall i | 0 <= i < |ps| - 1 && (ps[i].Lexeme? || ps[i].Word? || ps[i].NullWord?) :: ps[i + 1].Lit?)
  }

  function Join2(ts: seq<Token>, r: Option<seq<Token>>): Option<seq<Token>> {
    if r.None? then None else Some(ts + r.value)
  }

  lemma {:induction false} LexLit(s: string, rest: string)
    requires forall c | c in s :: IsWhite(c) || IsStructural(c)
    ensures Lex(s + rest) == Join2(LitTokens(s), Lex(rest))
  {
    if s == "" {
      assert s + rest == rest;
      if Lex(rest).Some? { assert [] + Lex(rest).value == Lex(rest).value; }
    } else {
      assert s[0] in s;
      LexLit(s[1..], rest);
      assert (s + rest)[1..] == s[1..] + rest && (s + rest)[0] == s[0];
      var tail, after := LitTokens(s[1..]), Lex(rest);
      if after.Some? {
        var head := if IsStructural(s[0]) then [StructuralToken(s[0])] else [];
        assert head + (tail + after.value) == (head + tail) + after.value;
        assert [] + (tail + after.value) == tail + after.value;
      }
    }
  }

  lemma LexQuoted(s: string, rest: string)
    ensures Lex(JsonString(s) + rest) == if Printable(s) then Prepend(StrTok(s), Lex(rest)) else None
  {
    ScansBack(s, rest);
    var text := JsonString(s) + rest;
    assert text[1..] == Escape(s) + "\"" + rest;
  }

  lemma LexNumber(s: string, n: string)
    requires s != "" && IsNumberChar(s[0]) && Span(IsNumberChar, s) == n && IsNumber(n)
    ensures n <= s && Lex(s) == Prepend(NumTok(n), Lex(s[|n|..]))
  {
  }

  lemma LexLexeme(n: string, rest: string)
    requires IsLexeme(n) && (rest == "" || !IsNumberChar(rest[0]))
    ensures Lex(n + rest) == Prepend(NumTok(n), Lex(rest))
  {
    var s := n + rest;
    SpanStops(IsNumberChar, n, rest);
    assert n[0] in n && s[0] == n[0];
    assert s[|n|..] == rest;
    LexNumber(s, n);
  }

  lemma LexName(w: string, rest: string)
    requires w != "" && !IsNumberChar(w[0]) && forall c | c in w :: IsWordChar(c)
    requires rest == "" || !IsWordChar(rest[0])
    ensures Lex(w + rest) == if w == "true" then Prepend(BoolTok(true), Lex(rest))
                             else if w == "false" then Prepend(BoolTok(false), Lex(rest))
                             else if w == "null" then Prepend(NullTok, Lex(rest))
                             else None
  {
    SpanStops(IsWordChar, w, rest);
    assert w[0] in w;
    assert (w + rest)[|w|..] == rest;
  }

  lemma NamesDiffer()
    ensures "true" != "false" && "true" != "null" && "false" != "null"
  {
    assert |"true"| != |"false"| && |"false"| != |"null"| && "true"[0] != "null"[0];
  }

  /** What comes after a piece starts with white space or punctuation when the next piece does. */
  lemma NextStartsWithLit(ps: seq<Piece>)
    requires WellSpaced(ps) && (ps == [] || ps[0].Lit?)
    ensures Render(ps) == "" || IsWhite(Render(ps)[0]) || IsStructural(Render(ps)[0])
  {
    if ps != [] {
      assert ps[0] in ps && ps[0].s[0] in ps[0].s;
    }
  }

  /** Reading a well spaced text: exactly its tokens, or nothing when some string is not printable. */
  lemma {:induction false} LexReadsPieces(ps: seq<Piece>)
    requires WellSpaced(ps)
    ensures Lex(Render(ps)) == if AllPrintable(ps) then Some(AllTokens(ps)) else None
  {
    if ps != [] {
      var p, rest := ps[0], ps[1..];
      assert ps == [p] + rest && p in ps;
      assert WellSpaced(rest) by {
        forall i | 0 <= i < |rest| - 1 && (rest[i].Lexeme? || rest[i].Word? || rest[i].NullWord?) ensures rest[i + 1].Lit? {
          assert rest[i] == ps[i + 1] && rest[i + 1] == ps[i + 2];
        }
      }
      LexReadsPieces(rest);
      assert AllPrintable(ps) <==> AllPrintable(rest) && (p.Quoted? ==> Printable(p.s));
      LexReadsPiece(p, rest);
    }
  }

  lemma LexWord(b: bool, rest: string)
    requires rest == "" || !IsWordChar(rest[0])
    ensures Lex(FormatBool(b) + rest) == Prepend(BoolTok(b), Lex(rest))
  {
    NamesDiffer();
    LexName(FormatBool(b), rest);
  }

  lemma LexNull(rest: string)
    requires rest == "" || !IsWordChar(rest[0])
    ensures Lex("null" + rest) == Prepend(NullTok, Lex(rest))
  {
    NamesDiffer();
    LexName("null", rest);
  }

  lemma LexReadsPiece(p: Piece, rest: seq<Piece>)
    requires WellFormed(p) && WellSpaced(rest)
    requires (p.Lexeme? || p.Word? || p.NullWord?) && rest != [] ==> rest[0].Lit?
    ensures Lex(PieceText(p) + Render(rest))
            == if p.Quoted? && !Printable(p.s) then None else Join2(PieceTokens(p), Lex(Render(rest)))
  {
    match p
    case Lit(s) => LexLit(s, Render(rest));
    case Quoted(s) => LexQuoted(s, Render(rest));
    case Lexeme(n) => NextStartsWithLit(rest); LexLexeme(n, Render(rest));
    case Word(b) => NextStartsWithLit(rest); LexWord(b, Render(rest));
    case NullWord => NextStartsWithLit(rest); LexNull(Render(rest));
  }
}
