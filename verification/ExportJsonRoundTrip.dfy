/** The exported JSON document reads back as the configuration it was printed from. */
module ExportJsonRoundTrip {
  import opened Sequences
  import opened Text
  import opened Model
  import opened Json
  import opened ExportJson
  import opened ExportJsonReads

  // ---------- pieces that stand for tokens ----------

  /** These pieces are well spaced, stand for tokens `ts`, and are printable just when `ok`. */
  ghost predicate Faithful(ps: seq<Piece>, ts: seq<Token>, ok: bool) {
    && WellSpaced(ps)
    && AllTokens(ps) == ts
    && (AllPrintable(ps) <==> ok)
  }

  predicate NeedsBreak(p: Piece) {
    p.Lexeme? || p.Word? || p.NullWord?
  }

  lemma Regrouped(a: seq<Token>, b: seq<Token>, c: seq<Token>)
    ensures a + b + c == a + (b + c)
  {
  }

  lemma {:induction false} AllTokensAppends(a: seq<Piece>, b: seq<Piece>)
    ensures AllTokens(a + b) == AllTokens(a) + AllTokens(b)
  {
    if a == [] {
      assert a + b == b;
    } else {
      AllTokensAppends(a[1..], b);
      HeadAndTail(a, b);
      Regrouped(PieceTokens(a[0]), AllTokens(a[1..]), AllTokens(b));
    }
  }

  lemma PrintableAppend(a: seq<Piece>, b: seq<Piece>)
    ensures AllPrintable(a + b) <==> AllPrintable(a) && AllPrintable(b)
  {
    if AllPrintable(a + b) {
      forall p | p in a ensures p in a + b {}
      forall p | p in b ensures p in a + b {}
    }
  }

  lemma SpacedAppend(a: seq<Piece>, b: seq<Piece>)
    requires WellSpaced(a) && WellSpaced(b)
    requires a == [] || b == [] || b[0].Lit? || !NeedsBreak(a[|a| - 1])
    ensures WellSpaced(a + b)
  {
    forall p | p in a + b ensures WellFormed(p) {
      assert p in a || p in b;
    }
  }

  lemma FaithfulAppend(a: seq<Piece>, ta: seq<Token>, oka: bool, b: seq<Piece>, tb: seq<Token>, okb: bool)
    requires Faithful(a, ta, oka) && Faithful(b, tb, okb)
    requires a == [] || b == [] || b[0].Lit? || !NeedsBreak(a[|a| - 1])
    ensures Faithful(a + b, ta + tb, oka && okb)
  {
    AllTokensAppends(a, b);
    PrintableAppend(a, b);
    SpacedAppend(a, b);
  }

  lemma FaithfulLit(s: string)
    requires IsLiteral(s)
    ensures Faithful([Lit(s)], LitTokens(s), true)
  {
    assert [Lit(s)][1..] == [];
  }

  lemma FaithfulQuoted(s: string)
    ensures Faithful([Quoted(s)], [StrTok(s)], Printable(s))
  {
    assert [Quoted(s)][1..] == [];
    assert Quoted(s) in [Quoted(s)];
  }

  /** The literals the exporter uses, and the tokens in them. */
  lemma Literals()
    ensures IsLiteral(": ") && LitTokens(": ") == [Colon]
    ensures IsLiteral(", ") && LitTokens(", ") == [Comma]
    ensures IsLiteral("[") && LitTokens("[") == [LBracket]
    ensures IsLiteral("]") && LitTokens("]") == [RBracket]
    ensures IsLiteral("{ ") && LitTokens("{ ") == [LBrace]
    ensures IsLiteral(" }") && LitTokens(" }") == [RBrace]
    ensures IsLiteral("  ") && LitTokens("  ") == []
    ensures IsLiteral(",\n") && LitTokens(",\n") == [Comma]
  {
    TwoCharacters(':', ' ');
    TwoCharacters(',', ' ');
    TwoCharacters('{', ' ');
    TwoCharacters(' ', '}');
    TwoCharacters(' ', ' ');
    TwoCharacters(',', '\n');
  }

  lemma TwoCharacters(c: char, d: char)
    ensures LitTokens([c, d]) == (if IsStructural(c) then [StructuralToken(c)] else [])
                                 + (if IsStructural(d) then [StructuralToken(d)] else [])
  {
    assert [c, d][1..] == [d] && [d][1..] == [];
    assert LitTokens([d]) == (if IsStructural(d) then [StructuralToken(d)] else []) + LitTokens([]);
  }

  // ---------- values ----------

  predicate NumbersOk(v: Value) {
    match v
    case Num(n) => IsLexeme(n)
    case Arr(vs) => forall x | x in vs :: NumbersOk(x)
    case Obj(ms) => forall m | m in ms :: NumbersOk(m.value)
    case _ => true
  }

  predicate ValuePrintable(v: Value) {
    match v
    case Str(s) => Printable(s)
    case Arr(vs) => forall x | x in vs :: ValuePrintable(x)
    case Obj(ms) => forall m | m in ms :: Printable(m.key) && ValuePrintable(m.value)
    case _ => true
  }

  predicate MembersPrintable(ms: seq<Member>) {
    forall m | m in ms :: Printable(m.key) && ValuePrintable(m.value)
  }

  predicate ItemsPrintable(vs: seq<Value>) {
    forall x | x in vs :: ValuePrintable(x)
  }

  lemma {:induction false} ValueIsFaithful(v: Value)
    requires NumbersOk(v)
    ensures Faithful(ValuePieces(v), Tokens(v), ValuePrintable(v))
    decreases v
  {
    Literals();
    match v
    case Str(s) => FaithfulQuoted(s);
    case Num(_) => SimpleIsFaithful(v);
    case Bool(_) => SimpleIsFaithful(v);
    case Null => SimpleIsFaithful(v);
    case Arr(vs) =>
      ItemsAreFaithful(vs);
      Enclosed("[", LBracket, ItemPieces(vs), ItemTokens(vs), ItemsPrintable(vs), "]", RBracket);
    case Obj(ms) =>
      MembersAreFaithful(ms);
      Enclosed("{ ", LBrace, MembersPieces(ms), MemberTokens(ms), MembersPrintable(ms), " }", RBrace);
  }

  lemma SimpleIsFaithful(v: Value)
    requires NumbersOk(v) && (v.Num? || v.Bool? || v.Null?)
    ensures Faithful(ValuePieces(v), Tokens(v), true)
  {
    assert ValuePieces(v)[1..] == [];
  }

  lemma Enclosed(open: string, topen: Token, ps: seq<Piece>, ts: seq<Token>, ok: bool, close: string, tclose: Token)
    requires Faithful(ps, ts, ok)
    requires IsLiteral(open) && LitTokens(open) == [topen] && IsLiteral(close) && LitTokens(close) == [tclose]
    ensures Faithful([Lit(open)] + ps + [Lit(close)], [topen] + ts + [tclose], ok)
  {
    FaithfulLit(open);
    FaithfulLit(close);
    FaithfulAppend([Lit(open)], [topen], true, ps, ts, ok);
    FaithfulAppend([Lit(open)] + ps, [topen] + ts, ok, [Lit(close)], [tclose], true);
  }

  lemma KeyIsFaithful(key: string)
    ensures Faithful([Quoted(key), Lit(": ")], [StrTok(key), Colon], Printable(key))
  {
    Literals();
    FaithfulQuoted(key);
    FaithfulLit(": ");
    FaithfulAppend([Quoted(key)], [StrTok(key)], Printable(key), [Lit(": ")], [Colon], true);
    assert [Quoted(key)] + [Lit(": ")] == [Quoted(key), Lit(": ")];
    assert [StrTok(key)] + [Colon] == [StrTok(key), Colon];
  }

  lemma MemberIsFaithful(m: Member)
    requires Faithful(ValuePieces(m.value), Tokens(m.value), ValuePrintable(m.value))
    ensures Faithful(MemberPieces(m), [StrTok(m.key), Colon] + Tokens(m.value), Printable(m.key) && ValuePrintable(m.value))
  {
    KeyIsFaithful(m.key);
    FaithfulAppend([Quoted(m.key), Lit(": ")], [StrTok(m.key), Colon], Printable(m.key),
                   ValuePieces(m.value), Tokens(m.value), ValuePrintable(m.value));
  }

  lemma {:induction false} MembersAreFaithful(ms: seq<Member>)
    requires forall m | m in ms :: NumbersOk(m.value)
    ensures Faithful(MembersPieces(ms), MemberTokens(ms), MembersPrintable(ms))
    decreases ms
  {
    if ms != [] {
      var m, rest := ms[0], ms[1..];
      ValueIsFaithful(m.value);
      MemberIsFaithful(m);
      assert ms == [m] + rest;
      var ok := Printable(m.key) && ValuePrintable(m.value);
      if rest == [] {
        assert MembersPieces(ms) == MemberPieces(m) && MemberTokens(ms) == [StrTok(m.key), Colon] + Tokens(m.value);
        assert MembersPrintable(ms) <==> ok;
      } else {
        MembersAreFaithful(rest);
        Separated(", ", MembersPieces(rest), MemberTokens(rest), MembersPrintable(rest));
        FaithfulAppend(MemberPieces(m), [StrTok(m.key), Colon] + Tokens(m.value), ok,
                       [Lit(", ")] + MembersPieces(rest), [Comma] + MemberTokens(rest), MembersPrintable(rest));
        assert MembersPrintable(ms) <==> ok && MembersPrintable(rest);
      }
    }
  }

  lemma Separated(sep: string, ps: seq<Piece>, ts: seq<Token>, ok: bool)
    requires sep == ", " && Faithful(ps, ts, ok)
    ensures Faithful([Lit(sep)] + ps, [Comma] + ts, ok)
  {
    Literals();
    FaithfulLit(sep);
    FaithfulAppend([Lit(sep)], [Comma], true, ps, ts, ok);
  }

  lemma {:induction false} ItemsAreFaithful(vs: seq<Value>)
    requires forall x | x in vs :: NumbersOk(x)
    ensures Faithful(ItemPieces(vs), ItemTokens(vs), ItemsPrintable(vs))
    decreases vs
  {
    if vs != [] {
      var v, rest := vs[0], vs[1..];
      ValueIsFaithful(v);
      assert vs == [v] + rest;
      if rest == [] {
        assert ItemPieces(vs) == ValuePieces(v) && ItemTokens(vs) == Tokens(v);
        assert ItemsPrintable(vs) <==> ValuePrintable(v);
      } else {
        ItemsAreFaithful(rest);
        Separated(", ", ItemPieces(rest), ItemTokens(rest), ItemsPrintable(rest));
        FaithfulAppend(ValuePieces(v), Tokens(v), ValuePrintable(v),
                       [Lit(", ")] + ItemPieces(rest), [Comma] + ItemTokens(rest), ItemsPrintable(rest));
        assert ItemsPrintable(vs) <==> ValuePrintable(v) && ItemsPrintable(rest);
      }
    }
  }

  // ---------- the lines of the outermost object ----------

  function MemberToken(m: Member): seq<Token> {
    [StrTok(m.key), Colon] + Tokens(m.value)
  }

  /** Every member followed by a comma. */
  function CommaEach(ms: seq<Member>): seq<Token> {
    if ms == [] then [] else CommaEach(ms[..|ms| - 1]) + (MemberToken(ms[|ms| - 1]) + [Comma])
  }

  lemma {:induction false} MemberTokensEnd(ms: seq<Member>, m: Member)
    ensures MemberTokens(ms + [m]) == CommaEach(ms) + MemberToken(m)
  {
    if ms == [] {
      assert ms + [m] == [m];
    } else {
      var first, rest := ms[0], ms[1..];
      assert (ms + [m])[1..] == rest + [m];
      MemberTokensEnd(rest, m);
      CommaEachFront(ms);
    }
  }

  lemma {:induction false} CommaEachFront(ms: seq<Member>)
    requires ms != []
    ensures CommaEach(ms) == MemberToken(ms[0]) + [Comma] + CommaEach(ms[1..])
  {
    var last := ms[|ms| - 1];
    if |ms| == 1 {
      assert ms[..0] == [] && ms[1..] == [];
    } else {
      var front := ms[..|ms| - 1];
      CommaEachFront(front);
      assert front[1..] == ms[1..][..|ms[1..]| - 1] && ms[1..][|ms[1..]| - 1] == last && front[0] == ms[0];
      Regrouped(MemberToken(ms[0]) + [Comma], CommaEach(front[1..]), MemberToken(last) + [Comma]);
    }
  }

  lemma LineIsFaithful(m: Member)
    requires NumbersOk(m.value)
    ensures Faithful(Line(m), MemberToken(m) + [Comma], Printable(m.key) && ValuePrintable(m.value))
  {
    var ok := Printable(m.key) && ValuePrintable(m.value);
    Literals();
    ValueIsFaithful(m.value);
    MemberIsFaithful(m);
    FaithfulLit("  ");
    FaithfulLit(",\n");
    FaithfulAppend([Lit("  ")], [], true, MemberPieces(m), MemberToken(m), ok);
    assert [] + MemberToken(m) == MemberToken(m);
    FaithfulAppend([Lit("  ")] + MemberPieces(m), MemberToken(m), ok, [Lit(",\n")], [Comma], true);
  }

  lemma LineStartsWithLit(m: Member)
    ensures Line(m)[0].Lit?
  {
  }

  lemma MembersPrintableEnd(ms: seq<Member>, m: Member)
    ensures MembersPrintable(ms + [m]) <==> MembersPrintable(ms) && Printable(m.key) && ValuePrintable(m.value)
  {
    if MembersPrintable(ms + [m]) {
      forall x | x in ms ensures Printable(x.key) && ValuePrintable(x.value) { assert x in ms + [m]; }
      assert m in ms + [m];
    }
  }

  lemma {:induction false} LinesAreFaithful(ms: seq<Member>)
    requires AllNumbersOk(ms)
    ensures Faithful(Lines(ms), CommaEach(ms), MembersPrintable(ms))
  {
    if ms != [] {
      var rest, m := ms[..|ms| - 1], ms[|ms| - 1];
      var ok := Printable(m.key) && ValuePrintable(m.value);
      assert ms == rest + [m] && NumbersOk(m.value) && AllNumbersOk(rest);
      LinesAreFaithful(rest);
      LineIsFaithful(m);
      MembersPrintableEnd(rest, m);
      LineStartsWithLit(m);
      FaithfulAppend(Lines(rest), CommaEach(rest), MembersPrintable(rest), Line(m), MemberToken(m) + [Comma], ok);
    }
  }

  // ---------- the rows of the proxy list ----------

  function CommaItems(vs: seq<Value>): seq<Token> {
    if vs == [] then [] else CommaItems(vs[..|vs| - 1]) + (Tokens(vs[|vs| - 1]) + [Comma])
  }

  lemma {:induction false} CommaItemsFront(vs: seq<Value>)
    requires vs != []
    ensures CommaItems(vs) == Tokens(vs[0]) + [Comma] + CommaItems(vs[1..])
  {
    if |vs| == 1 {
      assert vs[..0] == [] && vs[1..] == [];
    } else {
      var front, last := vs[..|vs| - 1], vs[|vs| - 1];
      CommaItemsFront(front);
      assert front[1..] == vs[1..][..|vs[1..]| - 1];
      Regrouped(Tokens(vs[0]) + [Comma], CommaItems(front[1..]), Tokens(last) + [Comma]);
    }
  }

  lemma {:induction false} ItemTokensEnd(vs: seq<Value>, v: Value)
    ensures ItemTokens(vs + [v]) == CommaItems(vs) + Tokens(v)
  {
    if vs == [] {
      assert vs + [v] == [v];
    } else {
      assert (vs + [v])[1..] == vs[1..] + [v];
      ItemTokensEnd(vs[1..], v);
      CommaItemsFront(vs);
    }
  }

  lemma RowOpening()
    ensures IsLiteral("    {") && LitTokens("    {") == [LBrace]
  {
    assert "    {"[1..] == "   {" && "   {"[1..] == "  {" && "  {"[1..] == " {";
    TwoCharacters(' ', '{');
  }

  lemma RowEnding()
    ensures IsLiteral("}\n") && LitTokens("}\n") == [RBrace]
  {
    TwoCharacters('}', '\n');
  }

  lemma RowEndingWithComma()
    ensures IsLiteral("},\n") && LitTokens("},\n") == [RBrace, Comma]
  {
    TwoCharacters(',', '\n');
    assert "},\n"[1..] == ",\n";
  }

  function RowClose(last: bool): string {
    if last then "}\n" else "},\n"
  }

  function RowComma(last: bool): seq<Token> {
    if last then [] else [Comma]
  }

  lemma RowCloseIsFaithful(last: bool)
    ensures Faithful([Lit(RowClose(last))], [RBrace] + RowComma(last), true)
  {
    if last {
      RowEnding();
      FaithfulLit("}\n");
      assert [RBrace] + [] == [RBrace];
    } else {
      RowEndingWithComma();
      FaithfulLit("},\n");
      assert [RBrace] + [Comma] == [RBrace, Comma];
    }
  }

  lemma RowOpenIsFaithful()
    ensures Faithful([Lit("    {")], [LBrace], true)
  {
    RowOpening();
    FaithfulLit("    {");
  }

  lemma RowIsFaithful(t: Tunnel, last: bool)
    ensures Faithful(Row(t, last), Tokens(Obj(ProxyMembers(t))) + RowComma(last), MembersPrintable(ProxyMembers(t)))
    ensures StartsWithLit(Row(t, last))
  {
    var ms := ProxyMembers(t);
    ProxyNumbersOk(t);
    MembersAreFaithful(ms);
    RowOpenIsFaithful();
    RowCloseIsFaithful(last);
    FaithfulAppend([Lit("    {")], [LBrace], true, MembersPieces(ms), MemberTokens(ms), MembersPrintable(ms));
    FaithfulAppend([Lit("    {")] + MembersPieces(ms), [LBrace] + MemberTokens(ms), MembersPrintable(ms),
                   [Lit(RowClose(last))], [RBrace] + RowComma(last), true);
    Regrouped([LBrace] + MemberTokens(ms), [RBrace], RowComma(last));
  }

  function RowTokens(vs: seq<Value>, n: nat): seq<Token>
    requires n <= |vs|
  {
    if n == |vs| then ItemTokens(vs) else CommaItems(vs[..n])
  }

  lemma RowTokensGrow(vs: seq<Value>, n: nat)
    requires 0 < n <= |vs|
    ensures RowTokens(vs, n) == CommaItems(vs[..n - 1]) + (Tokens(vs[n - 1]) + RowComma(n == |vs|))
  {
    assert vs[..n] == vs[..n - 1] + [vs[n - 1]];
    if n == |vs| {
      assert vs[..n] == vs;
      ItemTokensEnd(vs[..n - 1], vs[n - 1]);
      assert Tokens(vs[n - 1]) + [] == Tokens(vs[n - 1]);
    } else {
      assert vs[..n][..n - 1] == vs[..n - 1];
    }
  }

  lemma {:induction false} RowsAreFaithful(tunnels: seq<Tunnel>, n: nat)
    requires n <= |tunnels|
    ensures Faithful(Rows(tunnels, n), RowTokens(Proxies(tunnels), n), ItemsPrintable(Proxies(tunnels)[..n]))
    ensures StartsWithLit(Rows(tunnels, n))
  {
    if n == 0 {
      assert Proxies(tunnels)[..0] == [];
    } else {
      RowsAreFaithful(tunnels, n - 1);
      RowIsFaithful(tunnels[n - 1], n == |tunnels|);
      OneMoreRow(Rows(tunnels, n - 1), Row(tunnels[n - 1], n == |tunnels|), Proxies(tunnels), n,
                 ProxyMembers(tunnels[n - 1]));
    }
  }

  lemma OneMoreRow(rows: seq<Piece>, row: seq<Piece>, vs: seq<Value>, n: nat, ms: seq<Member>)
    requires 0 < n <= |vs| && vs[n - 1] == Obj(ms) && StartsWithLit(rows) && StartsWithLit(row)
    requires Faithful(rows, RowTokens(vs, n - 1), ItemsPrintable(vs[..n - 1]))
    requires Faithful(row, Tokens(Obj(ms)) + RowComma(n == |vs|), MembersPrintable(ms))
    ensures Faithful(rows + row, RowTokens(vs, n), ItemsPrintable(vs[..n])) && StartsWithLit(rows + row)
  {
    FaithfulAppend(rows, CommaItems(vs[..n - 1]), ItemsPrintable(vs[..n - 1]),
                   row, Tokens(vs[n - 1]) + RowComma(n == |vs|), MembersPrintable(ms));
    RowTokensGrow(vs, n);
    ItemsPrintableGrow(vs, n);
  }

  lemma ItemsPrintableGrow(vs: seq<Value>, n: nat)
    requires 0 < n <= |vs|
    ensures ItemsPrintable(vs[..n]) <==> ItemsPrintable(vs[..n - 1]) && ValuePrintable(vs[n - 1])
  {
    assert vs[..n] == vs[..n - 1] + [vs[n - 1]];
  }

  // ---------- numbers ----------

  lemma {:induction false} SpanOfDigits(s: string)
    requires forall i | 0 <= i < |s| :: IsDigit(s[i])
    ensures Span(IsDigit, s) == s
  {
    if s != "" {
      SpanOfDigits(s[1..]);
      assert s == [s[0]] + s[1..];
    }
  }

  lemma ItoaIsLexeme(n: int)
    ensures IsLexeme(Itoa(n))
  {
    var d := Decimal(if n < 0 then -n else n);
    SpanOfDigits(d);
    assert d[|d|..] == "";
    assert IsUnsigned(d) && IsFraction("");
    if n < 0 {
      assert Itoa(n)[1..] == d;
    } else {
      assert d[0] != '-';
    }
    forall c | c in Itoa(n) ensures IsNumberChar(c) {
      if n < 0 { assert Itoa(n) == "-" + d; }
    }
  }

  predicate AllNumbersOk(ms: seq<Member>) {
    forall i | 0 <= i < |ms| :: NumbersOk(ms[i].value)
  }

  lemma ProxyNumbersOk(t: Tunnel)
    ensures forall m | m in ProxyMembers(t) :: NumbersOk(m.value)
  {
    CommonNumbersOk(t);
    KindNumbersOk(t);
  }

  lemma CommonNumbersOk(t: Tunnel)
    ensures AllNumbersOk(CommonMembers(t))
  {
    ItoaIsLexeme(t.localPort);
  }

  lemma KindNumbersOk(t: Tunnel)
    ensures AllNumbersOk(KindMembers(t))
  {
    if IsPortKind(t.kind) {
      ItoaIsLexeme(t.remotePort);
    } else if IsDomainKind(t.kind) {
      assert NumbersOk(StrList(Cleaned(t.customDomains)));
      assert AllNumbersOk(DomainMembers(t));
    }
  }

  lemma NumbersOkAppend(a: seq<Member>, b: seq<Member>)
    requires AllNumbersOk(a) && AllNumbersOk(b)
    ensures AllNumbersOk(a + b)
  {
  }

  lemma HeaderNumbersOk(opt: Options)
    ensures AllNumbersOk(HeaderMembers(opt))
  {
    ConnectionNumbersOk(opt);
    AuthNumbersOk(opt);
    TransportNumbersOk(opt.tls);
    LogNumbersOk(opt.logLevel);
    NumbersOkFour(ConnectionMembers(opt), AuthMembers(opt), Member("transport", Transport(opt.tls)), Member("log", Log(opt.logLevel)));
  }

  lemma ConnectionNumbersOk(opt: Options)
    ensures AllNumbersOk(ConnectionMembers(opt))
  {
    ItoaIsLexeme(opt.serverPort);
  }

  lemma AuthNumbersOk(opt: Options)
    ensures AllNumbersOk(AuthMembers(opt))
  {
    if opt.token != "" {
      assert NumbersOk(Auth(opt.token));
    }
  }

  lemma LogNumbersOk(level: string)
    ensures NumbersOk(Log(level))
  {
  }

  lemma NumbersOkFour(a: seq<Member>, b: seq<Member>, c: Member, d: Member)
    requires AllNumbersOk(a) && AllNumbersOk(b) && NumbersOk(c.value) && NumbersOk(d.value)
    ensures AllNumbersOk(a + b + [c] + [d])
  {
    NumbersOkAppend(a, b);
    NumbersOkEnd(a + b, c);
    NumbersOkEnd(a + b + [c], d);
  }

  lemma TransportNumbersOk(tls: bool)
    ensures NumbersOk(Transport(tls))
  {
    assert NumbersOk(Obj([Member("enable", Bool(tls))]));
  }

  lemma NumbersOkEnd(ms: seq<Member>, m: Member)
    requires AllNumbersOk(ms) && NumbersOk(m.value)
    ensures AllNumbersOk(ms + [m])
  {
  }

  // ---------- the document ----------

  lemma MarginIsFaithful()
    ensures Faithful([Lit("  ")], [], true) && Faithful([Lit("[\n")], [LBracket], true)
  {
    TwoCharacters(' ', ' ');
    TwoCharacters('[', '\n');
    FaithfulLit("  ");
    FaithfulLit("[\n");
  }

  predicate StartsWithLit(ps: seq<Piece>) {
    ps == [] || ps[0].Lit?
  }

  lemma ListKeyIsFaithful(key: string)
    ensures Faithful([Lit("  ")] + [Quoted(key), Lit(": ")] + [Lit("[\n")], [StrTok(key), Colon, LBracket], Printable(key))
  {
    MarginIsFaithful();
    KeyIsFaithful(key);
    var margin, pair, open := [Lit("  ")], [Quoted(key), Lit(": ")], [Lit("[\n")];
    PrefixNothing(margin, pair, [StrTok(key), Colon], Printable(key));
    FaithfulAppend(margin + pair, [StrTok(key), Colon], Printable(key), open, [LBracket], true);
    assert [StrTok(key), Colon] + [LBracket] == [StrTok(key), Colon, LBracket];
  }

  lemma PrefixNothing(margin: seq<Piece>, ps: seq<Piece>, ts: seq<Token>, ok: bool)
    requires Faithful(margin, [], true) && Faithful(ps, ts, ok) && |margin| == 1 && margin[0].Lit?
    ensures Faithful(margin + ps, ts, ok)
  {
    FaithfulAppend(margin, [], true, ps, ts, ok);
    assert [] + ts == ts;
  }

  lemma FaithfulFive(a: seq<Piece>, ta: seq<Token>, oka: bool, b: seq<Piece>, tb: seq<Token>, okb: bool,
                     c: seq<Piece>, tc: seq<Token>, okc: bool, d: seq<Piece>, td: seq<Token>, okd: bool,
                     e: seq<Piece>, te: seq<Token>, oke: bool)
    requires Faithful(a, ta, oka) && Faithful(b, tb, okb) && Faithful(c, tc, okc) && Faithful(d, td, okd) && Faithful(e, te, oke)
    requires StartsWithLit(b) && StartsWithLit(c) && StartsWithLit(d) && StartsWithLit(e)
    ensures Faithful(a + b + c + d + e, ta + tb + tc + td + te, oka && okb && okc && okd && oke)
  {
    FaithfulAppend(a, ta, oka, b, tb, okb);
    FaithfulAppend(a + b, ta + tb, oka && okb, c, tc, okc);
    FaithfulAppend(a + b + c, ta + tb + tc, oka && okb && okc, d, td, okd);
    FaithfulAppend(a + b + c + d, ta + tb + tc + td, oka && okb && okc && okd, e, te, oke);
  }

  lemma {:induction false} LinesStartWithLit(ms: seq<Member>)
    ensures StartsWithLit(Lines(ms))
  {
    if ms != [] {
      LinesStartWithLit(ms[..|ms| - 1]);
      LineStartsWithLit(ms[|ms| - 1]);
    }
  }

  lemma ClosingIsFaithful()
    ensures Faithful([Lit("  ]\n}\n")], [RBracket, RBrace], true)
  {
    var s := "  ]\n}\n";
    TwoCharacters('}', '\n');
    assert s[1..] == " ]\n}\n" && s[1..][1..] == "]\n}\n" && s[1..][1..][1..] == "\n}\n" && s[1..][1..][1..][1..] == "}\n";
    assert LitTokens(s[1..][1..][1..]) == [RBrace];
    assert LitTokens(s[1..][1..]) == [RBracket] + [RBrace];
    FaithfulLit(s);
  }

  lemma OpeningIsFaithful()
    ensures Faithful([Lit("{\n")], [LBrace], true)
  {
    TwoCharacters('{', '\n');
    FaithfulLit("{\n");
  }

  function ProxiesMember(tunnels: seq<Tunnel>): Member {
    Member("proxies", Arr(Proxies(tunnels)))
  }

  lemma HeaderIsFaithful(opt: Options)
    ensures Faithful(Lines(HeaderMembers(opt)), CommaEach(HeaderMembers(opt)), MembersPrintable(HeaderMembers(opt)))
    ensures StartsWithLit(Lines(HeaderMembers(opt)))
  {
    HeaderNumbersOk(opt);
    LinesAreFaithful(HeaderMembers(opt));
    LinesStartWithLit(HeaderMembers(opt));
  }

  lemma WholeRows(rows: seq<Piece>, vs: seq<Value>)
    requires Faithful(rows, RowTokens(vs, |vs|), ItemsPrintable(vs[..|vs|]))
    ensures Faithful(rows, ItemTokens(vs), ItemsPrintable(vs))
  {
    assert vs[..|vs|] == vs;
  }

  lemma AllRowsAreFaithful(tunnels: seq<Tunnel>)
    ensures Faithful(Rows(tunnels, |tunnels|), ItemTokens(Proxies(tunnels)), ItemsPrintable(Proxies(tunnels)))
    ensures StartsWithLit(Rows(tunnels, |tunnels|))
  {
    RowsAreFaithful(tunnels, |tunnels|);
    WholeRows(Rows(tunnels, |tunnels|), Proxies(tunnels));
  }

  lemma DocumentTokens(tunnels: seq<Tunnel>, opt: Options)
    ensures [LBrace] + CommaEach(HeaderMembers(opt)) + [StrTok("proxies"), Colon, LBracket] + ItemTokens(Proxies(tunnels))
            + [RBracket, RBrace] == Tokens(Document(tunnels, opt))
  {
    ObjectTokens(HeaderMembers(opt), ProxiesMember(tunnels), CommaEach(HeaderMembers(opt)), ItemTokens(Proxies(tunnels)));
  }

  lemma DocumentPrintable(tunnels: seq<Tunnel>, opt: Options)
    ensures ValuePrintable(Document(tunnels, opt))
            <==> MembersPrintable(HeaderMembers(opt)) && Printable("proxies") && ItemsPrintable(Proxies(tunnels))
  {
    MembersPrintableEnd(HeaderMembers(opt), ProxiesMember(tunnels));
  }

  /** The layout stands for the tokens of the document, and is printable when the document is. */
  lemma LayoutIsFaithful(tunnels: seq<Tunnel>, opt: Options)
    ensures Faithful(Layout(tunnels, opt), Tokens(Document(tunnels, opt)), ValuePrintable(Document(tunnels, opt)))
  {
    var header, rows := Lines(HeaderMembers(opt)), Rows(tunnels, |tunnels|);
    var okh, okr := MembersPrintable(HeaderMembers(opt)), ItemsPrintable(Proxies(tunnels));
    OpeningIsFaithful();
    HeaderIsFaithful(opt);
    ListKeyIsFaithful("proxies");
    AllRowsAreFaithful(tunnels);
    ClosingIsFaithful();
    DocumentTokens(tunnels, opt);
    DocumentPrintable(tunnels, opt);
    FaithfulFive([Lit("{\n")], [LBrace], true, header, CommaEach(HeaderMembers(opt)), okh,
                 ProxiesKey(), [StrTok("proxies"), Colon, LBracket], Printable("proxies"),
                 rows, ItemTokens(Proxies(tunnels)), okr, [Lit("  ]\n}\n")], [RBracket, RBrace], true);
  }

  lemma ObjectTokens(ms: seq<Member>, m: Member, each: seq<Token>, items: seq<Token>)
    requires m.value.Arr? && each == CommaEach(ms) && items == ItemTokens(m.value.items)
    ensures [LBrace] + each + [StrTok(m.key), Colon, LBracket] + items + [RBracket, RBrace] == Tokens(Obj(ms + [m]))
  {
    MemberTokensEnd(ms, m);
    assert MemberToken(m) == [StrTok(m.key), Colon] + ([LBracket] + items + [RBracket]);
    assert Tokens(Obj(ms + [m])) == [LBrace] + (each + MemberToken(m)) + [RBrace];
  }

  /** Parsing the exported text gives the document back; it fails exactly when a string in it is not printable. */
  lemma ExportParsesBack(tunnels: seq<Tunnel>, opt: Options)
    ensures Parse(Render(Layout(tunnels, opt)))
            == if ValuePrintable(Document(tunnels, opt)) then Some(Document(tunnels, opt)) else None
  {
    var doc := Document(tunnels, opt);
    LayoutIsFaithful(tunnels, opt);
    LexReadsPieces(Layout(tunnels, opt));
    ParsesBack(doc, []);
    assert Tokens(doc) + [] == Tokens(doc);
  }
}
