/** The hand-written JSON export of the frpc configuration. */
module ExportJson {
  import opened Sequences
  import opened Text
  import opened Model
  import opened Json

  datatype Options = Options(
    serverAddr: string,
    serverPort: int,
    token: string,
    user: string,
    tls: bool,
    protocol: string,
    logLevel: string)

  // ---------- the printer ----------

  function EscapeChar(c: char): string {
    if c == '\\' then "\\\\" else if c == '"' then "\\\"" else
    if c == '\n' then "\\n" else if c == '\t' then "\\t" else [c]
  }

  function Escape(s: string): string {
    if s == "" then "" else EscapeChar(s[0]) + Escape(s[1..])
  }

  function JsonString(s: string): string {
    "\"" + Escape(s) + "\""
  }

  /** A key with its colon. The keys need no escapes, so they stand in the text as they are: see LiteralKey. */
  function Key(k: string): string {
    JsonString(k) + ": "
  }

  function FormatBool(b: bool): string {
    if b then "true" else "false"
  }

  function DefaultLocalIP(ip: string): string {
    if Trim(ip) == "" then "127.0.0.1" else ip
  }

  /** The trimmed items that are not empty. */
  function Cleaned(items: seq<string>): seq<string> {
    if items == [] then [] else
      Cleaned(items[..|items| - 1]) + if Trim(items[|items| - 1]) != "" then [Trim(items[|items| - 1])] else []
  }

  predicate IsPortKind(kind: string) { Lower(kind) in ["tcp", "udp"] }
  predicate IsDomainKind(kind: string) { Lower(kind) in ["http", "https", "tcpmux"] }
  predicate IsSecretKind(kind: string) { Lower(kind) in ["stcp", "xtcp", "sudp"] }

  method JsonStringList(items: seq<string>) returns (text: string)
    ensures text == Render(ValuePieces(StrList(Cleaned(items))))
  {
    var parts: seq<string> := [];
    for i := 0 to |items|
      invariant |parts| == |Cleaned(items[..i])|
      invariant forall k | 0 <= k < |parts| :: parts[k] == JsonString(Cleaned(items[..i])[k])
    {
      assert items[..i + 1][..i] == items[..i];
      var s := Trim(items[i]);
      if s != "" {
        parts := parts + [JsonString(s)];
      }
    }
    assert items[..|items|] == items;
    JoinedItems(parts, Cleaned(items));
    text := "[" + Join(parts, ", ") + "]";
  }

  method ExportJSON(tunnels: seq<Tunnel>, opt: Options) returns (text: string)
    ensures text == Render(Layout(tunnels, opt))
  {
    var sb := Header(opt);
    sb := sb + ("  " + Key("proxies") + "[\n");
    ghost var head := sb;
    for i := 0 to |tunnels|
      invariant sb == head + Render(Rows(tunnels, i))
    {
      var fields := Fields(tunnels[i]);
      RowText(tunnels, i, fields);
      Associate(head, Render(Rows(tunnels, i)), "    {" + Join(fields, ", ") + if i < |tunnels| - 1 then "},\n" else "}\n");
      sb := sb + ("    {" + Join(fields, ", ") + if i < |tunnels| - 1 then "},\n" else "}\n");
    }
    sb := sb + "  ]\n}\n";
    text := sb;
    LayoutText(tunnels, opt);
  }

  /** Everything before the proxies. */
  method Header(opt: Options) returns (sb: string)
    ensures sb == "{\n" + Render(Lines(HeaderMembers(opt)))
  {
    ghost var ms;
    sb, ms := AddressLines(opt, "serverAddr", "serverPort");
    if opt.user != "" {
      SimpleText(Str(opt.user));
      sb, ms := WriteLine(sb, ms, "user", JsonString(opt.user), Str(opt.user));
    }
    sb := SessionLines(opt, sb);
  }

  method AddressLines(opt: Options, addr: string, port: string) returns (sb: string, ghost ms: seq<Member>)
    ensures ms == [Member(addr, Str(opt.serverAddr)), Member(port, Num(Itoa(opt.serverPort)))]
    ensures sb == "{\n" + Render(Lines(ms))
  {
    sb, ms := "{\n", [];
    SimpleText(Str(opt.serverAddr));
    SimpleText(Num(Itoa(opt.serverPort)));
    sb, ms := WriteLine(sb, ms, addr, JsonString(opt.serverAddr), Str(opt.serverAddr));
    sb, ms := WriteLine(sb, ms, port, Itoa(opt.serverPort), Num(Itoa(opt.serverPort)));
  }

  method SessionLines(opt: Options, sb0: string) returns (sb: string)
    requires sb0 == "{\n" + Render(Lines(ConnectionMembers(opt)))
    ensures sb == "{\n" + Render(Lines(HeaderMembers(opt)))
  {
    sb := sb0;
    ghost var ms := ConnectionMembers(opt);
    if opt.token != "" {
      var pair := "{ " + Key("method") + JsonString("token") + ", " + Key("token") + JsonString(opt.token) + " }";
      PairText("method", Str("token"), "token", Str(opt.token));
      sb, ms := WriteLine(sb, ms, "auth", pair, Auth(opt.token));
    }
    assert ms == ConnectionMembers(opt) + AuthMembers(opt);
    var tls := "{ " + Key("enable") + FormatBool(opt.tls) + " }";
    SingleText("enable", Bool(opt.tls));
    SingleText("tls", Obj([Member("enable", Bool(opt.tls))]));
    sb, ms := WriteLine(sb, ms, "transport", "{ " + Key("tls") + tls + " }", Transport(opt.tls));
    var log := "{ " + Key("level") + JsonString(opt.logLevel) + ", " + Key("to") + JsonString("console") + " }";
    PairText("level", Str(opt.logLevel), "to", Str("console"));
    sb, ms := WriteLine(sb, ms, "log", log, Log(opt.logLevel));
  }

  /** One member of the outermost object, on its own line. */
  method WriteLine(sb: string, ghost ms: seq<Member>, key: string, text: string, ghost v: Value)
    returns (sb': string, ghost ms': seq<Member>)
    requires sb == "{\n" + Render(Lines(ms)) && text == Render(ValuePieces(v))
    ensures ms' == ms + [Member(key, v)]
    ensures sb' == "{\n" + Render(Lines(ms'))
  {
    sb' := sb + ("  " + Key(key) + text + ",\n");
    ms' := ms + [Member(key, v)];
    LinesGrow(ms, Member(key, v));
  }

  /** Each printed field is the text of the member it stands for. */
  ghost predicate Printed(fields: seq<string>, ms: seq<Member>) {
    |fields| == |ms| && forall k | 0 <= k < |ms| :: fields[k] == Render(MemberPieces(ms[k]))
  }

  method AddField(fields: seq<string>, ghost ms: seq<Member>, key: string, text: string, ghost v: Value)
    returns (fields': seq<string>, ghost ms': seq<Member>)
    requires Printed(fields, ms) && text == Render(ValuePieces(v))
    ensures ms' == ms + [Member(key, v)] && Printed(fields', ms')
  {
    FieldText(key, v);
    fields', ms' := fields + [Key(key) + text], ms + [Member(key, v)];
  }

  method Fields(t: Tunnel) returns (fields: seq<string>)
    ensures Printed(fields, ProxyMembers(t))
  {
    fields := [];
    ghost var ms: seq<Member> := [];
    SimpleText(Str(t.name));
    SimpleText(Str(Lower(t.kind)));
    SimpleText(Str(DefaultLocalIP(t.localIP)));
    SimpleText(Num(Itoa(t.localPort)));
    fields, ms := AddField(fields, ms, "name", JsonString(t.name), Str(t.name));
    fields, ms := AddField(fields, ms, "type", JsonString(Lower(t.kind)), Str(Lower(t.kind)));
    fields, ms := AddField(fields, ms, "localIP", JsonString(DefaultLocalIP(t.localIP)), Str(DefaultLocalIP(t.localIP)));
    fields, ms := AddField(fields, ms, "localPort", Itoa(t.localPort), Num(Itoa(t.localPort)));
    assert ms == CommonMembers(t);
    fields := KindFields(t, fields);
  }

  /** The fields that depend on the type. */
  method KindFields(t: Tunnel, fields0: seq<string>) returns (fields: seq<string>)
    requires Printed(fields0, CommonMembers(t))
    ensures Printed(fields, ProxyMembers(t))
  {
    fields := fields0;
    ghost var ms := CommonMembers(t);
    if IsPortKind(t.kind) {
      SimpleText(Num(Itoa(t.remotePort)));
      fields, ms := AddField(fields, ms, "remotePort", Itoa(t.remotePort), Num(Itoa(t.remotePort)));
    } else if IsDomainKind(t.kind) {
      fields := DomainFields(t, fields);
      ms := ms + DomainMembers(t);
    } else if IsSecretKind(t.kind) {
      SimpleText(Str(t.secretKey));
      fields, ms := AddField(fields, ms, "secretKey", JsonString(t.secretKey), Str(t.secretKey));
    }
    assert ms == ProxyMembers(t);
  }

  method DomainFields(t: Tunnel, fields0: seq<string>) returns (fields: seq<string>)
    requires Printed(fields0, CommonMembers(t))
    ensures Printed(fields, CommonMembers(t) + DomainMembers(t))
  {
    fields := fields0;
    ghost var ms := CommonMembers(t);
    if t.customDomains != [] {
      var list := JsonStringList(t.customDomains);
      fields, ms := AddField(fields, ms, "customDomains", list, StrList(Cleaned(t.customDomains)));
    }
    if t.subdomain != "" {
      SimpleText(Str(t.subdomain));
      fields, ms := AddField(fields, ms, "subdomain", JsonString(t.subdomain), Str(t.subdomain));
    }
    assert ms == CommonMembers(t) + DomainMembers(t);
  }

  // ---------- the document it prints ----------

  function StrList(items: seq<string>): Value {
    Arr(seq(|items|, i requires 0 <= i < |items| => Str(items[i])))
  }

  function Auth(token: string): Value {
    Obj([Member("method", Str("token")), Member("token", Str(token))])
  }

  function Transport(tls: bool): Value {
    Obj([Member("tls", Obj([Member("enable", Bool(tls))]))])
  }

  function Log(level: string): Value {
    Obj([Member("level", Str(level)), Member("to", Str("console"))])
  }

  function ConnectionMembers(opt: Options): seq<Member> {
    [Member("serverAddr", Str(opt.serverAddr)), Member("serverPort", Num(Itoa(opt.serverPort)))]
    + if opt.user != "" then [Member("user", Str(opt.user))] else []
  }

  function AuthMembers(opt: Options): seq<Member> {
    if opt.token != "" then [Member("auth", Auth(opt.token))] else []
  }

  function HeaderMembers(opt: Options): seq<Member> {
    ConnectionMembers(opt) + AuthMembers(opt) + [Member("transport", Transport(opt.tls))] + [Member("log", Log(opt.logLevel))]
  }

  function CommonMembers(t: Tunnel): seq<Member> {
    [Member("name", Str(t.name)), Member("type", Str(Lower(t.kind))),
     Member("localIP", Str(DefaultLocalIP(t.localIP))), Member("localPort", Num(Itoa(t.localPort)))]
  }

  function DomainMembers(t: Tunnel): seq<Member> {
    (if t.customDomains != [] then [Member("customDomains", StrList(Cleaned(t.customDomains)))] else [])
    + if t.subdomain != "" then [Member("subdomain", Str(t.subdomain))] else []
  }

  function KindMembers(t: Tunnel): seq<Member> {
    if IsPortKind(t.kind) then [Member("remotePort", Num(Itoa(t.remotePort)))]
    else if IsDomainKind(t.kind) then DomainMembers(t)
    else if IsSecretKind(t.kind) then [Member("secretKey", Str(t.secretKey))]
    else []
  }

  function ProxyMembers(t: Tunnel): seq<Member> {
    CommonMembers(t) + KindMembers(t)
  }

  function Proxies(tunnels: seq<Tunnel>): seq<Value> {
    seq(|tunnels|, i requires 0 <= i < |tunnels| => Obj(ProxyMembers(tunnels[i])))
  }

  function Document(tunnels: seq<Tunnel>, opt: Options): Value {
    Obj(HeaderMembers(opt) + [Member("proxies", Arr(Proxies(tunnels)))])
  }

  // ---------- its layout: the text cut into pieces ----------

  /** White space and punctuation, a quoted string, a number, or one of the three literal names. */
  datatype Piece = Lit(s: string) | Quoted(s: string) | Lexeme(n: string) | Word(b: bool) | NullWord

  function PieceText(p: Piece): string {
    match p
    case Lit(s) => s
    case Quoted(s) => JsonString(s)
    case Lexeme(n) => n
    case Word(b) => FormatBool(b)
    case NullWord => "null"
  }

  function Render(ps: seq<Piece>): string {
    if ps == [] then "" else PieceText(ps[0]) + Render(ps[1..])
  }

  /** A value on one line, as the exporter lays out the ones it nests. */
  function ValuePieces(v: Value): seq<Piece> {
    match v
    case Str(s) => [Quoted(s)]
    case Num(n) => [Lexeme(n)]
    case Bool(b) => [Word(b)]
    case Null => [NullWord]
    case Arr(vs) => [Lit("[")] + ItemPieces(vs) + [Lit("]")]
    case Obj(ms) => [Lit("{ ")] + MembersPieces(ms) + [Lit(" }")]
  }

  function MemberPieces(m: Member): seq<Piece> {
    [Quoted(m.key), Lit(": ")] + ValuePieces(m.value)
  }

  function MembersPieces(ms: seq<Member>): seq<Piece> {
    if ms == [] then [] else
      [Quoted(ms[0].key), Lit(": ")] + ValuePieces(ms[0].value)
      + if |ms| == 1 then [] else [Lit(", ")] + MembersPieces(ms[1..])
  }

  function ItemPieces(vs: seq<Value>): seq<Piece> {
    if vs == [] then [] else
      ValuePieces(vs[0]) + if |vs| == 1 then [] else [Lit(", ")] + ItemPieces(vs[1..])
  }

  function Line(m: Member): seq<Piece> {
    [Lit("  ")] + MemberPieces(m) + [Lit(",\n")]
  }

  function Lines(ms: seq<Member>): seq<Piece> {
    if ms == [] then [] else Lines(ms[..|ms| - 1]) + Line(ms[|ms| - 1])
  }

  /** One proxy row; every row but the last ends in a comma. */
  function Row(t: Tunnel, last: bool): seq<Piece> {
    [Lit("    {")] + MembersPieces(ProxyMembers(t)) + [Lit(if last then "}\n" else "},\n")]
  }

  function Rows(tunnels: seq<Tunnel>, n: nat): seq<Piece>
    requires n <= |tunnels|
  {
    if n == 0 then [] else Rows(tunnels, n - 1) + Row(tunnels[n - 1], n == |tunnels|)
  }

  function Layout(tunnels: seq<Tunnel>, opt: Options): seq<Piece> {
    [Lit("{\n")] + Lines(HeaderMembers(opt))
    + ProxiesKey() + Rows(tunnels, |tunnels|) + [Lit("  ]\n}\n")]
  }

  function ProxiesKey(): seq<Piece> {
    [Lit("  ")] + [Quoted("proxies"), Lit(": ")] + [Lit("[\n")]
  }

  // ---------- the text is that of the layout ----------

  lemma {:induction false} RenderAppends(a: seq<Piece>, b: seq<Piece>)
    ensures Render(a + b) == Render(a) + Render(b)
  {
    if a == [] {
      assert a + b == b;
    } else {
      RenderAppends(a[1..], b);
      assert (a + b)[1..] == a[1..] + b && (a + b)[0] == a[0];
      Associate(PieceText(a[0]), Render(a[1..]), Render(b));
    }
  }

  /** No character of `s` needs an escape. */
  predicate Plain(s: string) {
    forall i | 0 <= i < |s| :: s[i] != '\\' && s[i] != '"' && s[i] != '\n' && s[i] != '\t'
  }

  lemma {:induction false} PlainIsItself(s: string)
    requires Plain(s)
    ensures Escape(s) == s
  {
    if s != "" {
      PlainIsItself(s[1..]);
    }
  }

  lemma LiteralKey(k: string)
    requires Plain(k)
    ensures Key(k) == "\"" + k + "\": "
  {
    PlainIsItself(k);
  }

  /** The text of a value without nested ones. */
  lemma SimpleText(v: Value)
    ensures v.Str? ==> Render(ValuePieces(v)) == JsonString(v.s)
    ensures v.Num? ==> Render(ValuePieces(v)) == v.lexeme
    ensures v.Bool? ==> Render(ValuePieces(v)) == FormatBool(v.b)
  {
    if v.Str? || v.Num? || v.Bool? {
      assert ValuePieces(v)[1..] == [];
      assert Render(ValuePieces(v)) == PieceText(ValuePieces(v)[0]) + "";
    }
  }

  lemma FieldText(key: string, v: Value)
    ensures Render(MemberPieces(Member(key, v))) == Key(key) + Render(ValuePieces(v))
    ensures v.Str? ==> Render(ValuePieces(v)) == JsonString(v.s)
    ensures v.Num? ==> Render(ValuePieces(v)) == v.lexeme
    ensures v.Bool? ==> Render(ValuePieces(v)) == FormatBool(v.b)
  {
    SimpleText(v);
    var ps := MemberPieces(Member(key, v));
    assert ps[0] == Quoted(key) && ps[1..][0] == Lit(": ") && ps[1..][1..] == ValuePieces(v);
    Associate(JsonString(key), ": ", Render(ValuePieces(v)));
  }

  lemma Surrounded(open: string, mid: seq<Piece>, close: string)
    ensures Render([Lit(open)] + mid + [Lit(close)]) == open + Render(mid) + close
  {
    RenderAppends([Lit(open)], mid);
    RenderAppends([Lit(open)] + mid, [Lit(close)]);
    assert [Lit(open)][1..] == [] && [Lit(close)][1..] == [];
    assert Render([Lit(open)]) == open + "" && Render([Lit(close)]) == close + "";
  }

  lemma SingleText(k: string, v: Value)
    ensures Render(ValuePieces(Obj([Member(k, v)]))) == "{ " + Key(k) + Render(ValuePieces(v)) + " }"
    ensures v.Bool? ==> Render(ValuePieces(v)) == FormatBool(v.b)
  {
    FieldText(k, v);
    var ms := [Member(k, v)];
    assert MembersPieces(ms) == MemberPieces(ms[0]);
    Surrounded("{ ", MembersPieces(ms), " }");
    Associate("{ ", Key(k), Render(ValuePieces(v)));
  }

  lemma PairText(k1: string, v1: Value, k2: string, v2: Value)
    requires v1.Str? && v2.Str?
    ensures Render(ValuePieces(Obj([Member(k1, v1), Member(k2, v2)])))
            == "{ " + Key(k1) + JsonString(v1.s) + ", " + Key(k2) + JsonString(v2.s) + " }"
  {
    FieldText(k1, v1);
    FieldText(k2, v2);
    var ms := [Member(k1, v1), Member(k2, v2)];
    assert MemberPieces(ms[0]) == MemberPieces(Member(k1, v1)) && MemberPieces(ms[1]) == MemberPieces(Member(k2, v2));
    var f1, f2 := Key(k1) + JsonString(v1.s), Key(k2) + JsonString(v2.s);
    JoinedMembers([f1, f2], ms);
    assert [f1, f2][1..] == [f2];
    assert Join([f1, f2], ", ") == f1 + ", " + f2;
    Surrounded("{ ", MembersPieces(ms), " }");
    Regroup("{ ", Key(k1), JsonString(v1.s), ", ", Key(k2), JsonString(v2.s));
  }

  lemma Regroup(a: string, b: string, c: string, d: string, e: string, f: string)
    ensures a + (b + c + d + (e + f)) == a + b + c + d + e + f
  {
    Associate(b + c + d, e, f);
    Associate(a, b + c + d + e, f);
    Associate(a, b + c + d, e);
    Associate(a, b + c, d);
    Associate(a, b, c);
  }

  lemma LinesGrow(ms: seq<Member>, m: Member)
    ensures "{\n" + Render(Lines(ms + [m]))
            == "{\n" + Render(Lines(ms)) + ("  " + Key(m.key) + Render(ValuePieces(m.value)) + ",\n")
  {
    FieldText(m.key, m.value);
    Surrounded("  ", MemberPieces(m), ",\n");
    RenderAppends(Lines(ms), Line(m));
    assert (ms + [m])[..|ms|] == ms;
    Associate("  ", Key(m.key), Render(ValuePieces(m.value)));
    Associate("{\n", Render(Lines(ms)), "  " + Key(m.key) + Render(ValuePieces(m.value)) + ",\n");
  }

  lemma {:induction false} JoinedItems(parts: seq<string>, items: seq<string>)
    requires |parts| == |items| && forall k | 0 <= k < |parts| :: parts[k] == JsonString(items[k])
    ensures "[" + Join(parts, ", ") + "]" == Render(ValuePieces(StrList(items)))
  {
    JoinedItemPieces(parts, items);
    Surrounded("[", ItemPieces(StrList(items).items), "]");
  }

  lemma {:induction false} JoinedItemPieces(parts: seq<string>, items: seq<string>)
    requires |parts| == |items| && forall k | 0 <= k < |parts| :: parts[k] == JsonString(items[k])
    ensures Join(parts, ", ") == Render(ItemPieces(StrList(items).items))
  {
    if parts != [] {
      var vs := StrList(items).items;
      SimpleText(vs[0]);
      assert vs[1..] == StrList(items[1..]).items;
      if |parts| > 1 {
        JoinedItemPieces(parts[1..], items[1..]);
        var more := [Lit(", ")] + ItemPieces(vs[1..]);
        RenderAppends(ValuePieces(vs[0]), more);
        assert more[1..] == ItemPieces(vs[1..]);
      }
    }
  }

  lemma {:induction false} JoinedMembers(fields: seq<string>, ms: seq<Member>)
    requires Printed(fields, ms)
    ensures Join(fields, ", ") == Render(MembersPieces(ms))
  {
    if ms != [] {
      var first := MemberPieces(ms[0]);
      if |ms| == 1 {
        assert MembersPieces(ms) == first;
      } else {
        JoinedMembers(fields[1..], ms[1..]);
        var more := [Lit(", ")] + MembersPieces(ms[1..]);
        assert MembersPieces(ms) == first + more;
        RenderAppends(first, more);
        assert more[1..] == MembersPieces(ms[1..]);
      }
    }
  }

  lemma RowText(tunnels: seq<Tunnel>, i: nat, fields: seq<string>)
    requires i < |tunnels| && Printed(fields, ProxyMembers(tunnels[i]))
    ensures Render(Rows(tunnels, i + 1))
            == Render(Rows(tunnels, i)) + ("    {" + Join(fields, ", ") + if i < |tunnels| - 1 then "},\n" else "}\n")
  {
    JoinedMembers(fields, ProxyMembers(tunnels[i]));
    var last := i + 1 == |tunnels|;
    Surrounded("    {", MembersPieces(ProxyMembers(tunnels[i])), if last then "}\n" else "},\n");
    RenderAppends(Rows(tunnels, i), Row(tunnels[i], last));
  }

  lemma RenderAppendsFive(a: seq<Piece>, b: seq<Piece>, c: seq<Piece>, d: seq<Piece>, e: seq<Piece>)
    ensures Render(a + b + c + d + e) == Render(a) + Render(b) + Render(c) + Render(d) + Render(e)
  {
    RenderAppends(a + b + c + d, e);
    RenderAppends(a + b + c, d);
    RenderAppends(a + b, c);
    RenderAppends(a, b);
  }

  lemma RenderOne(p: Piece)
    ensures Render([p]) == PieceText(p)
  {
    assert [p][1..] == [];
  }

  lemma LayoutText(tunnels: seq<Tunnel>, opt: Options)
    ensures Render(Layout(tunnels, opt))
            == "{\n" + Render(Lines(HeaderMembers(opt))) + ("  " + Key("proxies") + "[\n")
               + Render(Rows(tunnels, |tunnels|)) + "  ]\n}\n"
  {
    RenderAppendsFive([Lit("{\n")], Lines(HeaderMembers(opt)), ProxiesKey(), Rows(tunnels, |tunnels|), [Lit("  ]\n}\n")]);
    RenderOne(Lit("{\n"));
    RenderOne(Lit("  ]\n}\n"));
    ListKeyText("proxies");
  }

  lemma ListKeyText(key: string)
    ensures Render([Lit("  ")] + [Quoted(key), Lit(": ")] + [Lit("[\n")]) == "  " + Key(key) + "[\n"
  {
    var pair := [Quoted(key), Lit(": ")];
    Surrounded("  ", pair, "[\n");
    assert pair[1..] == [Lit(": ")];
    RenderOne(Lit(": "));
    assert Render(pair) == Key(key);
  }
}
