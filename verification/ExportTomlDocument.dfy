/** The whole TOML export: what the panel writes, and what a reader of TOML version 1.0.0 finds in it. */
module ExportTomlDocument {
  import opened Sequences
  import opened Text
  import opened Model
  import opened ExportJson
  import opened ExportToml

  // ---------- lines ----------

  datatype Value = TStr(s: string) | TInt(n: int) | TBool(b: bool) | TList(items: seq<string>)

  datatype Entry = Comment(text: string) | Blank | Header | Pair(key: string, value: Value)

  type Table = seq<(string, Value)>

  const PROXIES := "[[proxies]]\n"

  ghost function ValueText(v: Value): string {
    match v
    case TStr(s) => TomlString(s)
    case TInt(n) => Itoa(n)
    case TBool(b) => FormatBool(b)
    case TList(items) => ListText(items)
  }

  ghost function LineText(e: Entry): string {
    match e
    case Comment(text) => "#" + text + "\n"
    case Blank => "\n"
    case Header => PROXIES
    case Pair(key, value) => key + " = " + ValueText(value) + "\n"
  }

  ghost function TextOf(es: seq<Entry>): string {
    if es == [] then "" else TextOf(es[..|es| - 1]) + LineText(es[|es| - 1])
  }

  lemma {:induction false} TextAppends(a: seq<Entry>, b: seq<Entry>)
    ensures TextOf(a + b) == TextOf(a) + TextOf(b)
  {
    if b == [] {
      assert a + b == a;
    } else {
      var n := |b| - 1;
      TextAppends(a, b[..n]);
      FrontAndLast(a, b);
      Associate(TextOf(a), TextOf(b[..n]), LineText(b[n]));
    }
  }

  // ---------- a reader ----------

  /** Section "Comment": no control character other than tab. */
  predicate IsCommentChar(c: char) { MayStandBare(c) }

  /** Section "Keys": bare keys, joined by dots. */
  predicate IsKeyChar(c: char) {
    IsDigit(c) || 'a' <= c <= 'z' || 'A' <= c <= 'Z' || c == '_' || c == '-' || c == '.'
  }

  function SkipBlanks(s: string): (r: string)
    ensures |r| <= |s|
  {
    if s != "" && (s[0] == ' ' || s[0] == '\t') then SkipBlanks(s[1..]) else s
  }

  function ReadDigits(s: string): (r: Option<(nat, string)>)
    ensures r.Some? ==> |r.value.1| < |s|
  {
    var digits := Span(IsDigit, s);
    if digits == "" || (|digits| > 1 && digits[0] == '0') then None else Some((DigitsValue(digits), s[|digits|..]))
  }

  /** Section "Integer": digits without a leading zero, perhaps behind a minus sign. */
  function ReadInteger(s: string): (r: Option<(Value, string)>)
    ensures r.Some? ==> |r.value.1| < |s|
  {
    if s != "" && s[0] == '-' then
      match ReadDigits(s[1..])
      case None => None
      case Some((m, rest)) => Some((TInt(-(m as int)), rest))
    else
      match ReadDigits(s)
      case None => None
      case Some((m, rest)) => Some((TInt(m), rest))
  }

  function ReadValue(s: string): (r: Option<(Value, string)>)
    ensures r.Some? ==> |r.value.1| <= |s|
  {
    if s == "" then None
    else if s[0] == '"' then
      match ScanBasic(s[1..])
      case None => None
      case Some((content, rest)) => Some((TStr(content), rest))
    else if s[0] == '[' then
      match ScanElements(s[1..])
      case None => None
      case Some((items, rest)) => if |rest| < |s| then Some((TList(items), rest)) else None
    else if "true" <= s then Some((TBool(true), s[4..]))
    else if "false" <= s then Some((TBool(false), s[5..]))
    else ReadInteger(s)
  }

  /** The end of a line, or of the document. */
  function ReadEnd(s: string): (r: Option<string>)
    ensures r.Some? ==> |r.value| <= |s|
  {
    if s == "" then Some("") else if s[0] == '\n' then Some(s[1..]) else None
  }

  function ReadPair(s: string): (r: Option<(Entry, string)>)
    ensures r.Some? ==> |r.value.1| < |s|
  {
    var key := Span(IsKeyChar, s);
    var after := SkipBlanks(s[|key|..]);
    if key == "" || after == "" || after[0] != '=' then None else
      match ReadValue(SkipBlanks(after[1..]))
      case None => None
      case Some((value, rest)) =>
        (match ReadEnd(SkipBlanks(rest))
         case None => None
         case Some(more) => Some((Pair(key, value), more)))
  }

  /** What stands behind a number sign. */
  function ReadComment(s: string): (r: Option<(Entry, string)>)
    ensures r.Some? ==> |r.value.1| <= |s|
  {
    var text := Span(IsCommentChar, s);
    match ReadEnd(s[|text|..])
    case None => None
    case Some(more) => Some((Comment(text), more))
  }

  function ReadLine(s: string): (r: Option<(Entry, string)>)
    ensures r.Some? ==> |r.value.1| < |s|
  {
    if s == "" then None
    else if s[0] == '\n' then Some((Blank, s[1..]))
    else if s[0] == '#' then ReadComment(s[1..])
    else if s[0] == '[' then (if PROXIES <= s then Some((Header, s[|PROXIES|..])) else None)
    else ReadPair(s)
  }

  function ReadLines(s: string): Option<seq<Entry>>
    decreases |s|
  {
    if s == "" then Some([]) else
      match ReadLine(s)
      case None => None
      case Some((e, more)) =>
        (match ReadLines(more)
         case None => None
         case Some(es) => Some([e] + es))
  }

  /** The pairs before the first header, and those behind each header. */
  ghost function TablesOf(es: seq<Entry>): (ts: seq<Table>)
    ensures ts != []
  {
    if es == [] then [[]] else
      var ts, e := TablesOf(es[..|es| - 1]), es[|es| - 1];
      match e
      case Header => ts + [[]]
      case Pair(key, value) => WithLast(ts, [(key, value)])
      case _ => ts
  }

  ghost function WithLast(ts: seq<Table>, more: Table): (r: seq<Table>)
    requires ts != []
    ensures r != []
  {
    ts[..|ts| - 1] + [ts[|ts| - 1] + more]
  }

  ghost function ReadTables(s: string): Option<seq<Table>> {
    match ReadLines(s)
    case None => None
    case Some(es) => Some(TablesOf(es))
  }

  // ---------- lines read back ----------

  predicate ValueTomlPrintable(v: Value) {
    match v
    case TStr(s) => TomlPrintable(s)
    case TList(items) => AllTomlPrintable(items)
    case _ => true
  }

  predicate EntryPrintable(e: Entry) {
    e.Pair? ==> ValueTomlPrintable(e.value)
  }

  predicate AllOf(s: string, passes: char -> bool) {
    forall i | 0 <= i < |s| :: passes(s[i])
  }

  predicate GoodKey(k: string) {
    k != "" && AllOf(k, IsKeyChar)
  }

  predicate GoodEntry(e: Entry) {
    && (e.Comment? ==> AllOf(e.text, IsCommentChar))
    && (e.Pair? ==> GoodKey(e.key))
  }

  lemma DigitsReadBack(m: nat, rest: string)
    requires rest != "" && !IsDigit(rest[0])
    ensures ReadDigits(Decimal(m) + rest) == Some((m, rest))
  {
    var text, n := Decimal(m) + rest, |Decimal(m)|;
    SpanStops(IsDigit, Decimal(m), rest);
    assert text[..n] == Decimal(m) && text[n..] == rest && text[0] == Decimal(m)[0];
    DecimalReadsBack(m);
  }

  lemma NaturalReads(text: string, m: nat, rest: string)
    requires text != "" && IsDigit(text[0]) && ReadDigits(text) == Some((m, rest))
    ensures ReadInteger(text) == Some((TInt(m), rest))
  {
  }

  lemma NegativeReads(text: string, m: nat, rest: string)
    requires text != "" && text[0] == '-' && ReadDigits(text[1..]) == Some((m, rest))
    ensures ReadInteger(text) == Some((TInt(-(m as int)), rest))
  {
  }

  lemma IntegerReadsBack(n: int, rest: string)
    requires rest != "" && !IsDigit(rest[0])
    ensures ReadInteger(Itoa(n) + rest) == Some((TInt(n), rest))
  {
    var text := Itoa(n) + rest;
    if n < 0 {
      DigitsReadBack(-n, rest);
      Associate("-", Decimal(-n), rest);
      HeadAndTail("-", Decimal(-n) + rest);
      NegativeReads(text, -n, rest);
    } else {
      DigitsReadBack(n, rest);
      assert text[0] == Decimal(n)[0];
      NaturalReads(text, n, rest);
    }
  }

  lemma StringValueReadsBack(s: string, rest: string)
    ensures ReadValue(TomlString(s) + rest) == if TomlPrintable(s) then Some((TStr(s), rest)) else None
  {
    var text := TomlString(s) + rest;
    assert text[0] == '"' && text[1..] == TomlEscape(s) + "\"" + rest;
    BasicScansBack(s, rest);
  }

  lemma ListValueReadsBack(items: seq<string>, rest: string)
    ensures ReadValue(ListText(items) + rest) == if AllTomlPrintable(items) then Some((TList(items), rest)) else None
  {
    var text := ListText(items) + rest;
    assert text[0] == '[';
    ListReadsBack(items, rest);
  }

  lemma BoolValueReadsBack(b: bool, rest: string)
    ensures ReadValue(FormatBool(b) + rest) == Some((TBool(b), rest))
  {
    var text, word := FormatBool(b) + rest, FormatBool(b);
    assert text[..|word|] == word && text[|word|..] == rest && text[0] == word[0];
  }

  lemma OthersAreIntegers(s: string)
    requires s != "" && (s[0] == '-' || IsDigit(s[0]))
    ensures ReadValue(s) == ReadInteger(s)
  {
  }

  lemma IntegerValueReadsBack(n: int, rest: string)
    requires rest != "" && rest[0] == '\n'
    ensures ReadValue(Itoa(n) + rest) == Some((TInt(n), rest))
  {
    var text := Itoa(n) + rest;
    IntegerReadsBack(n, rest);
    assert text[0] == Itoa(n)[0];
    OthersAreIntegers(text);
  }

  lemma ValueReadsBack(v: Value, rest: string)
    requires rest != "" && rest[0] == '\n'
    ensures ReadValue(ValueText(v) + rest) == if ValueTomlPrintable(v) then Some((v, rest)) else None
  {
    match v
    case TStr(s) => StringValueReadsBack(s, rest);
    case TInt(n) => IntegerValueReadsBack(n, rest);
    case TBool(b) => BoolValueReadsBack(b, rest);
    case TList(items) => ListValueReadsBack(items, rest);
  }

  /** No value begins with a blank. */
  lemma ValueStarts(v: Value, rest: string)
    ensures SkipBlanks(ValueText(v) + rest) == ValueText(v) + rest
  {
    var text := ValueText(v);
    match v
    case TStr(s) => assert text[0] == '"';
    case TInt(n) => assert text[0] == '-' || IsDigit(text[0]);
    case TBool(b) => assert text[0] == if b then 't' else 'f';
    case TList(items) => assert text[0] == '[';
  }

  lemma PairReadsBack(k: string, v: Value, rest: string)
    requires GoodKey(k)
    ensures ReadPair(LineText(Pair(k, v)) + rest) == if ValueTomlPrintable(v) then Some((Pair(k, v), rest)) else None
  {
    var end := "\n" + rest;
    var text, tail := LineText(Pair(k, v)) + rest, " = " + (ValueText(v) + end);
    PairSplits(k, ValueText(v), rest);
    SpanStops(IsKeyChar, k, tail);
    assert text[..|k|] == k && text[|k|..] == tail;
    BlanksAround(ValueText(v) + end);
    ValueStarts(v, end);
    ValueReadsBack(v, end);
    assert end[1..] == rest;
  }

  lemma PairSplits(k: string, text: string, rest: string)
    ensures k + " = " + text + "\n" + rest == k + (" = " + (text + ("\n" + rest)))
  {
    Associate(k, " = ", text);
    Associate(k, " = " + text, "\n");
    Associate(k, " = " + text + "\n", rest);
    Associate(" = " + text, "\n", rest);
    Associate(" = ", text, "\n" + rest);
  }

  lemma BlanksAround(s: string)
    ensures var after := SkipBlanks(" = " + s);
      after != "" && after[0] == '=' && SkipBlanks(after[1..]) == SkipBlanks(s)
  {
    var all := " = " + s;
    assert all[1..] == "= " + s && all[1..][1..] == " " + s && (" " + s)[1..] == s;
  }

  lemma CommentReads(c: string, rest: string)
    requires AllOf(c, IsCommentChar)
    ensures ReadComment(c + ("\n" + rest)) == Some((Comment(c), rest))
  {
    var end := "\n" + rest;
    var text := c + end;
    SpanStops(IsCommentChar, c, end);
    assert text[..|c|] == c && text[|c|..] == end && end[1..] == rest;
  }

  lemma CommentReadsBack(c: string, rest: string)
    requires AllOf(c, IsCommentChar)
    ensures ReadLine(LineText(Comment(c)) + rest) == Some((Comment(c), rest))
  {
    CommentReads(c, rest);
    Associate("#" + c, "\n", rest);
    Associate("#", c, "\n" + rest);
    HeadAndTail("#", c + ("\n" + rest));
  }

  lemma FixedLinesReadBack(rest: string)
    ensures ReadLine(LineText(Blank) + rest) == Some((Blank, rest))
    ensures ReadLine(LineText(Header) + rest) == Some((Header, rest))
  {
    assert (LineText(Blank) + rest)[1..] == rest;
    var text := PROXIES + rest;
    assert text[..|PROXIES|] == PROXIES && text[|PROXIES|..] == rest && text[0] == '[';
  }

  /** A line reads back and leaves what follows it; unless it holds a string that cannot be printed. */
  lemma LineReadsBack(e: Entry, rest: string)
    requires GoodEntry(e)
    ensures ReadLine(LineText(e) + rest) == if EntryPrintable(e) then Some((e, rest)) else None
  {
    match e
    case Comment(c) => CommentReadsBack(c, rest);
    case Blank => FixedLinesReadBack(rest);
    case Header => FixedLinesReadBack(rest);
    case Pair(k, v) =>
      PairReadsBack(k, v, rest);
      assert (LineText(e) + rest)[0] == k[0] && IsKeyChar(k[0]);
  }

  predicate AllGood(es: seq<Entry>) { forall i | 0 <= i < |es| :: GoodEntry(es[i]) }

  predicate AllEntriesPrintable(es: seq<Entry>) { forall i | 0 <= i < |es| :: EntryPrintable(es[i]) }

  /** Lines read back one for one, or not at all. */
  lemma {:induction false} LinesReadBack(es: seq<Entry>)
    requires AllGood(es)
    ensures ReadLines(TextOf(es)) == if AllEntriesPrintable(es) then Some(es) else None
    decreases |es|
  {
    if es != [] {
      var e, rest := es[0], es[1..];
      assert es == [e] + rest;
      LinesReadBack(rest);
      TextAppends([e], rest);
      OneLine(e);
      LineReadsBack(e, TextOf(rest));
      MoreLines(e, rest);
    }
  }

  lemma OneLine(e: Entry)
    ensures TextOf([e]) == LineText(e) != ""
  {
    assert [e][..0] == [];
    if e.Pair? { assert |LineText(e)| >= 4; }
  }

  lemma MoreLines(e: Entry, rest: seq<Entry>)
    ensures AllEntriesPrintable([e] + rest) <==> EntryPrintable(e) && AllEntriesPrintable(rest)
  {
    var es := [e] + rest;
    assert es[0] == e && forall i | 0 <= i < |rest| :: es[i + 1] == rest[i];
  }

  // ---------- what the panel writes ----------

  /** The fields of a tunnel that only this export prints. */
  datatype Extras = Extras(
    useEncryption: bool,
    useCompression: bool,
    bandwidthLimit: string,
    proxyProtocolVersion: string,
    healthCheckType: string,
    healthCheckURL: string,
    healthCheckInterval: int,
    healthCheckTimeout: int,
    healthCheckMaxFailed: int)

  datatype Row = Row(tunnel: Tunnel, extras: Extras)

  const TITLE := " YCFRP 导出的 frpc 配置"
  const BANNER := " 版本：YCFRP s2609.034 / frp 内核 0.71.0"
  const PLACE := " 将该文件与官方 frpc 二进制放在同一目录，"
  const COMMAND := "执行 frpc -c frpc.toml 即可启动"
  const USAGE := PLACE + COMMAND

  /** splitList: what stands between commas, blanks and semicolons. */
  function SplitList(s: string): seq<string> {
    Cleaned(Fields(s))
  }

  predicate IsSeparator(c: char) { c == ',' || c == ' ' || c == ';' }

  function Fields(s: string): seq<string> {
    if s == "" then [] else
      var fields, c := Fields(s[..|s| - 1]), s[|s| - 1];
      if IsSeparator(c) then fields
      else if |s| == 1 || IsSeparator(s[|s| - 2]) || fields == [] then fields + [[c]]
      else fields[..|fields| - 1] + [fields[|fields| - 1] + [c]]
  }

  function OneIf(c: bool, key: string, v: Value): Table {
    if c then [(key, v)] else []
  }

  function ConnectionPairs(opt: Options): Table {
    [("serverAddr", TStr(opt.serverAddr))] + [("serverPort", TInt(opt.serverPort))]
    + OneIf(opt.user != "", "user", TStr(opt.user))
  }

  function AuthPairs(opt: Options): Table {
    OneIf(opt.token != "", "auth.method", TStr("token")) + OneIf(opt.token != "", "auth.token", TStr(opt.token))
  }

  function SessionPairs(opt: Options): Table {
    OneIf(opt.protocol != "" && opt.protocol != "tcp", "transport.protocol", TStr(opt.protocol))
    + [("transport.tls.enable", TBool(opt.tls))]
    + OneIf(opt.logLevel != "", "log.level", TStr(opt.logLevel))
    + [("log.to", TStr("console"))]
  }

  function Settings(opt: Options): Table {
    ConnectionPairs(opt) + AuthPairs(opt) + SessionPairs(opt)
  }

  function CommonPairs(t: Tunnel): Table {
    [("name", TStr(t.name))] + [("type", TStr(Lower(t.kind)))]
    + [("localIP", TStr(DefaultLocalIP(t.localIP)))] + [("localPort", TInt(t.localPort))]
  }

  function KindPairs(t: Tunnel): Table {
    if IsPortKind(t.kind) then [("remotePort", TInt(t.remotePort))]
    else if IsDomainKind(t.kind) then
      OneIf(t.customDomains != [], "customDomains", TList(Cleaned(t.customDomains)))
      + OneIf(t.subdomain != "", "subdomain", TStr(t.subdomain))
    else if IsSecretKind(t.kind) then
      [("secretKey", TStr(t.secretKey))]
      + OneIf(SplitList(t.group) != [], "allowUsers", TList(Cleaned(SplitList(t.group))))
    else []
  }

  function TransportPairs(x: Extras): Table {
    SwitchPairs(x) + LimitPairs(x)
  }

  function SwitchPairs(x: Extras): Table {
    OneIf(x.useEncryption, "transport.useEncryption", TBool(true))
    + OneIf(x.useCompression, "transport.useCompression", TBool(true))
  }

  function LimitPairs(x: Extras): Table {
    OneIf(x.bandwidthLimit != "", "transport.bandwidthLimit", TStr(x.bandwidthLimit))
    + OneIf(x.proxyProtocolVersion != "", "transport.proxyProtocolVersion", TStr(x.proxyProtocolVersion))
  }

  function HealthPairs(x: Extras): Table {
    if x.healthCheckType == "" then [] else
      [("healthCheck.type", TStr(x.healthCheckType))]
      + OneIf(x.healthCheckURL != "", "healthCheck.path", TStr(x.healthCheckURL))
      + HealthNumbers(x)
  }

  function HealthNumbers(x: Extras): Table {
    OneIf(x.healthCheckInterval > 0, "healthCheck.intervalSeconds", TInt(x.healthCheckInterval))
    + OneIf(x.healthCheckTimeout > 0, "healthCheck.timeoutSeconds", TInt(x.healthCheckTimeout))
    + OneIf(x.healthCheckMaxFailed > 0, "healthCheck.maxFailed", TInt(x.healthCheckMaxFailed))
  }

  function ProxyTable(r: Row): Table {
    CommonPairs(r.tunnel) + KindPairs(r.tunnel) + TransportPairs(r.extras) + HealthPairs(r.extras)
  }

  ghost function PairLines(t: Table): seq<Entry> {
    if t == [] then [] else PairLines(t[..|t| - 1]) + [Pair(t[|t| - 1].0, t[|t| - 1].1)]
  }

  const PREAMBLE: seq<Entry> := [Comment(TITLE), Comment(BANNER), Comment(USAGE), Blank]

  ghost function Proxies(rows: seq<Row>): seq<Table> {
    Each(rows, ProxyTable)
  }

  ghost function Each<T, R>(s: seq<T>, f: T -> R): seq<R> {
    seq(|s|, i requires 0 <= i < |s| => f(s[i]))
  }

  lemma EachNext<T, R>(s: seq<T>, f: T -> R, i: nat)
    requires i < |s|
    ensures Each(s[..i + 1], f) == Each(s[..i], f) + [f(s[i])]
  {
  }

  /** The lines of the document: the settings, and then each proxy behind a header. */
  ghost function Document(settings: Table, proxies: seq<Table>): seq<Entry> {
    if proxies == [] then PREAMBLE + PairLines(settings)
    else WithProxy(Document(settings, proxies[..|proxies| - 1]), proxies[|proxies| - 1])
  }

  ghost function WithProxy(es: seq<Entry>, t: Table): seq<Entry> {
    es + ([Blank, Header] + PairLines(t))
  }

  // ---------- the printer ----------

  lemma OneMorePair(ps: Table, key: string, v: Value)
    ensures TextOf(PairLines(ps + [(key, v)])) == TextOf(PairLines(ps)) + LineText(Pair(key, v))
  {
    FrontAndLast(ps, [(key, v)]);
    assert ps + [] == ps;
    var lines := PairLines(ps);
    FrontAndLast(lines, [Pair(key, v)]);
    assert lines + [] == lines;
  }

  method Write(sb: string, ghost ps: Table, key: string, text: string, ghost v: Value) returns (sb': string, ghost ps': Table)
    requires sb == TextOf(PairLines(ps)) && text == ValueText(v)
    ensures ps' == ps + [(key, v)] && sb' == TextOf(PairLines(ps'))
    ensures ps == [] ==> ps' == [(key, v)]
  {
    sb', ps' := sb + (key + " = " + text + "\n"), ps + [(key, v)];
    OneMorePair(ps, key, v);
  }

  /** The lines that are there only if there is something to say. */
  method WriteIf(sb: string, ghost ps: Table, c: bool, key: string, text: string, ghost v: Value)
    returns (sb': string, ghost ps': Table)
    requires sb == TextOf(PairLines(ps)) && text == ValueText(v)
    ensures ps' == ps + OneIf(c, key, v) && sb' == TextOf(PairLines(ps'))
    ensures ps == [] ==> ps' == OneIf(c, key, v)
  {
    if c {
      sb', ps' := Write(sb, ps, key, text, v);
    } else {
      sb', ps' := sb, ps + [];
      assert ps + [] == ps;
    }
  }

  method ConnectionLines(opt: Options) returns (sb: string)
    ensures sb == TextOf(PairLines(ConnectionPairs(opt)))
  {
    ghost var ps: Table := [];
    sb := "";
    sb, ps := Write(sb, ps, "serverAddr", TomlString(opt.serverAddr), TStr(opt.serverAddr));
    sb, ps := Write(sb, ps, "serverPort", Itoa(opt.serverPort), TInt(opt.serverPort));
    sb, ps := WriteIf(sb, ps, opt.user != "", "user", TomlString(opt.user), TStr(opt.user));
    assert ps == ConnectionPairs(opt);
  }

  method AuthLines(opt: Options) returns (sb: string)
    ensures sb == TextOf(PairLines(AuthPairs(opt)))
  {
    ghost var ps: Table := [];
    sb := "";
    sb, ps := WriteIf(sb, ps, opt.token != "", "auth.method", TomlString("token"), TStr("token"));
    sb, ps := WriteIf(sb, ps, opt.token != "", "auth.token", TomlString(opt.token), TStr(opt.token));
    assert ps == AuthPairs(opt);
  }

  method SessionLines(opt: Options) returns (sb: string)
    ensures sb == TextOf(PairLines(SessionPairs(opt)))
  {
    ghost var ps: Table := [];
    sb := "";
    sb, ps := WriteIf(sb, ps, opt.protocol != "" && opt.protocol != "tcp", "transport.protocol",
                      TomlString(opt.protocol), TStr(opt.protocol));
    sb, ps := Write(sb, ps, "transport.tls.enable", FormatBool(opt.tls), TBool(opt.tls));
    sb, ps := WriteIf(sb, ps, opt.logLevel != "", "log.level", TomlString(opt.logLevel), TStr(opt.logLevel));
    sb, ps := Write(sb, ps, "log.to", TomlString("console"), TStr("console"));
    assert ps == SessionPairs(opt);
  }

  method SettingsLines(opt: Options) returns (sb: string)
    ensures sb == TextOf(PairLines(Settings(opt)))
  {
    ghost var a, b, c := ConnectionPairs(opt), AuthPairs(opt), SessionPairs(opt);
    TextOfPairs(a, b);
    TextOfPairs(a + b, c);
    sb := ConnectionLines(opt);
    var more := AuthLines(opt);
    sb := sb + more;
    more := SessionLines(opt);
    sb := sb + more;
  }

  method CommonLines(t: Tunnel) returns (sb: string)
    ensures sb == TextOf(PairLines(CommonPairs(t)))
  {
    ghost var ps: Table := [];
    sb := "";
    sb, ps := Write(sb, ps, "name", TomlString(t.name), TStr(t.name));
    sb, ps := Write(sb, ps, "type", TomlString(Lower(t.kind)), TStr(Lower(t.kind)));
    sb, ps := Write(sb, ps, "localIP", TomlString(DefaultLocalIP(t.localIP)), TStr(DefaultLocalIP(t.localIP)));
    sb, ps := Write(sb, ps, "localPort", Itoa(t.localPort), TInt(t.localPort));
    assert ps == CommonPairs(t);
  }

  method KindLines(t: Tunnel) returns (sb: string)
    ensures sb == TextOf(PairLines(KindPairs(t)))
  {
    ghost var ps: Table := [];
    sb := "";
    if IsPortKind(t.kind) {
      sb, ps := Write(sb, ps, "remotePort", Itoa(t.remotePort), TInt(t.remotePort));
    } else if IsDomainKind(t.kind) {
      var domains := TomlStringList(t.customDomains);
      sb, ps := WriteIf(sb, ps, |t.customDomains| > 0, "customDomains", domains, TList(Cleaned(t.customDomains)));
      sb, ps := WriteIf(sb, ps, t.subdomain != "", "subdomain", TomlString(t.subdomain), TStr(t.subdomain));
    } else if IsSecretKind(t.kind) {
      sb, ps := Write(sb, ps, "secretKey", TomlString(t.secretKey), TStr(t.secretKey));
      var allow := SplitList(t.group);
      var users := TomlStringList(allow);
      sb, ps := WriteIf(sb, ps, |allow| > 0, "allowUsers", users, TList(Cleaned(allow)));
    }
    assert ps == KindPairs(t);
  }

  method SwitchLines(x: Extras) returns (sb: string)
    ensures sb == TextOf(PairLines(SwitchPairs(x)))
  {
    ghost var ps: Table := [];
    sb := "";
    sb, ps := WriteIf(sb, ps, x.useEncryption, "transport.useEncryption", FormatBool(true), TBool(true));
    sb, ps := WriteIf(sb, ps, x.useCompression, "transport.useCompression", FormatBool(true), TBool(true));
    assert ps == SwitchPairs(x);
  }

  method LimitLines(x: Extras) returns (sb: string)
    ensures sb == TextOf(PairLines(LimitPairs(x)))
  {
    ghost var ps: Table := [];
    sb := "";
    sb, ps := WriteIf(sb, ps, x.bandwidthLimit != "", "transport.bandwidthLimit",
                      TomlString(x.bandwidthLimit), TStr(x.bandwidthLimit));
    sb, ps := WriteIf(sb, ps, x.proxyProtocolVersion != "", "transport.proxyProtocolVersion",
                      TomlString(x.proxyProtocolVersion), TStr(x.proxyProtocolVersion));
    assert ps == LimitPairs(x);
  }

  method TransportLines(x: Extras) returns (sb: string)
    ensures sb == TextOf(PairLines(TransportPairs(x)))
  {
    TextOfPairs(SwitchPairs(x), LimitPairs(x));
    sb := SwitchLines(x);
    var more := LimitLines(x);
    sb := sb + more;
  }

  method HealthLines(x: Extras) returns (sb: string)
    ensures sb == TextOf(PairLines(HealthPairs(x)))
  {
    ghost var ps: Table := [];
    sb := "";
    if x.healthCheckType != "" {
      sb, ps := Write(sb, ps, "healthCheck.type", TomlString(x.healthCheckType), TStr(x.healthCheckType));
      sb, ps := WriteIf(sb, ps, x.healthCheckURL != "", "healthCheck.path", TomlString(x.healthCheckURL), TStr(x.healthCheckURL));
      var numbers := HealthNumberLines(x);
      TextOfPairs(ps, HealthNumbers(x));
      sb := sb + numbers;
    }
  }

  method HealthNumberLines(x: Extras) returns (sb: string)
    ensures sb == TextOf(PairLines(HealthNumbers(x)))
  {
    ghost var ps: Table := [];
    sb := "";
    sb, ps := WriteIf(sb, ps, x.healthCheckInterval > 0, "healthCheck.intervalSeconds",
                      Itoa(x.healthCheckInterval), TInt(x.healthCheckInterval));
    sb, ps := WriteIf(sb, ps, x.healthCheckTimeout > 0, "healthCheck.timeoutSeconds",
                      Itoa(x.healthCheckTimeout), TInt(x.healthCheckTimeout));
    sb, ps := WriteIf(sb, ps, x.healthCheckMaxFailed > 0, "healthCheck.maxFailed",
                      Itoa(x.healthCheckMaxFailed), TInt(x.healthCheckMaxFailed));
    assert ps == HealthNumbers(x);
  }

  lemma {:induction false} PairLinesAppend(a: Table, b: Table)
    ensures PairLines(a + b) == PairLines(a) + PairLines(b)
  {
    if b == [] {
      assert a + b == a;
    } else {
      FrontAndLast(a, b);
      PairLinesAppend(a, b[..|b| - 1]);
    }
  }

  lemma TextOfPairs(a: Table, b: Table)
    ensures TextOf(PairLines(a + b)) == TextOf(PairLines(a)) + TextOf(PairLines(b))
  {
    PairLinesAppend(a, b);
    TextAppends(PairLines(a), PairLines(b));
  }

  method ProxyLines(r: Row) returns (sb: string)
    ensures sb == TextOf(PairLines(ProxyTable(r)))
  {
    ghost var a, b, c, d := CommonPairs(r.tunnel), KindPairs(r.tunnel), TransportPairs(r.extras), HealthPairs(r.extras);
    TextOfPairs(a, b);
    TextOfPairs(a + b, c);
    TextOfPairs(a + b + c, d);
    sb := CommonLines(r.tunnel);
    var more := KindLines(r.tunnel);
    sb := sb + more;
    more := TransportLines(r.extras);
    sb := sb + more;
    more := HealthLines(r.extras);
    sb := sb + more;
  }

  lemma PreambleText()
    ensures TextOf(PREAMBLE) == "#" + TITLE + "\n" + ("#" + BANNER + "\n") + ("#" + USAGE + "\n") + "\n"
  {
    FourLines(Comment(TITLE), Comment(BANNER), Comment(USAGE), Blank);
  }

  lemma TwoLines(a: Entry, b: Entry)
    ensures TextOf([a, b]) == LineText(a) + LineText(b)
  {
    assert [a, b] == [a] + [b];
    OneLine(a);
    OneLine(b);
    TextAppends([a], [b]);
  }

  lemma FourLines(a: Entry, b: Entry, c: Entry, d: Entry)
    ensures TextOf([a, b, c, d]) == LineText(a) + LineText(b) + LineText(c) + LineText(d)
  {
    TwoLines(a, b);
    TwoLines(c, d);
    assert [a, b, c, d] == [a, b] + [c, d];
    TextAppends([a, b], [c, d]);
    Associate(LineText(a) + LineText(b), LineText(c), LineText(d));
  }

  lemma HeaderText(lines: seq<Entry>)
    ensures TextOf([Blank, Header] + lines) == "\n" + PROXIES + TextOf(lines)
  {
    TextAppends([Blank, Header], lines);
    TwoLines(Blank, Header);
  }

  lemma OneMoreProxy(settings: Table, proxies: seq<Table>, t: Table)
    ensures TextOf(Document(settings, proxies + [t]))
            == TextOf(Document(settings, proxies)) + ("\n" + PROXIES + TextOf(PairLines(t)))
  {
    FrontAndLast(proxies, [t]);
    assert proxies + [] == proxies;
    HeaderText(PairLines(t));
    TextAppends(Document(settings, proxies), [Blank, Header] + PairLines(t));
  }

  lemma ProxiesNext(rows: seq<Row>, i: nat)
    requires i < |rows|
    ensures Proxies(rows[..i + 1]) == Proxies(rows[..i]) + [ProxyTable(rows[i])]
  {
    EachNext(rows, ProxyTable, i);
  }

  lemma SettingsText(settings: Table)
    ensures TextOf(Document(settings, [])) == TextOf(PREAMBLE) + TextOf(PairLines(settings))
  {
    TextAppends(PREAMBLE, PairLines(settings));
  }

  /** The text of the export. */
  ghost function ExportText(rows: seq<Row>, opt: Options): string {
    TextOf(Document(Settings(opt), Proxies(rows)))
  }

  method ExportTOML(rows: seq<Row>, opt: Options) returns (text: string)
    ensures text == ExportText(rows, opt)
  {
    PreambleText();
    SettingsText(Settings(opt));
    text := "#" + TITLE + "\n" + ("#" + BANNER + "\n") + ("#" + USAGE + "\n") + "\n";
    var part := SettingsLines(opt);
    text := text + part;
    for i := 0 to |rows|
      invariant text == TextOf(Document(Settings(opt), Proxies(rows[..i])))
    {
      part := ProxyLines(rows[i]);
      ProxiesNext(rows, i);
      OneMoreProxy(Settings(opt), Proxies(rows[..i]), ProxyTable(rows[i]));
      text := text + ("\n" + PROXIES + part);
    }
    assert rows[..|rows|] == rows;
  }

  // ---------- what a reader recovers ----------

  predicate GoodTable(t: Table) { forall i | 0 <= i < |t| :: GoodKey(t[i].0) }

  predicate TablePrintable(t: Table) { forall i | 0 <= i < |t| :: ValueTomlPrintable(t[i].1) }

  lemma ConnectionKeys()
    ensures GoodKey("serverAddr") && GoodKey("serverPort") && GoodKey("user") && GoodKey("auth.method") && GoodKey("auth.token")
  {
  }

  lemma SessionKeys()
    ensures GoodKey("transport.protocol") && GoodKey("transport.tls.enable") && GoodKey("log.level") && GoodKey("log.to")
  {
  }

  lemma CommonKeys()
    ensures GoodKey("name") && GoodKey("type") && GoodKey("localIP") && GoodKey("localPort")
  {
  }

  lemma KindKeys()
    ensures GoodKey("remotePort") && GoodKey("customDomains") && GoodKey("subdomain")
    ensures GoodKey("secretKey") && GoodKey("allowUsers")
  {
  }

  lemma TransportKeys()
    ensures GoodKey("transport.useEncryption") && GoodKey("transport.useCompression")
    ensures GoodKey("transport.bandwidthLimit") && GoodKey("transport.proxyProtocolVersion")
  {
  }

  lemma HealthKeys()
    ensures GoodKey("healthCheck.type") && GoodKey("healthCheck.path")
  {
  }

  lemma HealthNumberKeys()
    ensures GoodKey("healthCheck.intervalSeconds") && GoodKey("healthCheck.timeoutSeconds") && GoodKey("healthCheck.maxFailed")
  {
  }

  lemma GoodTables(a: Table, b: Table)
    requires GoodTable(a) && GoodTable(b)
    ensures GoodTable(a + b)
  {
  }

  lemma SettingsAreGood(opt: Options)
    ensures GoodTable(Settings(opt))
  {
    ConnectionIsGood(opt);
    AuthIsGood(opt);
    SessionIsGood(opt);
    GoodTables(ConnectionPairs(opt), AuthPairs(opt));
    GoodTables(ConnectionPairs(opt) + AuthPairs(opt), SessionPairs(opt));
  }

  lemma ConnectionIsGood(opt: Options)
    ensures GoodTable(ConnectionPairs(opt))
  {
    ConnectionKeys();
  }

  lemma AuthIsGood(opt: Options)
    ensures GoodTable(AuthPairs(opt))
  {
    ConnectionKeys();
  }

  lemma SessionIsGood(opt: Options)
    ensures GoodTable(SessionPairs(opt))
  {
    SessionKeys();
  }

  lemma CommonIsGood(t: Tunnel)
    ensures GoodTable(CommonPairs(t))
  {
    CommonKeys();
  }

  lemma KindIsGood(t: Tunnel)
    ensures GoodTable(KindPairs(t))
  {
    KindKeys();
  }

  lemma TransportIsGood(x: Extras)
    ensures GoodTable(TransportPairs(x))
  {
    TransportKeys();
  }

  lemma HealthNumbersAreGood(x: Extras)
    ensures GoodTable(HealthNumbers(x))
  {
    HealthNumberKeys();
  }

  lemma HealthIsGood(x: Extras)
    ensures GoodTable(HealthPairs(x))
  {
    HealthKeys();
    HealthNumbersAreGood(x);
  }

  lemma ProxyTableIsGood(r: Row)
    ensures GoodTable(ProxyTable(r))
  {
    CommonIsGood(r.tunnel);
    KindIsGood(r.tunnel);
    TransportIsGood(r.extras);
    HealthIsGood(r.extras);
    FourTables(CommonPairs(r.tunnel), KindPairs(r.tunnel), TransportPairs(r.extras), HealthPairs(r.extras));
  }

  lemma FourTables(a: Table, b: Table, c: Table, d: Table)
    requires GoodTable(a) && GoodTable(b) && GoodTable(c) && GoodTable(d)
    ensures GoodTable(a + b + c + d)
  {
    GoodTables(a, b);
    GoodTables(a + b, c);
    GoodTables(a + b + c, d);
  }

  lemma {:induction false} PairLinesAre(t: Table)
    ensures |PairLines(t)| == |t| && forall i | 0 <= i < |t| :: PairLines(t)[i] == Pair(t[i].0, t[i].1)
  {
    if t != [] {
      PairLinesAre(t[..|t| - 1]);
    }
  }

  lemma TitleIsGood()
    ensures AllOf(TITLE, IsCommentChar)
  {
  }

  lemma BannerIsGood()
    ensures AllOf(BANNER, IsCommentChar)
  {
  }

  lemma PlaceIsGood()
    ensures AllOf(PLACE, IsCommentChar)
  {
  }

  lemma CommandIsGood()
    ensures AllOf(COMMAND, IsCommentChar)
  {
  }

  lemma AllOfBoth(a: string, b: string, passes: char -> bool)
    requires AllOf(a, passes) && AllOf(b, passes)
    ensures AllOf(a + b, passes)
  {
  }

  lemma UsageIsGood()
    ensures AllOf(USAGE, IsCommentChar)
  {
    PlaceIsGood();
    CommandIsGood();
    AllOfBoth(PLACE, COMMAND, IsCommentChar);
  }

  lemma ThreeCommentsAreGood(a: string, b: string, c: string)
    requires AllOf(a, IsCommentChar) && AllOf(b, IsCommentChar) && AllOf(c, IsCommentChar)
    ensures AllGood([Comment(a), Comment(b), Comment(c), Blank])
    ensures AllEntriesPrintable([Comment(a), Comment(b), Comment(c), Blank])
  {
  }

  lemma PreambleIsGood()
    ensures AllGood(PREAMBLE) && AllEntriesPrintable(PREAMBLE)
  {
    TitleIsGood();
    BannerIsGood();
    UsageIsGood();
    ThreeCommentsAreGood(TITLE, BANNER, USAGE);
  }

  lemma GoodAppend(a: seq<Entry>, b: seq<Entry>)
    ensures AllGood(a) && AllGood(b) ==> AllGood(a + b)
    ensures AllEntriesPrintable(a + b) <==> AllEntriesPrintable(a) && AllEntriesPrintable(b)
  {
    var s := a + b;
    assert (forall i | 0 <= i < |a| :: s[i] == a[i]) && forall i | 0 <= i < |b| :: s[|a| + i] == b[i];
  }

  lemma TableLines(t: Table)
    requires GoodTable(t)
    ensures AllGood(PairLines(t)) && (AllEntriesPrintable(PairLines(t)) <==> TablePrintable(t))
  {
    PairLinesAre(t);
    if AllEntriesPrintable(PairLines(t)) {
      forall i | 0 <= i < |t| ensures ValueTomlPrintable(t[i].1) {
        assert EntryPrintable(PairLines(t)[i]);
      }
    }
  }

  predicate GoodProxies(ts: seq<Table>) { forall i | 0 <= i < |ts| :: GoodTable(ts[i]) }

  /** Every string that is printed has no control character but newline and tab. */
  predicate AllPrintable(ts: seq<Table>) { forall i | 0 <= i < |ts| :: TablePrintable(ts[i]) }

  lemma FirstTableIsGood(preamble: seq<Entry>, t: Table)
    requires AllGood(preamble) && AllEntriesPrintable(preamble) && GoodTable(t)
    ensures AllGood(preamble + PairLines(t)) && (AllEntriesPrintable(preamble + PairLines(t)) <==> TablePrintable(t))
  {
    TableLines(t);
    GoodAppend(preamble, PairLines(t));
  }

  lemma NextTableIsGood(es: seq<Entry>, t: Table)
    requires AllGood(es) && GoodTable(t)
    ensures AllGood(WithProxy(es, t)) && (AllEntriesPrintable(WithProxy(es, t)) <==> AllEntriesPrintable(es) && TablePrintable(t))
  {
    TableLines(t);
    GoodAppend([Blank, Header], PairLines(t));
    GoodAppend(es, [Blank, Header] + PairLines(t));
  }

  lemma FrontIsPrintable(ts: seq<Table>, t: Table)
    ensures AllPrintable(ts + [t]) <==> AllPrintable(ts) && TablePrintable(t)
  {
    var all := ts + [t];
    assert all[|ts|] == t && forall i | 0 <= i < |ts| :: all[i] == ts[i];
  }

  lemma {:induction false} DocumentIsGood(settings: Table, proxies: seq<Table>)
    requires GoodTable(settings) && GoodProxies(proxies)
    ensures AllGood(Document(settings, proxies))
    ensures AllEntriesPrintable(Document(settings, proxies)) <==> TablePrintable(settings) && AllPrintable(proxies)
  {
    if proxies == [] {
      PreambleIsGood();
      FirstTableIsGood(PREAMBLE, settings);
    } else {
      var front, last := proxies[..|proxies| - 1], proxies[|proxies| - 1];
      DocumentIsGood(settings, front);
      NextTableIsGood(Document(settings, front), last);
      assert front + [last] == proxies;
      FrontIsPrintable(front, last);
    }
  }

  lemma ProxiesAreGood(rows: seq<Row>)
    ensures GoodProxies(Proxies(rows))
  {
    forall i | 0 <= i < |rows| ensures GoodTable(Proxies(rows)[i]) {
      ProxyTableIsGood(rows[i]);
    }
  }

  lemma TablesAfterPair(es: seq<Entry>, key: string, v: Value)
    ensures TablesOf(es + [Pair(key, v)]) == WithLast(TablesOf(es), [(key, v)])
  {
    FrontAndLast(es, [Pair(key, v)]);
    assert es + [] == es;
  }

  lemma {:induction false} TablesAfterPairs(es: seq<Entry>, t: Table)
    ensures TablesOf(es + PairLines(t)) == WithLast(TablesOf(es), t)
  {
    if t == [] {
      assert es + PairLines(t) == es;
      LastUnchanged(TablesOf(es));
    } else {
      var front, last := t[..|t| - 1], t[|t| - 1];
      TablesAfterPairs(es, front);
      Associate(es, PairLines(front), [Pair(last.0, last.1)]);
      TablesAfterPair(es + PairLines(front), last.0, last.1);
      LastTwice(TablesOf(es), front, [last]);
      assert front + [last] == t;
    }
  }

  lemma LastUnchanged(ts: seq<Table>)
    requires ts != []
    ensures WithLast(ts, []) == ts
  {
    assert ts[|ts| - 1] + [] == ts[|ts| - 1];
  }

  lemma LastTwice(ts: seq<Table>, a: Table, b: Table)
    requires ts != []
    ensures WithLast(WithLast(ts, a), b) == WithLast(ts, a + b)
  {
    var x := ts[|ts| - 1];
    assert x + (a + b) == x + a + b;
    assert WithLast(ts, a)[..|ts| - 1] == ts[..|ts| - 1];
  }

  lemma LastOfNew(ts: seq<Table>, t: Table)
    ensures WithLast(ts + [[]], t) == ts + [t]
  {
    assert (ts + [[]])[..|ts|] == ts && [] + t == t;
  }

  lemma TablesAfterOne(es: seq<Entry>, e: Entry)
    ensures e.Comment? || e.Blank? ==> TablesOf(es + [e]) == TablesOf(es)
    ensures e.Header? ==> TablesOf(es + [e]) == TablesOf(es) + [[]]
  {
    FrontAndLast(es, [e]);
    assert es + [] == es;
  }

  lemma Regroup<T>(s: seq<T>, x: T, y: T, t: seq<T>)
    ensures s + ([x, y] + t) == s + [x] + [y] + t
  {
  }

  lemma TablesAfterHeader(es: seq<Entry>, t: Table)
    ensures TablesOf(WithProxy(es, t)) == TablesOf(es) + [t]
  {
    var a := es + [Blank];
    var b := a + [Header];
    Regroup(es, Blank, Header, PairLines(t));
    TablesAfterOne(es, Blank);
    TablesAfterOne(a, Header);
    TablesAfterPairs(b, t);
    LastOfNew(TablesOf(es), t);
  }

  lemma CommentsHoldNoPairs(a: Entry, b: Entry, c: Entry, d: Entry)
    requires a.Comment? && b.Comment? && c.Comment? && d.Blank?
    ensures TablesOf([a, b, c, d]) == [[]]
  {
    assert [a] == [] + [a] && [a, b] == [a] + [b] && [a, b, c] == [a, b] + [c] && [a, b, c, d] == [a, b, c] + [d];
    TablesAfterOne([], a);
    TablesAfterOne([a], b);
    TablesAfterOne([a, b], c);
    TablesAfterOne([a, b, c], d);
  }

  lemma FirstTable(preamble: seq<Entry>, t: Table)
    requires TablesOf(preamble) == [[]]
    ensures TablesOf(preamble + PairLines(t)) == [t]
  {
    TablesAfterPairs(preamble, t);
    LastOfNew([], t);
    assert [] + [[]] == TablesOf(preamble) && [] + [t] == [t];
  }

  lemma PreambleHoldsNoPairs()
    ensures TablesOf(PREAMBLE) == [[]]
  {
    CommentsHoldNoPairs(Comment(TITLE), Comment(BANNER), Comment(USAGE), Blank);
  }

  lemma {:induction false} DocumentTables(settings: Table, proxies: seq<Table>)
    ensures TablesOf(Document(settings, proxies)) == [settings] + proxies
  {
    if proxies == [] {
      PreambleHoldsNoPairs();
      FirstTable(PREAMBLE, settings);
    } else {
      var front, last := proxies[..|proxies| - 1], proxies[|proxies| - 1];
      DocumentTables(settings, front);
      TablesAfterHeader(Document(settings, front), last);
      assert [settings] + front + [last] == [settings] + proxies;
    }
  }

  /** A reader finds the settings and one table per proxy, in order and pair by pair, exactly when all strings are printable. */
  lemma TomlReadsBack(rows: seq<Row>, opt: Options)
    ensures ReadTables(ExportText(rows, opt))
            == if TablePrintable(Settings(opt)) && AllPrintable(Proxies(rows)) then Some([Settings(opt)] + Proxies(rows)) else None
  {
    SettingsAreGood(opt);
    ProxiesAreGood(rows);
    TablesReadBack(Settings(opt), Proxies(rows));
  }

  lemma TablesReadBack(settings: Table, proxies: seq<Table>)
    requires GoodTable(settings) && GoodProxies(proxies)
    ensures ReadTables(TextOf(Document(settings, proxies)))
            == if TablePrintable(settings) && AllPrintable(proxies) then Some([settings] + proxies) else None
  {
    DocumentIsGood(settings, proxies);
    LinesReadBack(Document(settings, proxies));
    DocumentTables(settings, proxies);
  }
}
