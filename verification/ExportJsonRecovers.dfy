/** From the exported text back to the tunnels and the connection settings. */
module ExportJsonRecovers {
  import opened Text
  import opened Model
  import opened Json
  import opened ExportJson
  import opened ExportFields
  import opened ExportJsonReads
  import opened ExportJsonRoundTrip

  /** What an frpc reading the file learns about one proxy. */
  datatype Proxy = Proxy(
    name: string,
    kind: string,
    localIP: string,
    localPort: int,
    remotePort: Option<int>,
    customDomains: Option<seq<string>>,
    subdomain: string,
    secretKey: Option<string>)

  datatype Config = Config(
    serverAddr: string,
    serverPort: int,
    user: string,
    authMethod: string,
    token: string,
    tls: bool,
    logLevel: string,
    logTo: string,
    proxies: seq<Proxy>)

  // ---------- a reader of the document ----------

  function Get(ms: seq<Member>, key: string): Option<Value> {
    if ms == [] then None else if ms[0].key == key then Some(ms[0].value) else Get(ms[1..], key)
  }

  function ParseInt(s: string): Option<int> {
    if s != "" && s[0] == '-' then
      if AllDigits(s[1..]) then Some(-(DigitsValue(Checked(s[1..])) as int)) else None
    else if AllDigits(s) then Some(DigitsValue(Checked(s))) else None
  }

  function Checked(s: string): (r: string)
    requires AllDigits(s)
    ensures r == s && forall i | 0 <= i < |r| :: IsDigit(r[i])
  {
    assert forall i | 0 <= i < |s| :: s[i] in s;
    s
  }

  function GetStr(ms: seq<Member>, key: string): Option<string> {
    match Get(ms, key)
    case Some(Str(s)) => Some(s)
    case _ => None
  }

  function GetInt(ms: seq<Member>, key: string): Option<int> {
    match Get(ms, key)
    case Some(Num(n)) => ParseInt(n)
    case _ => None
  }

  function GetObj(ms: seq<Member>, key: string): seq<Member> {
    match Get(ms, key)
    case Some(Obj(inner)) => inner
    case _ => []
  }

  function GetBool(ms: seq<Member>, key: string): Option<bool> {
    match Get(ms, key)
    case Some(Bool(b)) => Some(b)
    case _ => None
  }

  function OrElse(o: Option<string>, d: string): string {
    if o.Some? then o.value else d
  }

  function Strings(vs: seq<Value>): Option<seq<string>> {
    if vs == [] then Some([]) else
      match Strings(vs[..|vs| - 1])
      case None => None
      case Some(rest) => if vs[|vs| - 1].Str? then Some(rest + [vs[|vs| - 1].s]) else None
  }

  function GetStrings(ms: seq<Member>, key: string): Option<seq<string>> {
    match Get(ms, key)
    case Some(Arr(vs)) => Strings(vs)
    case _ => None
  }

  function ReadProxy(v: Value): Option<Proxy> {
    if !v.Obj? then None else
      var ms := v.members;
      match (GetStr(ms, "name"), GetStr(ms, "type"), GetStr(ms, "localIP"), GetInt(ms, "localPort"))
      case (Some(name), Some(kind), Some(ip), Some(port)) =>
        Some(Proxy(name, kind, ip, port, GetInt(ms, "remotePort"), GetStrings(ms, "customDomains"),
                   OrElse(GetStr(ms, "subdomain"), ""), GetStr(ms, "secretKey")))
      case _ => None
  }

  /** The first n proxies of the list. */
  function ReadProxies(vs: seq<Value>, n: nat): (r: Option<seq<Proxy>>)
    requires n <= |vs|
    ensures r.Some? ==> |r.value| == n
  {
    if n == 0 then Some([]) else
      match (ReadProxies(vs, n - 1), ReadProxy(vs[n - 1]))
      case (Some(rest), Some(p)) => Some(rest + [p])
      case _ => None
  }

  function ReadDocument(v: Value): Option<Config> {
    if !v.Obj? then None else
      var ms := v.members;
      match (GetStr(ms, "serverAddr"), GetInt(ms, "serverPort"), Get(ms, "proxies"))
      case (Some(addr), Some(port), Some(Arr(vs))) =>
        (match ReadProxies(vs, |vs|)
         case None => None
         case Some(ps) =>
           Some(Config(addr, port, OrElse(GetStr(ms, "user"), ""), OrElse(GetStr(GetObj(ms, "auth"), "method"), ""),
                       OrElse(GetStr(GetObj(ms, "auth"), "token"), ""),
                       GetBool(GetObj(GetObj(ms, "transport"), "tls"), "enable") == Some(true),
                       OrElse(GetStr(GetObj(ms, "log"), "level"), ""), OrElse(GetStr(GetObj(ms, "log"), "to"), ""), ps)))
      case _ => None
  }

  function Read(text: string): Option<Config> {
    match Parse(text)
    case None => None
    case Some(v) => ReadDocument(v)
  }

  // ---------- what should be recovered ----------

  function ProxyOf(t: Tunnel): Proxy {
    Proxy(t.name, Lower(t.kind), LocalAddress(t), t.localPort,
          if HasPort(t.kind) then Some(t.remotePort) else None,
          if HasDomains(t.kind) && t.customDomains != [] then Some(Cleaned(t.customDomains)) else None,
          if HasDomains(t.kind) then t.subdomain else "",
          if HasSecret(t.kind) then Some(t.secretKey) else None)
  }

  function ConfigOf(tunnels: seq<Tunnel>, opt: Options): Config {
    Config(opt.serverAddr, opt.serverPort, opt.user, if opt.token == "" then "" else "token", opt.token, opt.tls,
           opt.logLevel, "console", ProxiesOf(tunnels))
  }

  function ProxiesOf(tunnels: seq<Tunnel>): seq<Proxy> {
    seq(|tunnels|, i requires 0 <= i < |tunnels| => ProxyOf(tunnels[i]))
  }

  // ---------- members by key ----------

  lemma {:induction false} GetAt(ms: seq<Member>, i: nat)
    requires i < |ms| && forall j | 0 <= j < i :: ms[j].key != ms[i].key
    ensures Get(ms, ms[i].key) == Some(ms[i].value)
  {
    if i > 0 {
      assert ms[1..][i - 1] == ms[i];
      GetAt(ms[1..], i - 1);
    }
  }

  lemma {:induction false} GetNothing(ms: seq<Member>, key: string)
    requires forall j | 0 <= j < |ms| :: ms[j].key != key
    ensures Get(ms, key) == None
  {
    if ms != [] {
      GetNothing(ms[1..], key);
    }
  }

  lemma {:induction false} GetInSum(a: seq<Member>, b: seq<Member>, key: string)
    ensures Get(a + b, key) == if Get(a, key).Some? then Get(a, key) else Get(b, key)
  {
    if a == [] {
      assert a + b == b;
    } else {
      assert (a + b)[1..] == a[1..] + b;
      GetInSum(a[1..], b, key);
    }
  }

  lemma GetInOne(m: Member, key: string)
    ensures Get([m], key) == if m.key == key then Some(m.value) else None
  {
    assert [m][1..] == [];
  }

  // ---------- numbers and lists ----------

  lemma ItoaReadsBack(n: int)
    ensures ParseInt(Itoa(n)) == Some(n)
  {
    var m := if n < 0 then -n else n;
    DecimalReadsBack(m);
    assert AllDigits(Decimal(m));
    if n < 0 {
      assert Itoa(n)[1..] == Decimal(m);
    } else {
      assert Decimal(m)[0] != '-';
    }
  }

  lemma {:induction false} StringsReadBack(items: seq<string>)
    ensures Strings(StrList(items).items) == Some(items)
  {
    var vs := StrList(items).items;
    if items != [] {
      var rest := items[..|items| - 1];
      StringsReadBack(rest);
      assert vs[..|vs| - 1] == StrList(rest).items;
      assert items == rest + [items[|items| - 1]];
    }
  }

  // ---------- one proxy ----------

  predicate IsKindKey(k: string) {
    k == "remotePort" || k == "customDomains" || k == "subdomain" || k == "secretKey"
  }

  lemma ProxyKeysDiffer()
    ensures "name" != "type" && "name" != "localIP" && "name" != "localPort"
    ensures "type" != "localIP" && "type" != "localPort" && "localIP" != "localPort"
    ensures !IsKindKey("name") && !IsKindKey("type") && !IsKindKey("localIP") && !IsKindKey("localPort")
    ensures "remotePort" != "customDomains" && "remotePort" != "subdomain" && "remotePort" != "secretKey"
    ensures "customDomains" != "subdomain" && "customDomains" != "secretKey" && "subdomain" != "secretKey"
  {
    assert "name"[0] != "type"[0];
    assert "localPort"[0] != "subdomain"[0] && "localPort"[0] != "secretKey"[0];
    assert "subdomain"[1] != "secretKey"[1];
    assert |"name"| == 4 && |"type"| == 4 && |"localIP"| == 7 && |"localPort"| == 9;
    assert |"remotePort"| == 10 && |"customDomains"| == 13 && |"subdomain"| == 9 && |"secretKey"| == 9;
  }

  lemma GetInFour(a: Member, b: Member, c: Member, d: Member, key: string)
    ensures Get([a, b, c, d], key)
            == if a.key == key then Some(a.value) else if b.key == key then Some(b.value)
               else if c.key == key then Some(c.value) else if d.key == key then Some(d.value) else None
  {
    GetInTwo(a, b, key);
    GetInTwo(c, d, key);
    GetInSum([a, b], [c, d], key);
    assert [a, b] + [c, d] == [a, b, c, d];
  }

  lemma GetCommon(t: Tunnel, key: string)
    ensures Get(CommonMembers(t), key)
            == if key == "name" then Some(Str(t.name)) else if key == "type" then Some(Str(Lower(t.kind)))
               else if key == "localIP" then Some(Str(LocalAddress(t)))
               else if key == "localPort" then Some(Num(Itoa(t.localPort))) else None
  {
    GetInFour(Member("name", Str(t.name)), Member("type", Str(Lower(t.kind))),
              Member("localIP", Str(LocalAddress(t))), Member("localPort", Num(Itoa(t.localPort))), key);
  }

  lemma GetDomains(t: Tunnel, key: string)
    ensures Get(DomainMembers(t), key)
            == if key == "customDomains" && t.customDomains != [] then Some(StrList(Cleaned(t.customDomains)))
               else if key == "subdomain" && t.subdomain != "" then Some(Str(t.subdomain)) else None
  {
    var a := if t.customDomains != [] then [Member("customDomains", StrList(Cleaned(t.customDomains)))] else [];
    var b := if t.subdomain != "" then [Member("subdomain", Str(t.subdomain))] else [];
    GetInSum(a, b, key);
    GetInOne(Member("customDomains", StrList(Cleaned(t.customDomains))), key);
    GetInOne(Member("subdomain", Str(t.subdomain)), key);
    ProxyKeysDiffer();
  }

  lemma GetKind(t: Tunnel, key: string)
    ensures HasPort(t.kind) ==> Get(KindMembers(t), key) == if key == "remotePort" then Some(Num(Itoa(t.remotePort))) else None
    ensures HasDomains(t.kind) ==> Get(KindMembers(t), key) == Get(DomainMembers(t), key)
    ensures HasSecret(t.kind) ==> Get(KindMembers(t), key) == if key == "secretKey" then Some(Str(t.secretKey)) else None
    ensures !HasPort(t.kind) && !HasDomains(t.kind) && !HasSecret(t.kind) ==> Get(KindMembers(t), key) == None
  {
    KindsAre(t.kind);
    KindsDiffer(t.kind);
    GetInOne(Member("remotePort", Num(Itoa(t.remotePort))), key);
    GetInOne(Member("secretKey", Str(t.secretKey)), key);
  }

  lemma GetProxyMember(t: Tunnel, key: string)
    ensures Get(ProxyMembers(t), key)
            == if Get(CommonMembers(t), key).Some? then Get(CommonMembers(t), key) else Get(KindMembers(t), key)
  {
    GetInSum(CommonMembers(t), KindMembers(t), key);
  }

  lemma CommonFieldsReadBack(t: Tunnel)
    ensures var ms := ProxyMembers(t);
      && GetStr(ms, "name") == Some(t.name) && GetStr(ms, "type") == Some(Lower(t.kind))
      && GetStr(ms, "localIP") == Some(LocalAddress(t)) && GetInt(ms, "localPort") == Some(t.localPort)
  {
    ProxyKeysDiffer();
    GetCommon(t, "name"); GetProxyMember(t, "name");
    GetCommon(t, "type"); GetProxyMember(t, "type");
    GetCommon(t, "localIP"); GetProxyMember(t, "localIP");
    GetCommon(t, "localPort"); GetProxyMember(t, "localPort");
    ItoaReadsBack(t.localPort);
  }

  lemma KindFieldIs(t: Tunnel, key: string)
    requires IsKindKey(key)
    ensures Get(ProxyMembers(t), key) == Get(KindMembers(t), key)
  {
    ProxyKeysDiffer();
    GetCommon(t, key);
    GetProxyMember(t, key);
  }

  lemma PortReadsBack(t: Tunnel)
    ensures GetInt(ProxyMembers(t), "remotePort") == ProxyOf(t).remotePort
  {
    ProxyKeysDiffer();
    KindFieldIs(t, "remotePort");
    GetKind(t, "remotePort");
    GetDomains(t, "remotePort");
    ItoaReadsBack(t.remotePort);
  }

  lemma DomainsReadBack(t: Tunnel)
    ensures GetStrings(ProxyMembers(t), "customDomains") == ProxyOf(t).customDomains
    ensures OrElse(GetStr(ProxyMembers(t), "subdomain"), "") == ProxyOf(t).subdomain
  {
    ProxyKeysDiffer();
    KindsAre(t.kind);
    KindsDiffer(t.kind);
    KindFieldIs(t, "customDomains");
    GetKind(t, "customDomains");
    GetDomains(t, "customDomains");
    StringsReadBack(Cleaned(t.customDomains));
    KindFieldIs(t, "subdomain");
    GetKind(t, "subdomain");
    GetDomains(t, "subdomain");
  }

  lemma SecretReadsBack(t: Tunnel)
    ensures GetStr(ProxyMembers(t), "secretKey") == ProxyOf(t).secretKey
  {
    ProxyKeysDiffer();
    KindsAre(t.kind);
    KindsDiffer(t.kind);
    KindFieldIs(t, "secretKey");
    GetKind(t, "secretKey");
    GetDomains(t, "secretKey");
  }

  lemma ProxyReadsBack(t: Tunnel)
    ensures ReadProxy(Obj(ProxyMembers(t))) == Some(ProxyOf(t))
  {
    CommonFieldsReadBack(t);
    PortReadsBack(t);
    DomainsReadBack(t);
    SecretReadsBack(t);
  }

  lemma ProxyAtReadsBack(tunnels: seq<Tunnel>, i: nat)
    requires i < |tunnels|
    ensures |Proxies(tunnels)| == |ProxiesOf(tunnels)| == |tunnels|
    ensures ReadProxy(Proxies(tunnels)[i]) == Some(ProxiesOf(tunnels)[i])
  {
    ProxyReadsBack(tunnels[i]);
  }

  lemma OneMoreReadsBack(vs: seq<Value>, n: nat, front: seq<Proxy>, p: Proxy)
    requires n < |vs| && ReadProxies(vs, n) == Some(front) && ReadProxy(vs[n]) == Some(p)
    ensures ReadProxies(vs, n + 1) == Some(front + [p])
  {
  }

  lemma {:induction false} AllReadBack(vs: seq<Value>, ps: seq<Proxy>, n: nat)
    requires n <= |vs| == |ps| && forall i | 0 <= i < |vs| :: ReadProxy(vs[i]) == Some(ps[i])
    ensures ReadProxies(vs, n) == Some(ps[..n])
  {
    if n != 0 {
      AllReadBack(vs, ps, n - 1);
      OneMoreReadsBack(vs, n - 1, ps[..n - 1], ps[n - 1]);
      assert ps[..n] == ps[..n - 1] + [ps[n - 1]];
    }
  }

  lemma ProxiesReadBack(tunnels: seq<Tunnel>, n: nat)
    requires n <= |tunnels|
    ensures ReadProxies(Proxies(tunnels), n) == Some(ProxiesOf(tunnels)[..n])
  {
    forall i | 0 <= i < |tunnels| ensures ReadProxy(Proxies(tunnels)[i]) == Some(ProxiesOf(tunnels)[i]) {
      ProxyAtReadsBack(tunnels, i);
    }
    AllReadBack(Proxies(tunnels), ProxiesOf(tunnels), n);
  }

  // ---------- the settings ----------

  predicate IsLaterKey(k: string) {
    k == "transport" || k == "log" || k == "proxies"
  }

  lemma HeaderKeysDiffer()
    ensures "serverAddr" != "serverPort" && "user" != "auth" && "method" != "token" && "level" != "to"
    ensures "serverAddr" != "user" && "serverAddr" != "auth" && "serverPort" != "user" && "serverPort" != "auth"
    ensures !IsLaterKey("serverAddr") && !IsLaterKey("serverPort") && !IsLaterKey("user") && !IsLaterKey("auth")
    ensures "transport" != "log" && "transport" != "proxies" && "log" != "proxies"
  {
    assert "serverAddr"[6] != "serverPort"[6] && "user"[0] != "auth"[0];
    assert |"serverAddr"| == 10 && |"serverPort"| == 10 && |"user"| == 4 && |"auth"| == 4;
    assert |"transport"| == 9 && |"log"| == 3 && |"proxies"| == 7;
    assert |"method"| == 6 && |"token"| == 5 && |"level"| == 5 && |"to"| == 2;
  }

  lemma GetInTwo(a: Member, b: Member, key: string)
    ensures Get([a, b], key) == if a.key == key then Some(a.value) else if b.key == key then Some(b.value) else None
  {
    GetInOne(b, key);
    assert [a, b][1..] == [b];
  }

  lemma GetConnection(opt: Options, key: string)
    ensures Get(ConnectionMembers(opt), key)
            == if key == "serverAddr" then Some(Str(opt.serverAddr))
               else if key == "serverPort" then Some(Num(Itoa(opt.serverPort)))
               else if key == "user" && opt.user != "" then Some(Str(opt.user)) else None
  {
    var a, b := Member("serverAddr", Str(opt.serverAddr)), Member("serverPort", Num(Itoa(opt.serverPort)));
    var u := if opt.user != "" then [Member("user", Str(opt.user))] else [];
    GetInTwo(a, b, key);
    GetInOne(Member("user", Str(opt.user)), key);
    GetInSum([a, b], u, key);
  }

  lemma GetTopLevel(tunnels: seq<Tunnel>, opt: Options, key: string)
    ensures Get(HeaderMembers(opt) + [ProxiesMember(tunnels)], key)
            == if Get(ConnectionMembers(opt), key).Some? then Get(ConnectionMembers(opt), key)
               else if key == "auth" && opt.token != "" then Some(Auth(opt.token))
               else if key == "transport" then Some(Transport(opt.tls))
               else if key == "log" then Some(Log(opt.logLevel))
               else if key == "proxies" then Some(Arr(Proxies(tunnels)))
               else None
  {
    var c, a := ConnectionMembers(opt), AuthMembers(opt);
    var t, l := Member("transport", Transport(opt.tls)), Member("log", Log(opt.logLevel));
    GetInSum(c + a + [t] + [l], [ProxiesMember(tunnels)], key);
    GetInSum(c + a + [t], [l], key);
    GetInSum(c + a, [t], key);
    GetInSum(c, a, key);
    GetInOne(Member("auth", Auth(opt.token)), key);
    GetInOne(t, key);
    GetInOne(l, key);
    GetInOne(ProxiesMember(tunnels), key);
    HeaderKeysDiffer();
  }

  lemma ConnectionReadsBack(tunnels: seq<Tunnel>, opt: Options)
    ensures var ms := HeaderMembers(opt) + [ProxiesMember(tunnels)];
      && GetStr(ms, "serverAddr") == Some(opt.serverAddr) && GetInt(ms, "serverPort") == Some(opt.serverPort)
      && OrElse(GetStr(ms, "user"), "") == opt.user
  {
    HeaderKeysDiffer();
    ItoaReadsBack(opt.serverPort);
    GetConnection(opt, "serverAddr"); GetTopLevel(tunnels, opt, "serverAddr");
    GetConnection(opt, "serverPort"); GetTopLevel(tunnels, opt, "serverPort");
    GetConnection(opt, "user"); GetTopLevel(tunnels, opt, "user");
  }

  lemma SessionReadsBack(tunnels: seq<Tunnel>, opt: Options)
    ensures var ms := HeaderMembers(opt) + [ProxiesMember(tunnels)];
      && OrElse(GetStr(GetObj(ms, "auth"), "token"), "") == opt.token
      && GetBool(GetObj(GetObj(ms, "transport"), "tls"), "enable") == Some(opt.tls)
      && OrElse(GetStr(GetObj(ms, "log"), "level"), "") == opt.logLevel
      && OrElse(GetStr(GetObj(ms, "auth"), "method"), "") == (if opt.token == "" then "" else "token")
      && OrElse(GetStr(GetObj(ms, "log"), "to"), "") == "console"
  {
    HeaderKeysDiffer();
    GetConnection(opt, "auth"); GetTopLevel(tunnels, opt, "auth");
    GetConnection(opt, "transport"); GetTopLevel(tunnels, opt, "transport");
    GetConnection(opt, "log"); GetTopLevel(tunnels, opt, "log");
    GetInTwo(Member("method", Str("token")), Member("token", Str(opt.token)), "token");
    GetInTwo(Member("method", Str("token")), Member("token", Str(opt.token)), "method");
    GetInOne(Member("tls", Obj([Member("enable", Bool(opt.tls))])), "tls");
    GetInOne(Member("enable", Bool(opt.tls)), "enable");
    GetInTwo(Member("level", Str(opt.logLevel)), Member("to", Str("console")), "level");
    GetInTwo(Member("level", Str(opt.logLevel)), Member("to", Str("console")), "to");
  }

  lemma ProxiesAreFound(tunnels: seq<Tunnel>, opt: Options)
    ensures Get(HeaderMembers(opt) + [ProxiesMember(tunnels)], "proxies") == Some(ProxiesMember(tunnels).value)
  {
    HeaderKeysDiffer();
    GetConnection(opt, "proxies");
    GetTopLevel(tunnels, opt, "proxies");
  }

  lemma MembersMakeTheConfig(ms: seq<Member>, vs: seq<Value>, c: Config)
    requires GetStr(ms, "serverAddr") == Some(c.serverAddr) && GetInt(ms, "serverPort") == Some(c.serverPort)
    requires OrElse(GetStr(ms, "user"), "") == c.user
    requires OrElse(GetStr(GetObj(ms, "auth"), "method"), "") == c.authMethod
    requires OrElse(GetStr(GetObj(ms, "auth"), "token"), "") == c.token
    requires GetBool(GetObj(GetObj(ms, "transport"), "tls"), "enable") == Some(c.tls)
    requires OrElse(GetStr(GetObj(ms, "log"), "level"), "") == c.logLevel && OrElse(GetStr(GetObj(ms, "log"), "to"), "") == c.logTo
    requires Get(ms, "proxies") == Some(Arr(vs)) && ReadProxies(vs, |vs|) == Some(c.proxies)
    ensures ReadDocument(Obj(ms)) == Some(c)
  {
  }

  lemma DocumentReadsBack(tunnels: seq<Tunnel>, opt: Options)
    ensures ReadDocument(Document(tunnels, opt)) == Some(ConfigOf(tunnels, opt))
  {
    ConnectionReadsBack(tunnels, opt);
    SessionReadsBack(tunnels, opt);
    ProxiesAreFound(tunnels, opt);
    ProxiesReadBack(tunnels, |tunnels|);
    assert ProxiesOf(tunnels)[..|tunnels|] == ProxiesOf(tunnels);
    MembersMakeTheConfig(HeaderMembers(opt) + [ProxiesMember(tunnels)], Proxies(tunnels), ConfigOf(tunnels, opt));
  }

  // ---------- when the text is well-formed ----------

  predicate AllPrintableStrings(items: seq<string>) {
    forall i | 0 <= i < |items| :: Printable(Trim(items[i]))
  }

  /** None of the strings the export prints for this tunnel holds a control character besides newline and tab. */
  predicate PrintableTunnel(t: Tunnel) {
    && Printable(t.name) && Printable(t.kind) && Printable(LocalAddress(t))
    && (HasDomains(t.kind) ==> AllPrintableStrings(t.customDomains) && Printable(t.subdomain))
    && (HasSecret(t.kind) ==> Printable(t.secretKey))
  }

  predicate PrintableExport(tunnels: seq<Tunnel>, opt: Options) {
    && Printable(opt.serverAddr) && Printable(opt.user) && Printable(opt.token) && Printable(opt.logLevel)
    && forall i | 0 <= i < |tunnels| :: PrintableTunnel(tunnels[i])
  }

  lemma LowerKeepsPrintable(s: string)
    ensures Printable(Lower(s)) <==> Printable(s)
  {
    forall i | 0 <= i < |s| ensures PrintableChar(Lower(s)[i]) <==> PrintableChar(s[i]) {}
    if Printable(Lower(s)) {
      forall i | 0 <= i < |s| ensures PrintableChar(s[i]) { assert PrintableChar(Lower(s)[i]); }
    }
  }

  predicate AllOf(items: seq<string>) {
    forall i | 0 <= i < |items| :: Printable(items[i])
  }

  lemma StrListPrintable(items: seq<string>)
    ensures ValuePrintable(StrList(items)) <==> AllOf(items)
  {
    var vs := StrList(items).items;
    if ValuePrintable(StrList(items)) {
      forall i | 0 <= i < |items| ensures Printable(items[i]) { assert vs[i] in vs && ValuePrintable(vs[i]); }
    }
  }

  lemma {:induction false} CleanedPrintable(items: seq<string>)
    ensures AllOf(Cleaned(items)) <==> AllPrintableStrings(items)
  {
    if items != [] {
      var rest, s := items[..|items| - 1], Trim(items[|items| - 1]);
      CleanedPrintable(rest);
      LastPrintable(items);
      if s == "" {
        assert Cleaned(items) == Cleaned(rest);
      } else {
        AllOfGrows(Cleaned(rest), s);
      }
    }
  }

  lemma LastPrintable(items: seq<string>)
    requires items != []
    ensures AllPrintableStrings(items) <==>
            AllPrintableStrings(items[..|items| - 1]) && Printable(Trim(items[|items| - 1]))
  {
    var rest, last := items[..|items| - 1], items[|items| - 1];
    assert items == rest + [last];
    if AllPrintableStrings(items) {
      assert items[|items| - 1] in items;
      forall i | 0 <= i < |rest| ensures items[i] == rest[i] {}
    }
  }

  lemma AllOfGrows(items: seq<string>, s: string)
    ensures AllOf(items + [s]) <==> AllOf(items) && Printable(s)
  {
    if AllOf(items + [s]) {
      forall i | 0 <= i < |items| ensures Printable(items[i]) { assert (items + [s])[i] == items[i]; }
      assert (items + [s])[|items|] == s;
    }
  }

  lemma MembersPrintableSum(a: seq<Member>, b: seq<Member>)
    ensures MembersPrintable(a + b) <==> MembersPrintable(a) && MembersPrintable(b)
  {
    if MembersPrintable(a + b) {
      forall m | m in a ensures Printable(m.key) && ValuePrintable(m.value) { assert m in a + b; }
      forall m | m in b ensures Printable(m.key) && ValuePrintable(m.value) { assert m in a + b; }
    }
  }

  lemma MembersPrintableOne(key: string, v: Value)
    requires Printable(key)
    ensures MembersPrintable([Member(key, v)]) <==> ValuePrintable(v)
  {
    assert Member(key, v) in [Member(key, v)];
  }

  lemma ProxyKeysPrintable()
    ensures Printable("name") && Printable("type") && Printable("localIP") && Printable("localPort")
    ensures Printable("remotePort") && Printable("customDomains") && Printable("subdomain") && Printable("secretKey")
  {
  }

  lemma HeaderKeysPrintable()
    ensures Printable("serverAddr") && Printable("serverPort") && Printable("user") && Printable("auth")
    ensures Printable("method") && Printable("token") && Printable("transport") && Printable("tls") && Printable("enable")
    ensures Printable("log") && Printable("level") && Printable("to") && Printable("console") && Printable("proxies")
  {
  }

  lemma FourPrintable(a: Member, b: Member, c: Member, d: Member)
    requires Printable(a.key) && Printable(b.key) && Printable(c.key) && Printable(d.key)
    ensures MembersPrintable([a, b, c, d])
            <==> ValuePrintable(a.value) && ValuePrintable(b.value) && ValuePrintable(c.value) && ValuePrintable(d.value)
  {
    var ms := [a, b, c, d];
    if MembersPrintable(ms) {
      assert ms[0] in ms && ms[1] in ms && ms[2] in ms && ms[3] in ms;
    }
  }

  lemma CommonPrintable(t: Tunnel)
    ensures MembersPrintable(CommonMembers(t))
            <==> Printable(t.name) && Printable(t.kind) && Printable(LocalAddress(t))
  {
    ProxyKeysPrintable();
    LowerKeepsPrintable(t.kind);
    FourPrintable(Member("name", Str(t.name)), Member("type", Str(Lower(t.kind))),
                  Member("localIP", Str(LocalAddress(t))), Member("localPort", Num(Itoa(t.localPort))));
  }

  lemma DomainsPrintable(t: Tunnel)
    ensures MembersPrintable(DomainMembers(t)) <==> AllPrintableStrings(t.customDomains) && Printable(t.subdomain)
  {
    var a := if t.customDomains != [] then [Member("customDomains", StrList(Cleaned(t.customDomains)))] else [];
    var b := if t.subdomain != "" then [Member("subdomain", Str(t.subdomain))] else [];
    ProxyKeysPrintable();
    CleanedPrintable(t.customDomains);
    StrListPrintable(Cleaned(t.customDomains));
    MembersPrintableOne("customDomains", StrList(Cleaned(t.customDomains)));
    MembersPrintableOne("subdomain", Str(t.subdomain));
    MembersPrintableSum(a, b);
  }

  lemma KindPrintable(t: Tunnel)
    ensures MembersPrintable(KindMembers(t))
            <==> (HasDomains(t.kind) ==> AllPrintableStrings(t.customDomains) && Printable(t.subdomain))
                 && (HasSecret(t.kind) ==> Printable(t.secretKey))
  {
    ProxyKeysPrintable();
    KindsAre(t.kind);
    KindsDiffer(t.kind);
    DomainsPrintable(t);
    MembersPrintableOne("remotePort", Num(Itoa(t.remotePort)));
    MembersPrintableOne("secretKey", Str(t.secretKey));
  }

  lemma TunnelPrintable(t: Tunnel)
    ensures MembersPrintable(ProxyMembers(t)) <==> PrintableTunnel(t)
  {
    CommonPrintable(t);
    KindPrintable(t);
    MembersPrintableSum(CommonMembers(t), KindMembers(t));
  }

  lemma RowsPrintable(tunnels: seq<Tunnel>)
    ensures ItemsPrintable(Proxies(tunnels)) <==> forall i | 0 <= i < |tunnels| :: PrintableTunnel(tunnels[i])
  {
    var vs := Proxies(tunnels);
    forall i | 0 <= i < |tunnels| ensures ValuePrintable(vs[i]) <==> PrintableTunnel(tunnels[i]) {
      TunnelPrintable(tunnels[i]);
    }
    if ItemsPrintable(vs) {
      forall i | 0 <= i < |tunnels| ensures PrintableTunnel(tunnels[i]) { assert vs[i] in vs; }
    }
  }

  lemma HeaderPrintable(opt: Options)
    ensures MembersPrintable(HeaderMembers(opt))
            <==> Printable(opt.serverAddr) && Printable(opt.user) && Printable(opt.token) && Printable(opt.logLevel)
  {
    var c, a := ConnectionMembers(opt), AuthMembers(opt);
    var t, l := [Member("transport", Transport(opt.tls))], [Member("log", Log(opt.logLevel))];
    ConnectionPrintable(opt);
    SessionPrintable(opt);
    MembersPrintableSum(c + a + t, l);
    MembersPrintableSum(c + a, t);
    MembersPrintableSum(c, a);
  }

  lemma ConnectionPrintable(opt: Options)
    ensures MembersPrintable(ConnectionMembers(opt)) <==> Printable(opt.serverAddr) && Printable(opt.user)
  {
    var a, b := Member("serverAddr", Str(opt.serverAddr)), Member("serverPort", Num(Itoa(opt.serverPort)));
    var u := if opt.user != "" then [Member("user", Str(opt.user))] else [];
    HeaderKeysPrintable();
    MembersPrintableOne(a.key, a.value);
    MembersPrintableOne(b.key, b.value);
    MembersPrintableOne("user", Str(opt.user));
    MembersPrintableSum([a], [b]);
    MembersPrintableSum([a] + [b], u);
    assert ConnectionMembers(opt) == [a] + [b] + u;
  }

  lemma SessionPrintable(opt: Options)
    ensures MembersPrintable(AuthMembers(opt)) <==> Printable(opt.token)
    ensures MembersPrintable([Member("transport", Transport(opt.tls))])
    ensures MembersPrintable([Member("log", Log(opt.logLevel))]) <==> Printable(opt.logLevel)
  {
    HeaderKeysPrintable();
    PairPrintable("method", "token", "token", opt.token);
    MembersPrintableOne("auth", Auth(opt.token));
    NestedPrintable("transport", "tls", "enable", Bool(opt.tls));
    PairPrintable("level", opt.logLevel, "to", "console");
    MembersPrintableOne("log", Log(opt.logLevel));
  }

  lemma NestedPrintable(k1: string, k2: string, k3: string, v: Value)
    requires Printable(k1) && Printable(k2) && Printable(k3)
    ensures MembersPrintable([Member(k1, Obj([Member(k2, Obj([Member(k3, v)]))]))]) <==> ValuePrintable(v)
  {
    MembersPrintableOne(k3, v);
    MembersPrintableOne(k2, Obj([Member(k3, v)]));
    MembersPrintableOne(k1, Obj([Member(k2, Obj([Member(k3, v)]))]));
  }

  lemma PairPrintable(k1: string, s1: string, k2: string, s2: string)
    requires Printable(k1) && Printable(k2)
    ensures ValuePrintable(Obj([Member(k1, Str(s1)), Member(k2, Str(s2))])) <==> Printable(s1) && Printable(s2)
  {
    MembersPrintableOne(k1, Str(s1));
    MembersPrintableOne(k2, Str(s2));
    MembersPrintableSum([Member(k1, Str(s1))], [Member(k2, Str(s2))]);
    assert [Member(k1, Str(s1))] + [Member(k2, Str(s2))] == [Member(k1, Str(s1)), Member(k2, Str(s2))];
  }

  /**
   * Reading the exported text recovers the settings and one proxy per tunnel, in order; and the
   * text is well-formed exactly when every string printed into it is printable.
   */
  lemma ExportReadsBack(tunnels: seq<Tunnel>, opt: Options)
    ensures Read(Render(Layout(tunnels, opt)))
            == if PrintableExport(tunnels, opt) then Some(ConfigOf(tunnels, opt)) else None
    ensures Parse(Render(Layout(tunnels, opt))).Some? <==> PrintableExport(tunnels, opt)
  {
    ExportParsesBack(tunnels, opt);
    DocumentReadsBack(tunnels, opt);
    PrintableDocument(tunnels, opt);
  }

  lemma PrintableDocument(tunnels: seq<Tunnel>, opt: Options)
    ensures ValuePrintable(Document(tunnels, opt)) <==> PrintableExport(tunnels, opt)
  {
    HeaderKeysPrintable();
    HeaderPrintable(opt);
    RowsPrintable(tunnels);
    DocumentPrintable(tunnels, opt);
  }

  /** A carriage return in a tunnel's name is enough to make the exported text unreadable. */
  lemma CarriageReturnBreaksTheExport(t: Tunnel, opt: Options)
    requires t.name == "web\r"
    ensures Parse(Render(Layout([t], opt))) == None
  {
    ExportReadsBack([t], opt);
    assert !PrintableChar(t.name[3]);
    assert !PrintableTunnel([t][0]);
  }
}
