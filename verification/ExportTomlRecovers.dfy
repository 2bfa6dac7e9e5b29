/** From the exported TOML back to the tunnels and the connection settings: a reader that looks up every key it knows. */
module ExportTomlRecovers {
  import ExportJson
  import opened Sequences
  import opened Text
  import opened Model
  import opened ExportFields
  import opened ExportToml
  import opened ExportTomlDocument

  type Options = ExportJson.Options

  /** What an frpc reading the file learns about one proxy; what is not there has its zero value. */
  datatype Proxy = Proxy(
    name: string,
    kind: string,
    localIP: string,
    localPort: int,
    remotePort: Option<int>,
    customDomains: seq<string>,
    subdomain: string,
    secretKey: Option<string>,
    allowUsers: seq<string>,
    transport: TransportSettings,
    health: HealthCheck)

  datatype TransportSettings = TransportSettings(
    useEncryption: bool,
    useCompression: bool,
    bandwidthLimit: string,
    proxyProtocolVersion: string)

  datatype HealthCheck = HealthCheck(
    kind: string,
    path: string,
    intervalSeconds: int,
    timeoutSeconds: int,
    maxFailed: int)

  datatype Config = Config(
    serverAddr: string,
    serverPort: int,
    user: string,
    authMethod: string,
    token: string,
    protocol: string,
    tls: bool,
    logLevel: string,
    logTo: string,
    proxies: seq<Proxy>)

  // ---------- a reader by key ----------

  function Find(t: Table, key: string): Option<Value> {
    if t == [] then None else if t[0].0 == key then Some(t[0].1) else Find(t[1..], key)
  }

  function Str(v: Option<Value>): string {
    if v.Some? && v.value.TStr? then v.value.s else ""
  }

  function Int(v: Option<Value>): int {
    if v.Some? && v.value.TInt? then v.value.n else 0
  }

  function Bool(v: Option<Value>): bool {
    v.Some? && v.value.TBool? && v.value.b
  }

  function List(v: Option<Value>): seq<string> {
    if v.Some? && v.value.TList? then v.value.items else []
  }

  function SomeInt(v: Option<Value>): Option<int> {
    if v.Some? && v.value.TInt? then Some(v.value.n) else None
  }

  function SomeStr(v: Option<Value>): Option<string> {
    if v.Some? && v.value.TStr? then Some(v.value.s) else None
  }

  function ReadTransport(t: Table): TransportSettings {
    TransportSettings(Bool(Find(t, "transport.useEncryption")), Bool(Find(t, "transport.useCompression")),
                      Str(Find(t, "transport.bandwidthLimit")), Str(Find(t, "transport.proxyProtocolVersion")))
  }

  function ReadHealth(t: Table): HealthCheck {
    HealthCheck(Str(Find(t, "healthCheck.type")), Str(Find(t, "healthCheck.path")), Int(Find(t, "healthCheck.intervalSeconds")),
                Int(Find(t, "healthCheck.timeoutSeconds")), Int(Find(t, "healthCheck.maxFailed")))
  }

  function ReadProxy(t: Table): Proxy {
    Proxy(Str(Find(t, "name")), Str(Find(t, "type")), Str(Find(t, "localIP")), Int(Find(t, "localPort")),
          SomeInt(Find(t, "remotePort")), List(Find(t, "customDomains")), Str(Find(t, "subdomain")),
          SomeStr(Find(t, "secretKey")), List(Find(t, "allowUsers")), ReadTransport(t), ReadHealth(t))
  }

  ghost function ReadConfig(settings: Table, proxies: seq<Table>): Config {
    Config(Str(Find(settings, "serverAddr")), Int(Find(settings, "serverPort")), Str(Find(settings, "user")),
           Str(Find(settings, "auth.method")), Str(Find(settings, "auth.token")), Str(Find(settings, "transport.protocol")),
           Bool(Find(settings, "transport.tls.enable")), Str(Find(settings, "log.level")), Str(Find(settings, "log.to")),
           Each(proxies, ReadProxy))
  }

  ghost function Read(text: string): Option<Config> {
    match ReadTables(text)
    case None => None
    case Some(tables) => Some(ReadConfig(tables[0], tables[1..]))
  }

  // ---------- what should be recovered, from the fields of the tunnel ----------

  ghost predicate IsTransportOf(p: TransportSettings, x: Extras) {
    && p.useEncryption == x.useEncryption && p.useCompression == x.useCompression
    && p.bandwidthLimit == x.bandwidthLimit && p.proxyProtocolVersion == x.proxyProtocolVersion
  }

  /** Without a type there is no health check; a number that is not positive is not there. */
  ghost predicate IsHealthOf(p: HealthCheck, x: Extras) {
    if x.healthCheckType == "" then p == HealthCheck("", "", 0, 0, 0) else
      && p.kind == x.healthCheckType && p.path == x.healthCheckURL
      && p.intervalSeconds == (if x.healthCheckInterval > 0 then x.healthCheckInterval else 0)
      && p.timeoutSeconds == (if x.healthCheckTimeout > 0 then x.healthCheckTimeout else 0)
      && p.maxFailed == (if x.healthCheckMaxFailed > 0 then x.healthCheckMaxFailed else 0)
  }

  predicate Separates(c: char) { c == ',' || c == ' ' || c == ';' }

  /** A stretch without separators that cannot be made longer. */
  ghost predicate IsRun(s: string, a: nat, b: nat) {
    && a < b <= |s| && (forall i | a <= i < b :: !Separates(s[i]))
    && (a == 0 || Separates(s[a - 1])) && (b == |s| || Separates(s[b]))
  }

  ghost predicate InSome(i: nat, from: seq<nat>, to: seq<nat>) {
    exists k :: 0 <= k < |from| && k < |to| && from[k] <= i < to[k]
  }

  /** All such stretches in their order, the k-th from `from[k]` up to `to[k]`. */
  ghost predicate RunsAt(runs: seq<string>, s: string, from: seq<nat>, to: seq<nat>) {
    && |runs| == |from| == |to|
    && (forall k | 0 <= k < |runs| :: IsRun(s, from[k], to[k]) && runs[k] == s[from[k]..to[k]])
    && (forall j, k | 0 <= j < k < |runs| :: to[j] <= from[k])
    && (forall i | 0 <= i < |s| && !Separates(s[i]) :: InSome(i, from, to))
  }

  /** What stands between commas, blanks and semicolons, trimmed. */
  ghost predicate AreUsers(users: seq<string>, group: string) {
    exists runs, from, to :: RunsAt(runs, group, from, to) && AreTrimmed(users, runs)
  }

  ghost predicate IsProxyOf(p: Proxy, row: Row) {
    var t := row.tunnel;
    && p.name == t.name && p.kind == Lower(t.kind)
    && p.localIP == LocalAddress(t) && p.localPort == t.localPort
    && p.remotePort == (if HasPort(t.kind) then Some(t.remotePort) else None)
    && (if HasDomains(t.kind) then AreTrimmed(p.customDomains, t.customDomains) else p.customDomains == [])
    && p.subdomain == (if HasDomains(t.kind) then t.subdomain else "")
    && p.secretKey == (if HasSecret(t.kind) then Some(t.secretKey) else None)
    && (if HasSecret(t.kind) then AreUsers(p.allowUsers, t.group) else p.allowUsers == [])
    && IsTransportOf(p.transport, row.extras) && IsHealthOf(p.health, row.extras)
  }

  /** Without a token there is no way to authenticate to name; tcp is what an frpc uses unless told otherwise. */
  ghost predicate SettingsOf(c: Config, opt: Options) {
    && c.serverAddr == opt.serverAddr && c.serverPort == opt.serverPort && c.user == opt.user
    && c.token == opt.token && c.authMethod == (if opt.token == "" then "" else "token")
    && c.protocol == (if opt.protocol == "tcp" then "" else opt.protocol)
    && c.tls == opt.tls && c.logLevel == opt.logLevel && c.logTo == "console"
  }

  /** The settings, and one proxy per tunnel in their order. */
  ghost predicate IsConfigOf(c: Config, rows: seq<Row>, opt: Options) {
    && SettingsOf(c, opt)
    && |c.proxies| == |rows| && forall i | 0 <= i < |rows| :: IsProxyOf(c.proxies[i], rows[i])
  }

  // ---------- which of these the file can carry ----------

  /** No control character but newline and tab. */
  predicate Clean(s: string) {
    forall i | 0 <= i < |s| :: s[i] == '\n' || s[i] == '\t' || (s[i] >= ' ' && s[i] != '\U{7F}')
  }

  predicate AllClean(items: seq<string>) { forall i | 0 <= i < |items| :: Clean(items[i]) }

  predicate CleanProxy(p: Proxy) {
    && Clean(p.name) && Clean(p.kind) && Clean(p.localIP) && AllClean(p.customDomains) && Clean(p.subdomain)
    && (p.secretKey.Some? ==> Clean(p.secretKey.value)) && AllClean(p.allowUsers)
    && Clean(p.transport.bandwidthLimit) && Clean(p.transport.proxyProtocolVersion)
    && Clean(p.health.kind) && Clean(p.health.path)
  }

  predicate CleanSettings(c: Config) {
    Clean(c.serverAddr) && Clean(c.user) && Clean(c.token) && Clean(c.protocol) && Clean(c.logLevel)
  }

  predicate CleanConfig(c: Config) {
    && CleanSettings(c)
    && forall i | 0 <= i < |c.proxies| :: CleanProxy(c.proxies[i])
  }

  // ---------- finding a key ----------

  lemma {:induction false} FindInSum(a: Table, b: Table, key: string)
    ensures Find(a + b, key) == if Find(a, key).Some? then Find(a, key) else Find(b, key)
  {
    if a == [] {
      assert a + b == b;
    } else {
      HeadAndTail(a, b);
      FindInSum(a[1..], b, key);
    }
  }

  lemma FindInOne(k: string, v: Value, key: string)
    ensures Find([(k, v)], key) == if k == key then Some(v) else None
  {
    assert [(k, v)][1..] == [];
  }

  lemma FindInMaybe(c: bool, k: string, v: Value, key: string)
    ensures Find(OneIf(c, k, v), key) == if c && k == key then Some(v) else None
  {
    FindInOne(k, v, key);
  }

  /** The four parts of a proxy are told apart by how their keys begin. */
  function Part(key: string): nat {
    if |key| < 2 then 4
    else if key[0] == 'n' || key[0] == 'l' || (key[0] == 't' && key[1] == 'y') then 0
    else if key[0] == 'r' || key[0] == 'c' || key[0] == 's' || key[0] == 'a' then 1
    else if key[0] == 't' then 2
    else if key[0] == 'h' then 3
    else 4
  }

  predicate AllInPart(t: Table, part: nat) { forall i | 0 <= i < |t| :: Part(t[i].0) == part }

  lemma {:induction false} NotInPart(t: Table, part: nat, key: string)
    requires AllInPart(t, part) && Part(key) != part
    ensures Find(t, key) == None
  {
    if t != [] {
      NotInPart(t[1..], part, key);
    }
  }

  lemma CommonPart(t: Tunnel)
    ensures AllInPart(CommonPairs(t), 0)
  {
  }

  lemma KindPart(t: Tunnel)
    ensures AllInPart(KindPairs(t), 1)
  {
  }

  lemma SwitchPart(x: Extras)
    ensures AllInPart(SwitchPairs(x), 2)
  {
  }

  lemma LimitPart(x: Extras)
    ensures AllInPart(LimitPairs(x), 2)
  {
  }

  lemma TransportPart(x: Extras)
    ensures AllInPart(TransportPairs(x), 2)
  {
    SwitchPart(x);
    LimitPart(x);
  }

  lemma HealthPart(x: Extras)
    ensures AllInPart(HealthPairs(x), 3)
  {
  }

  lemma FindInProxy(r: Row, key: string)
    ensures Part(key) == 0 ==> Find(ProxyTable(r), key) == Find(CommonPairs(r.tunnel), key)
    ensures Part(key) == 1 ==> Find(ProxyTable(r), key) == Find(KindPairs(r.tunnel), key)
    ensures Part(key) == 2 ==> Find(ProxyTable(r), key) == Find(TransportPairs(r.extras), key)
    ensures Part(key) == 3 ==> Find(ProxyTable(r), key) == Find(HealthPairs(r.extras), key)
  {
    var a, b, c, d := CommonPairs(r.tunnel), KindPairs(r.tunnel), TransportPairs(r.extras), HealthPairs(r.extras);
    CommonPart(r.tunnel);
    KindPart(r.tunnel);
    TransportPart(r.extras);
    HealthPart(r.extras);
    FindInFourParts(a, b, c, d, key);
  }

  lemma FindInFourParts(a: Table, b: Table, c: Table, d: Table, key: string)
    requires AllInPart(a, 0) && AllInPart(b, 1) && AllInPart(c, 2) && AllInPart(d, 3)
    ensures Part(key) < 4 ==> Find(a + b + c + d, key) == Find([a, b, c, d][Part(key)], key)
  {
    FindInSum(a + b + c, d, key);
    FindInSum(a + b, c, key);
    FindInSum(a, b, key);
    if Part(key) != 0 { NotInPart(a, 0, key); }
    if Part(key) != 1 { NotInPart(b, 1, key); }
    if Part(key) != 2 { NotInPart(c, 2, key); }
    if Part(key) != 3 { NotInPart(d, 3, key); }
  }

  // ---------- the keys of one part ----------

  lemma FindInFour(k: string, v: Value, l: string, w: Value, m: string, x: Value, n: string, y: Value, key: string)
    ensures Find([(k, v)] + [(l, w)] + [(m, x)] + [(n, y)], key)
            == if k == key then Some(v) else if l == key then Some(w) else if m == key then Some(x)
               else if n == key then Some(y) else None
  {
    FindInSum([(k, v)] + [(l, w)] + [(m, x)], [(n, y)], key);
    FindInSum([(k, v)] + [(l, w)], [(m, x)], key);
    FindInSum([(k, v)], [(l, w)], key);
    FindInOne(k, v, key);
    FindInOne(l, w, key);
    FindInOne(m, x, key);
    FindInOne(n, y, key);
  }

  lemma FindInTwoMaybes(c: bool, k: string, v: Value, d: bool, l: string, w: Value, key: string)
    ensures Find(OneIf(c, k, v) + OneIf(d, l, w), key)
            == if c && k == key then Some(v) else if d && l == key then Some(w) else None
  {
    FindInSum(OneIf(c, k, v), OneIf(d, l, w), key);
    FindInMaybe(c, k, v, key);
    FindInMaybe(d, l, w, key);
  }

  lemma FindCommon(t: Tunnel, key: string)
    ensures Find(CommonPairs(t), key)
            == if "name" == key then Some(TStr(t.name)) else if "type" == key then Some(TStr(Lower(t.kind)))
               else if "localIP" == key then Some(TStr(LocalAddress(t)))
               else if "localPort" == key then Some(TInt(t.localPort)) else None
  {
    FindInFour("name", TStr(t.name), "type", TStr(Lower(t.kind)),
               "localIP", TStr(LocalAddress(t)), "localPort", TInt(t.localPort), key);
  }

  lemma FindDomains(t: Tunnel, key: string)
    requires HasDomains(t.kind)
    ensures Find(KindPairs(t), key)
            == if t.customDomains != [] && "customDomains" == key then Some(TList(ExportJson.Cleaned(t.customDomains)))
               else if t.subdomain != "" && "subdomain" == key then Some(TStr(t.subdomain)) else None
  {
    KindsAre(t.kind);
    KindsDiffer(t.kind);
    FindInTwoMaybes(t.customDomains != [], "customDomains", TList(ExportJson.Cleaned(t.customDomains)),
                    t.subdomain != "", "subdomain", TStr(t.subdomain), key);
  }

  lemma FindSecrets(t: Tunnel, key: string)
    requires HasSecret(t.kind)
    ensures Find(KindPairs(t), key)
            == if "secretKey" == key then Some(TStr(t.secretKey))
               else if SplitList(t.group) != [] && "allowUsers" == key then Some(TList(ExportJson.Cleaned(SplitList(t.group)))) else None
  {
    KindsAre(t.kind);
    KindsDiffer(t.kind);
    var users := TList(ExportJson.Cleaned(SplitList(t.group)));
    FindInSum([("secretKey", TStr(t.secretKey))], OneIf(SplitList(t.group) != [], "allowUsers", users), key);
    FindInOne("secretKey", TStr(t.secretKey), key);
    FindInMaybe(SplitList(t.group) != [], "allowUsers", users, key);
  }

  lemma FindPort(t: Tunnel, key: string)
    requires !HasDomains(t.kind) && !HasSecret(t.kind)
    ensures Find(KindPairs(t), key)
            == if HasPort(t.kind) && "remotePort" == key then Some(TInt(t.remotePort)) else None
  {
    KindsAre(t.kind);
    FindInOne("remotePort", TInt(t.remotePort), key);
  }

  lemma FindSwitches(x: Extras, key: string)
    ensures Find(SwitchPairs(x), key)
            == if x.useEncryption && "transport.useEncryption" == key then Some(TBool(true))
               else if x.useCompression && "transport.useCompression" == key then Some(TBool(true)) else None
  {
    FindInTwoMaybes(x.useEncryption, "transport.useEncryption", TBool(true),
                    x.useCompression, "transport.useCompression", TBool(true), key);
  }

  lemma FindLimits(x: Extras, key: string)
    ensures Find(LimitPairs(x), key)
            == if x.bandwidthLimit != "" && "transport.bandwidthLimit" == key then Some(TStr(x.bandwidthLimit))
               else if x.proxyProtocolVersion != "" && "transport.proxyProtocolVersion" == key then Some(TStr(x.proxyProtocolVersion))
               else None
  {
    FindInTwoMaybes(x.bandwidthLimit != "", "transport.bandwidthLimit", TStr(x.bandwidthLimit),
                    x.proxyProtocolVersion != "", "transport.proxyProtocolVersion", TStr(x.proxyProtocolVersion), key);
  }

  lemma FindHealth(x: Extras, key: string)
    requires x.healthCheckType != ""
    ensures Find(HealthPairs(x), key)
            == if "healthCheck.type" == key then Some(TStr(x.healthCheckType))
               else if x.healthCheckURL != "" && "healthCheck.path" == key then Some(TStr(x.healthCheckURL))
               else Find(HealthNumbers(x), key)
  {
    var a, b := [("healthCheck.type", TStr(x.healthCheckType))], OneIf(x.healthCheckURL != "", "healthCheck.path", TStr(x.healthCheckURL));
    FindInSum(a + b, HealthNumbers(x), key);
    FindInSum(a, b, key);
    FindInOne("healthCheck.type", TStr(x.healthCheckType), key);
    FindInMaybe(x.healthCheckURL != "", "healthCheck.path", TStr(x.healthCheckURL), key);
  }

  lemma FindNumbers(x: Extras, key: string)
    ensures Find(HealthNumbers(x), key)
            == if x.healthCheckInterval > 0 && "healthCheck.intervalSeconds" == key then Some(TInt(x.healthCheckInterval))
               else if x.healthCheckTimeout > 0 && "healthCheck.timeoutSeconds" == key then Some(TInt(x.healthCheckTimeout))
               else if x.healthCheckMaxFailed > 0 && "healthCheck.maxFailed" == key then Some(TInt(x.healthCheckMaxFailed))
               else None
  {
    var a := OneIf(x.healthCheckInterval > 0, "healthCheck.intervalSeconds", TInt(x.healthCheckInterval));
    var b := OneIf(x.healthCheckTimeout > 0, "healthCheck.timeoutSeconds", TInt(x.healthCheckTimeout));
    var c := OneIf(x.healthCheckMaxFailed > 0, "healthCheck.maxFailed", TInt(x.healthCheckMaxFailed));
    FindInSum(a + b, c, key);
    FindInTwoMaybes(x.healthCheckInterval > 0, "healthCheck.intervalSeconds", TInt(x.healthCheckInterval),
                    x.healthCheckTimeout > 0, "healthCheck.timeoutSeconds", TInt(x.healthCheckTimeout), key);
    FindInMaybe(x.healthCheckMaxFailed > 0, "healthCheck.maxFailed", TInt(x.healthCheckMaxFailed), key);
  }

  // ---------- what is read of one proxy ----------

  lemma NameReads(r: Row)
    ensures Str(Find(ProxyTable(r), "name")) == r.tunnel.name
  {
    CommonAt(r, "name");
  }

  lemma TypeReads(r: Row)
    ensures Str(Find(ProxyTable(r), "type")) == Lower(r.tunnel.kind)
  {
    CommonAt(r, "type");
    assert "name"[0] == 'n' && "type"[0] == 't';
  }

  lemma AddressReads(r: Row)
    ensures Str(Find(ProxyTable(r), "localIP")) == LocalAddress(r.tunnel) && Int(Find(ProxyTable(r), "localPort")) == r.tunnel.localPort
  {
    CommonAt(r, "localIP");
    CommonAt(r, "localPort");
    assert |"name"| == 4 && |"type"| == 4 && |"localIP"| == 7 && |"localPort"| == 9;
  }

  lemma CommonReads(r: Row)
    ensures var t, p := r.tunnel, ReadProxy(ProxyTable(r));
      p.name == t.name && p.kind == Lower(t.kind) && p.localIP == LocalAddress(t) && p.localPort == t.localPort
  {
    NameReads(r);
    TypeReads(r);
    AddressReads(r);
  }

  lemma CommonAt(r: Row, key: string)
    requires Part(key) == 0
    ensures Find(ProxyTable(r), key)
            == if "name" == key then Some(TStr(r.tunnel.name)) else if "type" == key then Some(TStr(Lower(r.tunnel.kind)))
               else if "localIP" == key then Some(TStr(LocalAddress(r.tunnel)))
               else if "localPort" == key then Some(TInt(r.tunnel.localPort)) else None
  {
    FindInProxy(r, key);
    FindCommon(r.tunnel, key);
  }

  predicate KindKeysDiffer(port: string, domains: string, sub: string, secret: string, users: string) {
    && port != domains && port != sub && port != secret && port != users && domains != sub && domains != secret
    && domains != users && sub != secret && sub != users && secret != users
  }

  lemma KindKeysAreApart()
    ensures KindKeysDiffer("remotePort", "customDomains", "subdomain", "secretKey", "allowUsers")
    ensures Part("remotePort") == Part("customDomains") == Part("subdomain") == Part("secretKey") == Part("allowUsers") == 1
  {
    assert "remotePort"[0] == 'r' && "customDomains"[0] == 'c' && "subdomain"[0] == 's' && "secretKey"[0] == 's' && "allowUsers"[0] == 'a';
    assert "subdomain"[1] != "secretKey"[1];
  }

  lemma PortReads(r: Row)
    requires !HasDomains(r.tunnel.kind) && !HasSecret(r.tunnel.kind)
    ensures var t, p := r.tunnel, ReadProxy(ProxyTable(r));
      && p.remotePort == (if HasPort(t.kind) then Some(t.remotePort) else None)
      && p.customDomains == [] && p.subdomain == "" && p.secretKey == None && p.allowUsers == []
  {
    KindKeysAreApart();
    FindInProxy(r, "remotePort"); FindPort(r.tunnel, "remotePort");
    FindInProxy(r, "customDomains"); FindPort(r.tunnel, "customDomains");
    FindInProxy(r, "subdomain"); FindPort(r.tunnel, "subdomain");
    FindInProxy(r, "secretKey"); FindPort(r.tunnel, "secretKey");
    FindInProxy(r, "allowUsers"); FindPort(r.tunnel, "allowUsers");
  }

  lemma DomainsRead(r: Row)
    requires HasDomains(r.tunnel.kind)
    ensures var t, p := r.tunnel, ReadProxy(ProxyTable(r));
      && p.customDomains == ExportJson.Cleaned(t.customDomains) && p.subdomain == t.subdomain
      && p.remotePort == None && p.secretKey == None && p.allowUsers == []
  {
    KindKeysAreApart();
    FindInProxy(r, "remotePort"); FindDomains(r.tunnel, "remotePort");
    FindInProxy(r, "customDomains"); FindDomains(r.tunnel, "customDomains");
    FindInProxy(r, "subdomain"); FindDomains(r.tunnel, "subdomain");
    FindInProxy(r, "secretKey"); FindDomains(r.tunnel, "secretKey");
    FindInProxy(r, "allowUsers"); FindDomains(r.tunnel, "allowUsers");
  }

  lemma SecretsRead(r: Row)
    requires HasSecret(r.tunnel.kind)
    ensures var t, p := r.tunnel, ReadProxy(ProxyTable(r));
      && p.secretKey == Some(t.secretKey) && p.allowUsers == ExportJson.Cleaned(SplitList(t.group))
      && p.remotePort == None && p.customDomains == [] && p.subdomain == ""
  {
    KindKeysAreApart();
    FindInProxy(r, "remotePort"); FindSecrets(r.tunnel, "remotePort");
    FindInProxy(r, "customDomains"); FindSecrets(r.tunnel, "customDomains");
    FindInProxy(r, "subdomain"); FindSecrets(r.tunnel, "subdomain");
    FindInProxy(r, "secretKey"); FindSecrets(r.tunnel, "secretKey");
    FindInProxy(r, "allowUsers"); FindSecrets(r.tunnel, "allowUsers");
  }

  lemma EncryptionReads(r: Row)
    ensures Bool(Find(ProxyTable(r), "transport.useEncryption")) == r.extras.useEncryption
  {
    FindTransport(r, "transport.useEncryption");
    SwitchKeys();
  }

  lemma CompressionReads(r: Row)
    ensures Bool(Find(ProxyTable(r), "transport.useCompression")) == r.extras.useCompression
  {
    FindTransport(r, "transport.useCompression");
    SwitchKeys();
  }

  lemma LimitReads(r: Row)
    ensures Str(Find(ProxyTable(r), "transport.bandwidthLimit")) == r.extras.bandwidthLimit
  {
    FindTransport(r, "transport.bandwidthLimit");
    SwitchKeys();
  }

  lemma VersionReads(r: Row)
    ensures Str(Find(ProxyTable(r), "transport.proxyProtocolVersion")) == r.extras.proxyProtocolVersion
  {
    FindTransport(r, "transport.proxyProtocolVersion");
    SwitchKeys();
  }

  lemma TransportReads(r: Row)
    ensures IsTransportOf(ReadTransport(ProxyTable(r)), r.extras)
  {
    EncryptionReads(r);
    CompressionReads(r);
    LimitReads(r);
    VersionReads(r);
  }

  lemma SwitchKeys()
    ensures var a, b, c, d := "transport.useEncryption", "transport.useCompression", "transport.bandwidthLimit", "transport.proxyProtocolVersion";
      a != b && a != c && a != d && b != c && b != d && c != d
  {
    var b, c := "transport.useCompression", "transport.bandwidthLimit";
    assert b[10] == 'u' && c[10] == 'b';
    assert |"transport.useEncryption"| == 23 && |b| == 24 && |c| == 24 && |"transport.proxyProtocolVersion"| == 30;
  }

  lemma FindTransport(r: Row, key: string)
    requires Part(key) == 2
    ensures Find(ProxyTable(r), key)
            == if r.extras.useEncryption && "transport.useEncryption" == key then Some(TBool(true))
               else if r.extras.useCompression && "transport.useCompression" == key then Some(TBool(true))
               else if r.extras.bandwidthLimit != "" && "transport.bandwidthLimit" == key then Some(TStr(r.extras.bandwidthLimit))
               else if r.extras.proxyProtocolVersion != "" && "transport.proxyProtocolVersion" == key
               then Some(TStr(r.extras.proxyProtocolVersion)) else None
  {
    FindInProxy(r, key);
    FindInSum(SwitchPairs(r.extras), LimitPairs(r.extras), key);
    FindSwitches(r.extras, key);
    FindLimits(r.extras, key);
  }

  lemma HealthKeysDiffer()
    ensures var a, b, c, d, e := "healthCheck.type", "healthCheck.path", "healthCheck.intervalSeconds",
                                 "healthCheck.timeoutSeconds", "healthCheck.maxFailed";
      a != b && a != c && a != d && a != e && b != c && b != d && b != e && c != d && c != e && d != e
  {
    var a, b := "healthCheck.type", "healthCheck.path";
    assert a[12] == 't' && b[12] == 'p' && |a| == 16 && |b| == 16;
    assert |"healthCheck.intervalSeconds"| == 27 && |"healthCheck.timeoutSeconds"| == 26 && |"healthCheck.maxFailed"| == 21;
  }

  lemma HealthAt(r: Row, key: string)
    requires Part(key) == 3
    ensures r.extras.healthCheckType == "" ==> Find(ProxyTable(r), key) == None
    ensures r.extras.healthCheckType != "" ==>
            Find(ProxyTable(r), key)
            == if "healthCheck.type" == key then Some(TStr(r.extras.healthCheckType))
               else if r.extras.healthCheckURL != "" && "healthCheck.path" == key then Some(TStr(r.extras.healthCheckURL))
               else if r.extras.healthCheckInterval > 0 && "healthCheck.intervalSeconds" == key then Some(TInt(r.extras.healthCheckInterval))
               else if r.extras.healthCheckTimeout > 0 && "healthCheck.timeoutSeconds" == key then Some(TInt(r.extras.healthCheckTimeout))
               else if r.extras.healthCheckMaxFailed > 0 && "healthCheck.maxFailed" == key then Some(TInt(r.extras.healthCheckMaxFailed))
               else None
  {
    FindInProxy(r, key);
    FindNumbers(r.extras, key);
    if r.extras.healthCheckType != "" { FindHealth(r.extras, key); }
  }

  lemma HealthReads(r: Row)
    ensures IsHealthOf(ReadHealth(ProxyTable(r)), r.extras)
  {
    HealthAt(r, "healthCheck.type");
    HealthAt(r, "healthCheck.path");
    HealthAt(r, "healthCheck.intervalSeconds");
    HealthAt(r, "healthCheck.timeoutSeconds");
    HealthAt(r, "healthCheck.maxFailed");
    HealthKeysDiffer();
  }

  // ---------- the users a secret tunnel allows ----------

  lemma RunStays(s: string, c: char, a: nat, b: nat)
    requires IsRun(s, a, b) && (b < |s| || Separates(c))
    ensures IsRun(s + [c], a, b) && (s + [c])[a..b] == s[a..b]
  {
  }

  lemma RunGrows(s: string, c: char, a: nat)
    requires IsRun(s, a, |s|) && !Separates(c)
    ensures IsRun(s + [c], a, |s| + 1) && (s + [c])[a..|s| + 1] == s[a..] + [c]
  {
  }

  lemma RunBegins(s: string, c: char)
    requires !Separates(c) && (s == "" || Separates(s[|s| - 1]))
    ensures IsRun(s + [c], |s|, |s| + 1) && (s + [c])[|s|..|s| + 1] == [c]
  {
  }

  lemma SeparatorNext(runs: seq<string>, s: string, from: seq<nat>, to: seq<nat>, c: char)
    requires RunsAt(runs, s, from, to) && Separates(c)
    ensures RunsAt(runs, s + [c], from, to)
  {
    forall k | 0 <= k < |runs| ensures IsRun(s + [c], from[k], to[k]) && runs[k] == (s + [c])[from[k]..to[k]] {
      RunStays(s, c, from[k], to[k]);
    }
  }

  lemma RunNext(runs: seq<string>, s: string, from: seq<nat>, to: seq<nat>, c: char)
    requires RunsAt(runs, s, from, to) && !Separates(c) && (s == "" || Separates(s[|s| - 1]))
    ensures RunsAt(runs + [[c]], s + [c], from + [|s|], to + [|s| + 1])
  {
    var n, all, from', to' := |s|, s + [c], from + [|s|], to + [|s| + 1];
    RunBegins(s, c);
    forall k | 0 <= k < |runs| ensures IsRun(all, from[k], to[k]) && runs[k] == all[from[k]..to[k]] {
      assert IsRun(s, from[k], to[k]);
      RunStays(s, c, from[k], to[k]);
    }
    forall i | 0 <= i < |all| && !Separates(all[i]) ensures InSome(i, from', to') {
      if i < n {
        assert all[i] == s[i];
        var k :| 0 <= k < |from| && from[k] <= i < to[k];
        assert from'[k] <= i < to'[k];
      } else {
        assert from'[|from|] <= i < to'[|from|];
      }
    }
  }

  lemma LastRun(runs: seq<string>, s: string, from: seq<nat>, to: seq<nat>)
    requires RunsAt(runs, s, from, to) && s != "" && !Separates(s[|s| - 1])
    ensures runs != [] && to[|runs| - 1] == |s|
  {
    assert InSome(|s| - 1, from, to);
    var k :| 0 <= k < |from| && from[k] <= |s| - 1 < to[k];
    assert IsRun(s, from[k], to[k]) && IsRun(s, from[|runs| - 1], to[|runs| - 1]);
  }

  lemma RunsInFront(runs: seq<string>, s: string, from: seq<nat>, to: seq<nat>, c: char, k: nat)
    requires RunsAt(runs, s, from, to) && k < |runs| - 1
    ensures IsRun(s + [c], from[k], to[k]) && runs[k] == (s + [c])[from[k]..to[k]]
  {
    assert IsRun(s, from[k], to[k]) && to[k] <= from[|runs| - 1] && IsRun(s, from[|runs| - 1], to[|runs| - 1]);
    RunStays(s, c, from[k], to[k]);
  }

  lemma LongerRun(runs: seq<string>, s: string, from: seq<nat>, to: seq<nat>, c: char)
    requires RunsAt(runs, s, from, to) && !Separates(c) && s != "" && !Separates(s[|s| - 1]) && runs != []
    ensures RunsAt(runs[..|runs| - 1] + [runs[|runs| - 1] + [c]], s + [c], from, to[..|runs| - 1] + [|s| + 1])
  {
    LastRun(runs, s, from, to);
    var n, m, all := |s|, |runs| - 1, s + [c];
    assert IsRun(s, from[m], n) && runs[m] == s[from[m]..];
    RunGrows(s, c, from[m]);
    forall k | 0 <= k < m ensures IsRun(all, from[k], to[k]) && runs[k] == all[from[k]..to[k]] {
      RunsInFront(runs, s, from, to, c, k);
    }
    forall i | 0 <= i < |all| && !Separates(all[i]) ensures InSome(i, from, to[..m] + [n + 1]) {
      if i < n { assert all[i] == s[i]; }
      StillInSome(i, from, to, m, n);
    }
  }

  lemma StillInSome(i: nat, from: seq<nat>, to: seq<nat>, m: nat, n: nat)
    requires |from| == |to| == m + 1 && to[m] == n && from[m] < n && i <= n && (i < n ==> InSome(i, from, to))
    ensures InSome(i, from, to[..m] + [n + 1])
  {
    var to' := to[..m] + [n + 1];
    if i < n {
      var k :| 0 <= k < |from| && from[k] <= i < to[k];
      assert from[k] <= i < to'[k];
    } else {
      assert from[m] <= i < to'[m];
    }
  }

  /** How one more character changes the fields. */
  lemma FieldsNext(front: string, c: char)
    ensures Fields(front + [c])
            == if Separates(c) then Fields(front)
               else if front == "" || Separates(front[|front| - 1]) || Fields(front) == [] then Fields(front) + [[c]]
               else Fields(front)[..|Fields(front)| - 1] + [Fields(front)[|Fields(front)| - 1] + [c]]
  {
    assert (front + [c])[..|front|] == front;
  }

  /** The fields of a string are its stretches without separators. */
  lemma {:induction false} FieldsAreRuns(s: string) returns (from: seq<nat>, to: seq<nat>)
    ensures RunsAt(Fields(s), s, from, to)
  {
    from, to := [], [];
    if s != "" {
      var n := |s| - 1;
      var front, c := s[..n], s[n];
      from, to := FieldsAreRuns(front);
      assert s == front + [c];
      FieldsNext(front, c);
      var f, t := from, to;
      from, to := OneMoreCharacter(Fields(front), front, f, t, c);
    }
  }

  lemma OneMoreCharacter(runs: seq<string>, s: string, from: seq<nat>, to: seq<nat>, c: char)
    returns (from': seq<nat>, to': seq<nat>)
    requires RunsAt(runs, s, from, to)
    ensures RunsAt(if Separates(c) then runs
                   else if s == "" || Separates(s[|s| - 1]) || runs == [] then runs + [[c]]
                   else runs[..|runs| - 1] + [runs[|runs| - 1] + [c]], s + [c], from', to')
  {
    if Separates(c) {
      SeparatorNext(runs, s, from, to, c);
      from', to' := from, to;
    } else if s == "" || Separates(s[|s| - 1]) {
      RunNext(runs, s, from, to, c);
      from', to' := from + [|s|], to + [|s| + 1];
    } else {
      LastRun(runs, s, from, to);
      LongerRun(runs, s, from, to, c);
      from', to' := from, to[..|to| - 1] + [|s| + 1];
    }
  }

  lemma UsersAre(group: string)
    ensures AreUsers(ExportJson.Cleaned(SplitList(group)), group)
  {
    var from, to := FieldsAreRuns(group);
    CleanedTwice(Fields(group));
    CleanedAreTrimmed(Fields(group));
  }

  lemma ProxyIsRead(r: Row)
    ensures IsProxyOf(ReadProxy(ProxyTable(r)), r)
  {
    var t := r.tunnel;
    KindsDiffer(t.kind);
    CommonReads(r);
    TransportReads(r);
    HealthReads(r);
    if HasDomains(t.kind) {
      DomainsRead(r);
      CleanedAreTrimmed(t.customDomains);
    } else if HasSecret(t.kind) {
      SecretsRead(r);
      UsersAre(t.group);
    } else {
      PortReads(r);
    }
  }

  // ---------- the settings ----------

  /** The three parts of the settings are told apart in the same way. */
  function Section(key: string): nat {
    if key == "" then 3
    else if key[0] == 's' || key[0] == 'u' then 0
    else if key[0] == 'a' then 1
    else if key[0] == 't' || key[0] == 'l' then 2
    else 3
  }

  predicate AllInSection(t: Table, section: nat) { forall i | 0 <= i < |t| :: Section(t[i].0) == section }

  lemma {:induction false} NotInSection(t: Table, section: nat, key: string)
    requires AllInSection(t, section) && Section(key) != section
    ensures Find(t, key) == None
  {
    if t != [] {
      NotInSection(t[1..], section, key);
    }
  }

  lemma ConnectionSection(opt: Options)
    ensures AllInSection(ConnectionPairs(opt), 0)
  {
  }

  lemma AuthSection(opt: Options)
    ensures AllInSection(AuthPairs(opt), 1)
  {
  }

  lemma SessionSection(opt: Options)
    ensures AllInSection(SessionPairs(opt), 2)
  {
  }

  lemma FindInSettings(opt: Options, key: string)
    ensures Section(key) == 0 ==> Find(Settings(opt), key) == Find(ConnectionPairs(opt), key)
    ensures Section(key) == 1 ==> Find(Settings(opt), key) == Find(AuthPairs(opt), key)
    ensures Section(key) == 2 ==> Find(Settings(opt), key) == Find(SessionPairs(opt), key)
  {
    ConnectionSection(opt);
    AuthSection(opt);
    SessionSection(opt);
    FindInThreeSections(ConnectionPairs(opt), AuthPairs(opt), SessionPairs(opt), key);
  }

  lemma FindInThreeSections(a: Table, b: Table, c: Table, key: string)
    requires AllInSection(a, 0) && AllInSection(b, 1) && AllInSection(c, 2)
    ensures Section(key) < 3 ==> Find(a + b + c, key) == Find([a, b, c][Section(key)], key)
  {
    FindInSum(a + b, c, key);
    FindInSum(a, b, key);
    if Section(key) != 0 { NotInSection(a, 0, key); }
    if Section(key) != 1 { NotInSection(b, 1, key); }
    if Section(key) != 2 { NotInSection(c, 2, key); }
  }

  lemma FindConnection(opt: Options, key: string)
    ensures Find(ConnectionPairs(opt), key)
            == if "serverAddr" == key then Some(TStr(opt.serverAddr)) else if "serverPort" == key then Some(TInt(opt.serverPort))
               else if opt.user != "" && "user" == key then Some(TStr(opt.user)) else None
  {
    var a, b := [("serverAddr", TStr(opt.serverAddr))], [("serverPort", TInt(opt.serverPort))];
    FindInSum(a + b, OneIf(opt.user != "", "user", TStr(opt.user)), key);
    FindInSum(a, b, key);
    FindInOne("serverAddr", TStr(opt.serverAddr), key);
    FindInOne("serverPort", TInt(opt.serverPort), key);
    FindInMaybe(opt.user != "", "user", TStr(opt.user), key);
  }

  lemma FindSession(opt: Options, key: string)
    ensures Find(SessionPairs(opt), key)
            == if opt.protocol != "" && opt.protocol != "tcp" && "transport.protocol" == key then Some(TStr(opt.protocol))
               else if "transport.tls.enable" == key then Some(TBool(opt.tls))
               else if opt.logLevel != "" && "log.level" == key then Some(TStr(opt.logLevel))
               else if "log.to" == key then Some(TStr("console")) else None
  {
    var a := OneIf(opt.protocol != "" && opt.protocol != "tcp", "transport.protocol", TStr(opt.protocol));
    var b, c := [("transport.tls.enable", TBool(opt.tls))], OneIf(opt.logLevel != "", "log.level", TStr(opt.logLevel));
    FindInSum(a + b + c, [("log.to", TStr("console"))], key);
    FindInSum(a + b, c, key);
    FindInSum(a, b, key);
    FindInMaybe(opt.protocol != "" && opt.protocol != "tcp", "transport.protocol", TStr(opt.protocol), key);
    FindInOne("transport.tls.enable", TBool(opt.tls), key);
    FindInMaybe(opt.logLevel != "", "log.level", TStr(opt.logLevel), key);
    FindInOne("log.to", TStr("console"), key);
  }

  lemma ConnectionReads(opt: Options)
    ensures Str(Find(Settings(opt), "serverAddr")) == opt.serverAddr && Int(Find(Settings(opt), "serverPort")) == opt.serverPort
    ensures Str(Find(Settings(opt), "user")) == opt.user
  {
    FindInSettings(opt, "serverAddr"); FindConnection(opt, "serverAddr");
    FindInSettings(opt, "serverPort"); FindConnection(opt, "serverPort");
    FindInSettings(opt, "user"); FindConnection(opt, "user");
    assert "serverAddr"[6] != "serverPort"[6] && "user"[0] == 'u' && "serverAddr"[0] == 's' && "serverPort"[0] == 's';
  }

  lemma AuthReads(opt: Options)
    ensures Str(Find(Settings(opt), "auth.method")) == (if opt.token == "" then "" else "token")
    ensures Str(Find(Settings(opt), "auth.token")) == opt.token
  {
    FindInSettings(opt, "auth.method");
    FindInTwoMaybes(opt.token != "", "auth.method", TStr("token"), opt.token != "", "auth.token", TStr(opt.token), "auth.method");
    FindInSettings(opt, "auth.token");
    FindInTwoMaybes(opt.token != "", "auth.method", TStr("token"), opt.token != "", "auth.token", TStr(opt.token), "auth.token");
    assert |"auth.method"| == 11 && |"auth.token"| == 10;
  }

  lemma SessionReads(opt: Options)
    ensures Str(Find(Settings(opt), "transport.protocol")) == (if opt.protocol == "tcp" then "" else opt.protocol)
    ensures Bool(Find(Settings(opt), "transport.tls.enable")) == opt.tls
    ensures Str(Find(Settings(opt), "log.level")) == opt.logLevel && Str(Find(Settings(opt), "log.to")) == "console"
  {
    FindInSettings(opt, "transport.protocol"); FindSession(opt, "transport.protocol");
    FindInSettings(opt, "transport.tls.enable"); FindSession(opt, "transport.tls.enable");
    FindInSettings(opt, "log.level"); FindSession(opt, "log.level");
    FindInSettings(opt, "log.to"); FindSession(opt, "log.to");
    assert |"transport.protocol"| == 18 && |"transport.tls.enable"| == 20 && |"log.level"| == 9 && |"log.to"| == 6;
  }

  // ---------- which tables can be printed ----------

  lemma CleanIsPrintable(s: string)
    ensures Clean(s) <==> TomlPrintable(s)
  {
    assert forall c: char :: TomlPrintableChar(c) <==> c == '\n' || c == '\t' || (c >= ' ' && c != '\U{7F}');
  }

  lemma AllCleanIsPrintable(items: seq<string>)
    ensures AllClean(items) <==> AllTomlPrintable(items)
  {
    forall i | 0 <= i < |items| ensures Clean(items[i]) <==> TomlPrintable(items[i]) {
      CleanIsPrintable(items[i]);
    }
  }

  predicate CleanValue(v: Value) {
    match v
    case TStr(s) => Clean(s)
    case TList(items) => AllClean(items)
    case _ => true
  }

  lemma ValueIsPrintable(v: Value)
    ensures CleanValue(v) <==> ValueTomlPrintable(v)
  {
    match v
    case TStr(s) => CleanIsPrintable(s);
    case TList(items) => AllCleanIsPrintable(items);
    case _ =>
  }

  lemma PrintableSum(a: Table, b: Table)
    ensures TablePrintable(a + b) <==> TablePrintable(a) && TablePrintable(b)
  {
    var t := a + b;
    assert (forall i | 0 <= i < |a| :: t[i] == a[i]) && forall i | 0 <= i < |b| :: t[|a| + i] == b[i];
  }

  lemma PrintableOne(k: string, v: Value)
    ensures TablePrintable([(k, v)]) <==> CleanValue(v)
  {
    ValueIsPrintable(v);
    assert [(k, v)][0] == (k, v);
  }

  lemma PrintableMaybe(c: bool, k: string, v: Value)
    ensures TablePrintable(OneIf(c, k, v)) <==> (c ==> CleanValue(v))
  {
    PrintableOne(k, v);
  }

  lemma PrintableTwoMaybes(c: bool, k: string, v: Value, d: bool, l: string, w: Value)
    ensures TablePrintable(OneIf(c, k, v) + OneIf(d, l, w)) <==> (c ==> CleanValue(v)) && (d ==> CleanValue(w))
  {
    PrintableSum(OneIf(c, k, v), OneIf(d, l, w));
    PrintableMaybe(c, k, v);
    PrintableMaybe(d, l, w);
  }

  lemma PrintableFour(k: string, v: Value, l: string, w: Value, m: string, x: Value, n: string, y: Value)
    ensures TablePrintable([(k, v)] + [(l, w)] + [(m, x)] + [(n, y)])
            <==> CleanValue(v) && CleanValue(w) && CleanValue(x) && CleanValue(y)
  {
    PrintableSum([(k, v)] + [(l, w)] + [(m, x)], [(n, y)]);
    PrintableSum([(k, v)] + [(l, w)], [(m, x)]);
    PrintableSum([(k, v)], [(l, w)]);
    PrintableOne(k, v);
    PrintableOne(l, w);
    PrintableOne(m, x);
    PrintableOne(n, y);
  }

  lemma CommonPrintable(t: Tunnel)
    ensures TablePrintable(CommonPairs(t)) <==> Clean(t.name) && Clean(Lower(t.kind)) && Clean(LocalAddress(t))
  {
    PrintableFour("name", TStr(t.name), "type", TStr(Lower(t.kind)), "localIP", TStr(LocalAddress(t)), "localPort", TInt(t.localPort));
  }

  lemma DomainsPrintable(t: Tunnel)
    requires HasDomains(t.kind)
    ensures TablePrintable(KindPairs(t)) <==> AllClean(ExportJson.Cleaned(t.customDomains)) && Clean(t.subdomain)
  {
    KindsAre(t.kind);
    KindsDiffer(t.kind);
    PrintableTwoMaybes(t.customDomains != [], "customDomains", TList(ExportJson.Cleaned(t.customDomains)),
                       t.subdomain != "", "subdomain", TStr(t.subdomain));
  }

  lemma SecretsPrintable(t: Tunnel)
    requires HasSecret(t.kind)
    ensures TablePrintable(KindPairs(t)) <==> Clean(t.secretKey) && AllClean(ExportJson.Cleaned(SplitList(t.group)))
  {
    KindsAre(t.kind);
    KindsDiffer(t.kind);
    var users := TList(ExportJson.Cleaned(SplitList(t.group)));
    PrintableSum([("secretKey", TStr(t.secretKey))], OneIf(SplitList(t.group) != [], "allowUsers", users));
    PrintableOne("secretKey", TStr(t.secretKey));
    PrintableMaybe(SplitList(t.group) != [], "allowUsers", users);
  }

  lemma PortPrintable(t: Tunnel)
    requires !HasDomains(t.kind) && !HasSecret(t.kind)
    ensures TablePrintable(KindPairs(t))
  {
    KindsAre(t.kind);
  }

  lemma KindPrintable(r: Row)
    ensures var p := ReadProxy(ProxyTable(r));
      TablePrintable(KindPairs(r.tunnel))
      <==> AllClean(p.customDomains) && Clean(p.subdomain) && (p.secretKey.Some? ==> Clean(p.secretKey.value)) && AllClean(p.allowUsers)
  {
    KindsDiffer(r.tunnel.kind);
    if HasDomains(r.tunnel.kind) {
      DomainsRead(r);
      DomainsPrintable(r.tunnel);
    } else if HasSecret(r.tunnel.kind) {
      SecretsRead(r);
      SecretsPrintable(r.tunnel);
    } else {
      PortReads(r);
      PortPrintable(r.tunnel);
    }
  }

  lemma TransportPrintable(x: Extras)
    ensures TablePrintable(TransportPairs(x)) <==> Clean(x.bandwidthLimit) && Clean(x.proxyProtocolVersion)
  {
    PrintableSum(SwitchPairs(x), LimitPairs(x));
    PrintableTwoMaybes(x.useEncryption, "transport.useEncryption", TBool(true),
                       x.useCompression, "transport.useCompression", TBool(true));
    PrintableTwoMaybes(x.bandwidthLimit != "", "transport.bandwidthLimit", TStr(x.bandwidthLimit),
                       x.proxyProtocolVersion != "", "transport.proxyProtocolVersion", TStr(x.proxyProtocolVersion));
  }

  lemma NumbersPrintable(x: Extras)
    ensures TablePrintable(HealthNumbers(x))
  {
  }

  lemma HealthPrintable(x: Extras)
    ensures TablePrintable(HealthPairs(x)) <==> x.healthCheckType == "" || (Clean(x.healthCheckType) && Clean(x.healthCheckURL))
  {
    if x.healthCheckType != "" {
      var a, b := [("healthCheck.type", TStr(x.healthCheckType))], OneIf(x.healthCheckURL != "", "healthCheck.path", TStr(x.healthCheckURL));
      PrintableSum(a + b, HealthNumbers(x));
      PrintableSum(a, b);
      PrintableOne("healthCheck.type", TStr(x.healthCheckType));
      PrintableMaybe(x.healthCheckURL != "", "healthCheck.path", TStr(x.healthCheckURL));
      NumbersPrintable(x);
    }
  }

  lemma ProxyPrintable(r: Row)
    ensures TablePrintable(ProxyTable(r)) <==> CleanProxy(ReadProxy(ProxyTable(r)))
  {
    var a, b, c, d := CommonPairs(r.tunnel), KindPairs(r.tunnel), TransportPairs(r.extras), HealthPairs(r.extras);
    PrintableSum(a + b + c, d);
    PrintableSum(a + b, c);
    PrintableSum(a, b);
    CommonPrintable(r.tunnel);
    CommonReads(r);
    KindPrintable(r);
    TransportPrintable(r.extras);
    TransportReads(r);
    HealthPrintable(r.extras);
    HealthReads(r);
  }

  lemma SettingsPrintable(opt: Options)
    ensures TablePrintable(Settings(opt))
            <==> Clean(opt.serverAddr) && Clean(opt.user) && Clean(opt.token) && Clean(opt.protocol) && Clean(opt.logLevel)
  {
    PrintableSum(ConnectionPairs(opt) + AuthPairs(opt), SessionPairs(opt));
    PrintableSum(ConnectionPairs(opt), AuthPairs(opt));
    ConnectionPrintable(opt);
    PrintableTwoMaybes(opt.token != "", "auth.method", TStr("token"), opt.token != "", "auth.token", TStr(opt.token));
    SessionPrintable(opt);
  }

  lemma ConnectionPrintable(opt: Options)
    ensures TablePrintable(ConnectionPairs(opt)) <==> Clean(opt.serverAddr) && Clean(opt.user)
  {
    var a, b := [("serverAddr", TStr(opt.serverAddr))], [("serverPort", TInt(opt.serverPort))];
    PrintableSum(a + b, OneIf(opt.user != "", "user", TStr(opt.user)));
    PrintableSum(a, b);
    PrintableOne("serverAddr", TStr(opt.serverAddr));
    PrintableOne("serverPort", TInt(opt.serverPort));
    PrintableMaybe(opt.user != "", "user", TStr(opt.user));
  }

  lemma SessionPrintable(opt: Options)
    ensures TablePrintable(SessionPairs(opt)) <==> Clean(opt.protocol) && Clean(opt.logLevel)
  {
    var a := OneIf(opt.protocol != "" && opt.protocol != "tcp", "transport.protocol", TStr(opt.protocol));
    var b, c := [("transport.tls.enable", TBool(opt.tls))], OneIf(opt.logLevel != "", "log.level", TStr(opt.logLevel));
    PrintableSum(a + b + c, [("log.to", TStr("console"))]);
    PrintableSum(a + b, c);
    PrintableSum(a, b);
    PrintableMaybe(opt.protocol != "" && opt.protocol != "tcp", "transport.protocol", TStr(opt.protocol));
    PrintableOne("transport.tls.enable", TBool(opt.tls));
    PrintableMaybe(opt.logLevel != "", "log.level", TStr(opt.logLevel));
    PrintableOne("log.to", TStr("console"));
    assert Clean("tcp");
  }

  // ---------- the export ----------

  lemma TableAt(rows: seq<Row>, i: nat)
    requires i < |rows|
    ensures |Proxies(rows)| == |rows| && Proxies(rows)[i] == ProxyTable(rows[i])
  {
  }

  lemma ProxyAt(settings: Table, proxies: seq<Table>, i: nat)
    requires i < |proxies|
    ensures |ReadConfig(settings, proxies).proxies| == |proxies| && ReadConfig(settings, proxies).proxies[i] == ReadProxy(proxies[i])
  {
  }

  lemma ProxiesAreRead(rows: seq<Row>, opt: Options)
    ensures var ps := ReadConfig(Settings(opt), Proxies(rows)).proxies;
      && |ps| == |rows| && (forall i | 0 <= i < |rows| :: IsProxyOf(ps[i], rows[i]))
      && (AllPrintable(Proxies(rows)) <==> forall i | 0 <= i < |ps| :: CleanProxy(ps[i]))
  {
    var tables, ps := Proxies(rows), ReadConfig(Settings(opt), Proxies(rows)).proxies;
    assert |ps| == |tables| == |rows|;
    forall i | 0 <= i < |rows| ensures IsProxyOf(ps[i], rows[i]) && (TablePrintable(tables[i]) <==> CleanProxy(ps[i])) {
      TableAt(rows, i);
      ProxyAt(Settings(opt), tables, i);
      ProxyIsRead(rows[i]);
      ProxyPrintable(rows[i]);
    }
  }

  lemma SettingsAreRead(opt: Options, proxies: seq<Table>)
    ensures var c := ReadConfig(Settings(opt), proxies);
      SettingsOf(c, opt) && (TablePrintable(Settings(opt)) <==> CleanSettings(c))
  {
    ConnectionReads(opt);
    AuthReads(opt);
    SessionReads(opt);
    SettingsPrintable(opt);
    if opt.protocol == "tcp" { assert Clean(opt.protocol); }
  }

  lemma TextIsRead(settings: Table, proxies: seq<Table>, text: string)
    requires ReadTables(text) == Some([settings] + proxies)
    ensures Read(text) == Some(ReadConfig(settings, proxies))
  {
    var all := [settings] + proxies;
    assert all[0] == settings && all[1..] == proxies;
  }

  /**
   * A reader of the exported text recovers the settings and one proxy per tunnel, in order and field by field;
   * unless some string to be recovered holds a control character the text cannot carry: then it recovers nothing.
   */
  lemma TomlExportReadsBack(rows: seq<Row>, opt: Options) returns (c: Config)
    ensures IsConfigOf(c, rows, opt)
    ensures Read(ExportText(rows, opt)) == if CleanConfig(c) then Some(c) else None
  {
    c := ReadConfig(Settings(opt), Proxies(rows));
    SettingsAreRead(opt, Proxies(rows));
    ProxiesAreRead(rows, opt);
    TomlReadsBack(rows, opt);
    if CleanConfig(c) {
      TextIsRead(Settings(opt), Proxies(rows), ExportText(rows, opt));
    }
  }
}
