/** What each row of the panel shows, field by field, in terms of the dashboard record and the client's own report. */
module MergeRows {
  import opened Text
  import opened Model
  import opened MergeStats
  import opened Snapshot

  // ---------- a row and the proxy it shows ----------

  /** The figures of the dashboard. */
  ghost predicate ShowsFigures(row: Tunnel, st: ProxyStatus) {
    row.status == st.status && row.curConns == st.curConns && row.todayIn == st.todayIn && row.todayOut == st.todayOut
  }

  /** What the panel configured stands; what it left open is filled in from the kernel. */
  ghost predicate ShowsDefinition(row: Tunnel, own: Tunnel, st: ProxyStatus) {
    && row.localIP == (if own.localIP != "" then own.localIP else st.localIP)
    && row.localPort == (if own.localPort != 0 then own.localPort else st.localPort)
    && row.remotePort == (if own.remotePort != 0 then own.remotePort else st.remotePort)
    && row.customDomains == (if own.customDomains != [] then own.customDomains else st.customDomains)
    && row.subdomain == (if own.subdomain != "" then own.subdomain else st.subdomain)
  }

  /** The address to dial: the port of a tcp or udp proxy; of any other its first domain, or else its subdomain. */
  ghost predicate ShowsAddress(row: Tunnel) {
    if Lower(row.kind) == "tcp" || Lower(row.kind) == "udp" then
      if row.remotePort == 0 then row.remoteAddr == ""
      else |row.remoteAddr| > 1 && row.remoteAddr[0] == ':' && row.remoteAddr[1..] == Itoa(row.remotePort)
    else if row.customDomains != [] then row.remoteAddr == row.customDomains[0]
    else row.remoteAddr == row.subdomain
  }

  ghost predicate SameTunnel(row: Tunnel, own: Tunnel) {
    && row.id == own.id && row.instanceID == own.instanceID && row.name == own.name && row.kind == own.kind
    && row.enabled == own.enabled && row.external == own.external && row.secretKey == own.secretKey
    && row.group == own.group && row.note == own.note && row.err == own.err
    && row.createdAt == own.createdAt && row.updatedAt == own.updatedAt
  }

  /** A row of the panel shows the figures of the proxy it claimed and stays what it was otherwise. */
  lemma ClaimedRowShows(tunnels: seq<Tunnel>, stats: Stats, out: seq<Tunnel>, tr: Trace, i: nat)
    requires IsMerge(tunnels, stats, out, tr) && i < |tunnels|
    ensures if tr.claims[i].None? then out[i] == tunnels[i] else
              var k := tr.claims[i].value;
              && k in stats && ShowsFigures(out[i], stats[k]) && ShowsDefinition(out[i], tunnels[i], stats[k])
              && ShowsAddress(out[i]) && SameTunnel(out[i], tunnels[i])
  {
    if tr.claims[i].Some? {
      var row := out[i];
      if row.remotePort != 0 { assert (":" + Itoa(row.remotePort))[1..] == Itoa(row.remotePort); }
    }
  }

  /** The row of a proxy nobody claimed: read-only, enabled, its name without the user's, and everything from the kernel. */
  lemma ExternalRowShows(tunnels: seq<Tunnel>, stats: Stats, out: seq<Tunnel>, tr: Trace, j: nat)
    requires IsMerge(tunnels, stats, out, tr) && j < |tr.rest|
    ensures var k, row := tr.rest[j], out[|tunnels| + j];
      && k in stats
      && var st := stats[k];
      && ShowsFigures(row, st) && ShowsAddress(row) && row.external && row.enabled && row.note == st.note
      && row.id == (if st.ycfrpID != "" then st.ycfrpID else "kernel:" + k)
      && (if st.user != "" && HasPrefix(k, st.user + ".") then st.user + "." + row.name == k else row.name == k)
      && row.kind == (if st.kind != "" then st.kind else st.confKind)
      && row.localIP == st.localIP && row.localPort == st.localPort && row.remotePort == st.remotePort
      && row.customDomains == st.customDomains && row.subdomain == st.subdomain
      && row.instanceID == "" && row.secretKey == "" && row.group == "" && row.err == ""
  {
    var k, row := tr.rest[j], out[|tunnels| + j];
    var st := stats[k];
    if row.remotePort != 0 { assert (":" + Itoa(row.remotePort))[1..] == Itoa(row.remotePort); }
    if st.user != "" && HasPrefix(k, st.user + ".") {
      assert (st.user + ".") + k[|st.user| + 1..] == k;
    }
  }

  // ---------- which of several servers is believed ----------

  ghost predicate Online(p: ProxyStatus) { p.status == "online" }

  /**
   * Of the records of one name an online one is kept rather than another, then one that carries the panel's
   * metadata, then the first.
   */
  lemma FoldBelieves(dashboards: seq<Stats>, stats: Stats, name: string) returns (i: nat)
    requires IsFold(dashboards, stats) && name in stats
    ensures i < |dashboards| && name in dashboards[i] && stats[name] == dashboards[i][name]
    ensures forall j | 0 <= j < |dashboards| && name in dashboards[j] ::
              var kept, other := stats[name], dashboards[j][name];
              && (Online(other) ==> Online(kept))
              && (Online(other) == Online(kept) && other.ycfrpID != "" ==> kept.ycfrpID != "")
              && (Online(other) == Online(kept) && (other.ycfrpID != "" <==> kept.ycfrpID != "") ==> i <= j)
  {
    var b :| FirstBest(dashboards, name, b) && stats[name] == dashboards[b][name];
    i := b;
  }

  // ---------- what a client's own report makes of a row ----------

  /** The panel's word for a phase: running is online; blank stays blank; the two known troubles keep their name. */
  ghost predicate IsWordFor(word: string, phase: string) {
    var p := Lower(Trim(phase));
    if p == "running" then word == "online"
    else if p == "" || p == "start error" || p == "check failed" then word == p
    else word == phase
  }

  /** A row as the client that carries it reports it: an error shows unless the row is online; else a blank status is filled. */
  ghost predicate ShowsReport(row: Tunnel, was: Tunnel, r: Report) {
    && (if r.err != "" then row.err == r.err && row.status == (if was.status == "online" then "online" else "start error")
        else row.err == was.err && if was.status != "" then row.status == was.status else IsWordFor(row.status, r.phase))
    && row.remoteAddr == (if was.remoteAddr != "" then was.remoteAddr else r.remoteAddr)
  }

  /** A row without a status: nobody reported on it. */
  ghost predicate ShowsAbsence(row: Tunnel, was: Tunnel) {
    if was.status != "" then row.status == was.status
    else row.status == if was.external || was.enabled then "offline" else "not running"
  }

  ghost predicate Reports(c: Client, t: Tunnel) { c.instanceID == t.instanceID && t.name in c.reports }

  lemma {:induction false} NobodyReports(t: Tunnel, clients: seq<Client>)
    requires forall k | 0 <= k < |clients| :: !Reports(clients[k], t)
    ensures FillAll(t, clients) == t
  {
    if clients != [] {
      NobodyReports(t, clients[..|clients| - 1]);
    }
  }

  lemma OneFill(t: Tunnel, c: Client)
    requires Reports(c, t)
    ensures ShowsReport(FillRow(t, c), t, c.reports[t.name])
  {
  }

  lemma {:induction false} OneReports(t: Tunnel, clients: seq<Client>, k: nat)
    requires k < |clients| && Reports(clients[k], t)
    requires forall j | 0 <= j < |clients| && j != k :: clients[j].instanceID != t.instanceID
    ensures ShowsReport(FillAll(t, clients), t, clients[k].reports[t.name])
  {
    var n := |clients| - 1;
    if k == n {
      NobodyReports(t, clients[..n]);
      OneFill(t, clients[n]);
    } else {
      OneReports(t, clients[..n], k);
      FillingIsSound(t, clients[..n]);
    }
  }

  /** Reports reach the status, the error and the address, and nothing else. */
  lemma {:induction false} OnlyThreeFields(t: Tunnel, clients: seq<Client>)
    ensures var u := FillAll(t, clients); u == t.(status := u.status, err := u.err, remoteAddr := u.remoteAddr)
  {
    if clients != [] {
      OnlyThreeFields(t, clients[..|clients| - 1]);
    }
  }

  /** A row no running client reports on keeps what the dashboards said, or is called offline or not running. */
  lemma UnreportedRowShows(t: Tunnel, clients: seq<Client>)
    requires forall k | 0 <= k < |clients| :: !Reports(clients[k], t)
    ensures ShowsAbsence(FinalRow(t, clients), t) && FinalRow(t, clients) == t.(status := FinalRow(t, clients).status)
  {
    NobodyReports(t, clients);
  }

  /** A row its one client reports on shows that report; a status still blank is then filled as if nobody had reported. */
  lemma ReportedRowShows(t: Tunnel, clients: seq<Client>, k: nat) returns (filled: Tunnel)
    requires k < |clients| && Reports(clients[k], t)
    requires forall j | 0 <= j < |clients| && j != k :: clients[j].instanceID != t.instanceID
    ensures ShowsReport(filled, t, clients[k].reports[t.name]) && ShowsAbsence(FinalRow(t, clients), filled)
    ensures FinalRow(t, clients) == filled.(status := FinalRow(t, clients).status)
    ensures filled == t.(status := filled.status, err := filled.err, remoteAddr := filled.remoteAddr)
  {
    filled := FillAll(t, clients);
    OnlyThreeFields(t, clients);
    OneReports(t, clients, k);
    FillingIsSound(t, clients);
  }
}
