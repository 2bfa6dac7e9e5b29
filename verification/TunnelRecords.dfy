/** The requests about tunnels and imports, told of the fields: what is accepted, and what each record looks like afterwards. */
module TunnelRecords {
  import opened Text
  import opened Model
  import opened Store
  import opened InstanceRules
  import opened InstanceConflicts
  import opened ImportRules
  import opened Panel
  import opened TunnelRequests

  // ---------- which tunnels are accepted ----------

  /** Each type needs something else: a remote port, a domain or a secret; and a local port unless it has a secret. */
  ghost predicate HasWhatItNeeds(kind: string, t: Tunnel) {
    || ((kind == "tcp" || kind == "udp") && 1 <= t.remotePort <= 65535 && 1 <= t.localPort <= 65535)
    || ((kind == "http" || kind == "https" || kind == "tcpmux")
        && (t.customDomains != [] || Trim(t.subdomain) != "") && 1 <= t.localPort <= 65535)
    || ((kind == "stcp" || kind == "xtcp" || kind == "sudp") && Trim(t.secretKey) != "")
  }

  ghost predicate NameInUse(tunnels: Tunnels, owner: string, name: string, selfID: string) {
    exists id :: id in tunnels && id != selfID && tunnels[id].instanceID == owner && tunnels[id].name == name
  }

  lemma TypesDiffer(kind: string)
    ensures TakesRemotePort(kind) ==> !TakesDomains(kind) && !TakesSecret(kind)
    ensures TakesDomains(kind) ==> !TakesSecret(kind)
  {
    if TakesRemotePort(kind) {
      assert |kind| == 3;
    } else if TakesDomains(kind) {
      assert kind[0] == 'h' || |kind| == 6;
    } else if TakesSecret(kind) {
      assert |kind| == 4 && (kind[0] == 's' || kind[0] == 'x');
    }
  }

  lemma WellFormedExactlyWhen(t: Tunnel)
    ensures WellFormedTunnel(t) <==> t.name != "" && HasWhatItNeeds(t.kind, t)
  {
    TypesDiffer(t.kind);
  }

  /** The tunnel made of a request: name and type cleaned up, a blank id replaced, the owner settled, the rest as given. */
  lemma AcceptedExactlyWhen(m: Instances, tunnels: Tunnels, t: Tunnel, newID: string, selfID: string, v: Tunnel)
    ensures Accepts(m, tunnels, t, newID, selfID, v) <==>
            && v == t.(name := Trim(t.name), kind := Lower(Trim(t.kind)), id := v.id, instanceID := v.instanceID)
            && v.id == (if t.id == "" then newID else t.id)
            && v.name != "" && HasWhatItNeeds(v.kind, t)
            && Carries(m, t.instanceID, v.instanceID) && !NameInUse(tunnels, v.instanceID, v.name, selfID)
  {
    WellFormedExactlyWhen(TunnelRequests.Cleaned(t, newID));
  }

  /** A request is turned down for its name, for what its type needs, for want of a client, or for a name in use there. */
  lemma RejectedExactlyWhen(m: Instances, tunnels: Tunnels, t: Tunnel, newID: string, selfID: string)
    ensures Rejects(m, tunnels, t, newID, selfID) <==>
            || Trim(t.name) == "" || !HasWhatItNeeds(Lower(Trim(t.kind)), t)
            || forall owner :: Carries(m, t.instanceID, owner) ==> NameInUse(tunnels, owner, Trim(t.name), selfID)
  {
    var made := t.(name := Trim(t.name), kind := Lower(Trim(t.kind)), id := if t.id == "" then newID else t.id);
    forall owner ensures Accepts(m, tunnels, t, newID, selfID, made.(instanceID := owner)) <==>
      Trim(t.name) != "" && HasWhatItNeeds(Lower(Trim(t.kind)), t)
      && Carries(m, t.instanceID, owner) && !NameInUse(tunnels, owner, Trim(t.name), selfID)
    {
      AcceptedExactlyWhen(m, tunnels, t, newID, selfID, made.(instanceID := owner));
    }
    forall v | Accepts(m, tunnels, t, newID, selfID, v) ensures v == made.(instanceID := v.instanceID) {
      AcceptedExactlyWhen(m, tunnels, t, newID, selfID, v);
    }
  }

  // ---------- the records the requests leave ----------

  /** A stored tunnel is the one accepted, with its times. */
  lemma StoredTunnel(m: Instances, before: Tunnels, after: Tunnels, t: Tunnel, newID: string, selfID: string,
                     now: int, later: int, v: Tunnel)
    requires PutsThis(m, before, after, t, newID, selfID, now, later, v)
    ensures after.Keys == before.Keys + {v.id} && forall id | id in before && id != v.id :: after[id] == before[id]
    ensures after[v.id] == v.(createdAt := after[v.id].createdAt, updatedAt := later)
    ensures after[v.id].createdAt == (if v.id in before && before[v.id].createdAt != 0 then before[v.id].createdAt
                                      else if v.id !in before && now != 0 then now else t.createdAt)
  {
  }

  /** Switching a tunnel turns its one flag and notes the time. */
  lemma SwitchedTunnel(tunnels: Tunnels, id: string, later: int)
    requires id in tunnels && tunnels[id].id == id
    ensures TUNNELS.stamp(tunnels[id].(enabled := !tunnels[id].enabled), id, tunnels[id].createdAt, later)
            == tunnels[id].(enabled := !tunnels[id].enabled, updatedAt := later)
  {
  }

  /** An imported row is the parsed tunnel under its new id and its owner, with its times. */
  lemma ImportedRow(before: Tunnels, acc: seq<Tunnel>, target: string, ids: nat -> string, clock: Clock, n: nat)
    requires FreshIds(ids, before) && n < |acc|
    ensures ids(n) in Imports(before, acc, target, ids, clock)
    ensures var row := Imports(before, acc, target, ids, clock)[ids(n)];
      && row == acc[n].(id := ids(n), instanceID := target, createdAt := row.createdAt, updatedAt := clock.later(n))
      && row.createdAt == (if clock.now(n) != 0 then clock.now(n) else acc[n].createdAt)
  {
    ImportsAddRows(before, acc, target, ids, clock);
  }

  // ---------- pasted settings ----------

  /** What a pasted configuration makes of a client: a setting that is there replaces the old one, and TLS always does. */
  ghost predicate AdoptedFrom(c: ClientConfig, was: ClientConfig, common: ParsedCommon) {
    && c.serverAddr == (if Trim(common.serverAddr) == "" then was.serverAddr else common.serverAddr)
    && c.serverPort == (if common.serverPort <= 0 then was.serverPort else common.serverPort)
    && c.token == (if common.token == "" then was.token else common.token)
    && c.user == (if common.user == "" then was.user else common.user)
    && c.transportTLS == common.tls
    && c.transportProto == (if common.protocol == "" then was.transportProto else common.protocol)
    && c.logLevel == (if common.logLevel == "" then was.logLevel else common.logLevel)
    && c.enable == was.enable && c.loginFailExit == was.loginFailExit && c.logMaxDays == was.logMaxDays
    && c.useEncryption == was.useEncryption && c.useCompression == was.useCompression
  }

  lemma AdoptedClient(c: ClientConfig, common: ParsedCommon)
    ensures AdoptedFrom(WithCommon(c, common), c, common)
  {
  }

  /** An import that adopts the pasted settings leaves the instance with them. */
  lemma AdoptedRecord(m: Instances, id: string, common: ParsedCommon, later: int)
    requires id in m && m[id].id == id && Updates(m, id, Adoption(common))
    ensures var after := Updated(m, id, Adoption(common), later);
      && after.Keys == m.Keys && (forall o | o in m && o != id :: after[o] == m[o]) && EditedAs(m[id], after[id], later)
      && after[id].server == m[id].server && AdoptedFrom(after[id].client, m[id].client, common)
  {
    EditedRecord(m, id, Adoption(common), later);
    AdoptedClient(m[id].client, common);
  }
}
