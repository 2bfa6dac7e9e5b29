/** What the panel does to its two collections before it serves anything: migration, token repair, adoption. */
module Startup {
  import opened Text
  import opened Model
  import opened Store
  import opened InstanceRules
  import opened Panel
  import opened Removals

  const NAME_OF_SERVER := "服务端"
  const NAME_OF_CLIENT := "客户端"

  // ---------- migration of the single-instance configuration ----------

  datatype OldConfig = OldConfig(frps: ServerConfig, frpc: ClientConfig)

  predicate Blank(s: string) { Trim(s) == "" }

  predicate TokensAgree(server: Instance, client: Instance) {
    Blank(server.server.token) == Blank(client.client.token)
  }

  /** The old configuration shows that somebody used it. */
  predicate InUse(cfg: OldConfig, hasTunnels: bool) {
    && (cfg.frps.enable || cfg.frpc.enable || hasTunnels)
    && (hasTunnels || !Blank(cfg.frps.token) || !Blank(cfg.frpc.token))
  }

  /** The instances the old configuration turns into; a token on one side only goes to both. */
  function MigratedServer(cfg: OldConfig, id: string): Instance {
    var token := if Blank(cfg.frps.token) && !Blank(cfg.frpc.token) then Trim(cfg.frpc.token) else cfg.frps.token;
    Instance(id, NAME_OF_SERVER, KIND_SERVER, "", cfg.frps.(token := token), NO_CLIENT_SETTINGS, 0, 0)
  }

  function MigratedClient(cfg: OldConfig, id: string): Instance {
    var token := if Blank(cfg.frpc.token) && !Blank(cfg.frps.token) then Trim(cfg.frps.token) else cfg.frpc.token;
    Instance(id, NAME_OF_CLIENT, KIND_CLIENT, "", NO_SERVER, cfg.frpc.(token := token), 0, 0)
  }

  lemma MigratedTokensAgree(cfg: OldConfig, serverID: string, clientID: string)
    ensures TokensAgree(MigratedServer(cfg, serverID), MigratedClient(cfg, clientID))
  {
    TrimIdempotent(cfg.frps.token);
    TrimIdempotent(cfg.frpc.token);
  }

  /** A server and a client, each if it is wanted. */
  ghost function Both(wantServer: bool, server: Instance, wantClient: bool, client: Instance, now: int, later: int): Instances {
    var first := if wantServer then map[server.id := INSTANCES.stamp(server, server.id, now, later)] else map[];
    if wantClient then first[client.id := INSTANCES.stamp(client, client.id, now, later)] else first
  }

  /** What the migration leaves; `first` is the number of its first write.
      When the server cannot be written, there is no client. */
  ghost function Migrated(cfg: OldConfig, hasTunnels: bool, serverID: string, clientID: string, now: int, later: int,
                          writable: nat -> bool, first: nat): Instances {
    var used := InUse(cfg, hasTunnels);
    Both(used && cfg.frps.enable, MigratedServer(cfg, serverID),
         used && cfg.frpc.enable && (cfg.frps.enable ==> Goes(writable, first)), MigratedClient(cfg, clientID), now, later)
  }

  /** The writes the migration makes all go through. */
  ghost predicate MigrationGoes(cfg: OldConfig, hasTunnels: bool, writable: nat -> bool, first: nat) {
    InUse(cfg, hasTunnels) ==>
      && (cfg.frps.enable ==> Goes(writable, first))
      && (cfg.frpc.enable ==> Goes(writable, if cfg.frps.enable then first + 1 else first))
  }

  method MigrateInstances(coll: Collection<Instance>, cfg: OldConfig, hasTunnels: bool,
                          serverID: string, clientID: string, now: int, later: int)
    returns (err: Option<string>)
    requires coll.Valid() && coll.entity == INSTANCES && coll.items == map[]
    requires serverID != "" && clientID != "" && serverID != clientID
    modifies coll
    ensures coll.Valid() && NoConflicts(coll.items) && KindsKnown(coll.items)
    ensures coll.items == Migrated(cfg, hasTunnels, serverID, clientID, now, later, coll.writable, old(coll.flushes))
    ensures err.None? <==> MigrationGoes(cfg, hasTunnels, coll.writable, old(coll.flushes))
  {
    err := None;
    if !cfg.frps.enable && !cfg.frpc.enable && !hasTunnels {
      return;
    }
    if !hasTunnels && Blank(cfg.frps.token) && Blank(cfg.frpc.token) {
      return;
    }
    err := CreateMigrated(coll, cfg.frps.enable, MigratedServer(cfg, serverID),
                         cfg.frpc.enable, MigratedClient(cfg, clientID), now, later);
  }

  /** The writing part of the migration: the server first, then the client, up to the first write that fails. */
  method CreateMigrated(coll: Collection<Instance>, wantServer: bool, server: Instance, wantClient: bool, client: Instance,
                        now: int, later: int)
    returns (err: Option<string>)
    requires coll.Valid() && coll.entity == INSTANCES && coll.items == map[]
    requires server.kind == KIND_SERVER && client.kind == KIND_CLIENT
    requires server.id != "" && client.id != "" && server.id != client.id
    modifies coll
    ensures coll.Valid() && NoConflicts(coll.items) && KindsKnown(coll.items)
    ensures coll.items == Both(wantServer, server, wantClient && (wantServer ==> Goes(coll.writable, old(coll.flushes))), client, now, later)
    ensures err.None? <==> (wantServer ==> Goes(coll.writable, old(coll.flushes)))
                           && (wantClient ==> Goes(coll.writable, if wantServer then old(coll.flushes) + 1 else old(coll.flushes)))
  {
    err := None;
    KindsAreNormal();
    if wantServer {
      err := PutFirstOfKind(coll, server, now, later);
      if err.Some? {
        return;
      }
    }
    if wantClient {
      err := PutFirstOfKind(coll, client, now, later);
    }
  }

  /** An instance of a kind no other has cannot clash. */
  method PutFirstOfKind(coll: Collection<Instance>, i: Instance, now: int, later: int) returns (err: Option<string>)
    requires coll.Valid() && coll.entity == INSTANCES && NoConflicts(coll.items)
    requires i.id != "" && i.id !in coll.items && forall id | id in coll.items :: coll.items[id].kind != i.kind
    modifies coll
    ensures coll.Valid() && NoConflicts(coll.items) && coll.flushes == old(coll.flushes) + 1
    ensures coll.items == old(coll.items)[i.id := INSTANCES.stamp(i, i.id, now, later)]
    ensures err.None? <==> Goes(coll.writable, old(coll.flushes))
  {
    assert INSTANCES.id(i) == i.id;
    StoringKeepsNoConflicts(coll.items, i.id, INSTANCES.stamp(i, i.id, now, later));
    var r := coll.Put(i, now, later);
    err := if r.Failed? then Some(r.reason) else None;
  }

  // ---------- token repair ----------

  /** The first instance of a collection that is, or is not, a server. */
  ghost predicate IsFirstOf(m: Instances, server: bool, id: string) {
    && id in m && m[id].IsServer() == server
    && forall o | o in m && m[o].IsServer() == server && o != id :: Below(id, o)
  }

  /** The first server and the first client, in one pass over the list. */
  method FirstOfEachKind(coll: Collection<Instance>) returns (server: Option<Instance>, client: Option<Instance>)
    requires coll.Valid() && coll.entity == INSTANCES
    ensures server.Some? ==> IsFirstOf(coll.items, true, server.value.id) && coll.items[server.value.id] == server.value
    ensures client.Some? ==> IsFirstOf(coll.items, false, client.value.id) && coll.items[client.value.id] == client.value
    ensures server.None? ==> forall id | id in coll.items :: !coll.items[id].IsServer()
    ensures client.None? ==> forall id | id in coll.items :: coll.items[id].IsServer()
  {
    server, client := None, None;
    var list := coll.List();
    for i := 0 to |list|
      invariant server == FirstAmong(list, i, true) && client == FirstAmong(list, i, false)
    {
      if list[i].IsServer() {
        if server.None? {
          server := Some(list[i]);
        }
      } else if client.None? {
        client := Some(list[i]);
      }
    }
    FirstInListing(coll.items, list, true);
    FirstInListing(coll.items, list, false);
  }

  /** The first of the first n listed instances that is, or is not, a server. */
  ghost function FirstAmong(list: seq<Instance>, n: nat, server: bool): Option<Instance>
    requires n <= |list|
  {
    if n == 0 then None
    else if FirstAmong(list, n - 1, server).Some? then FirstAmong(list, n - 1, server)
    else if list[n - 1].IsServer() == server then Some(list[n - 1]) else None
  }

  lemma {:induction false} FirstPlace(list: seq<Instance>, n: nat, server: bool) returns (k: nat)
    requires n <= |list|
    ensures k <= n && forall j | 0 <= j < k :: list[j].IsServer() != server
    ensures match FirstAmong(list, n, server)
            case Some(x) => k < n && list[k] == x && x.IsServer() == server
            case None => k == n
  {
    k := 0;
    if n != 0 {
      k := FirstPlace(list, n - 1, server);
      if FirstAmong(list, n, server).None? {
        k := n;
      }
    }
  }

  lemma FirstInListing(m: Instances, list: seq<Instance>, server: bool)
    requires IsListing(INSTANCES, m, list)
    ensures match FirstAmong(list, |list|, server)
            case Some(x) => IsFirstOf(m, server, x.id) && m[x.id] == x
            case None => forall id | id in m :: m[id].IsServer() != server
  {
    var k := FirstPlace(list, |list|, server);
    var first := FirstAmong(list, |list|, server);
    if first.Some? {
      assert INSTANCES.id(list[k]) == first.value.id;
    }
    forall o | o in m && m[o].IsServer() == server && (first.Some? ==> o != first.value.id)
      ensures first.Some? && Below(first.value.id, o)
    {
      var j :| 0 <= j < |list| && INSTANCES.id(list[j]) == o;
      assert list[j] == m[o] && j > k;
      Earlier(INSTANCES, m, list, k, j);
    }
  }

  /** Fields that play no part in conflicts. */
  ghost predicate SameForConflicts(a: Instance, b: Instance) {
    && a.name == b.name && a.kind == b.kind && a.Enabled() == b.Enabled() && Ports(a) == Ports(b)
  }

  /** The same instances, with the same names, kinds, switches and ports. */
  ghost predicate Repaired(before: Instances, after: Instances) {
    && after.Keys == before.Keys
    && (forall id | id in after :: SameForConflicts(after[id], before[id]))
    && forall id | id in after && after[id] != before[id] :: IsFirstOf(before, true, id) || IsFirstOf(before, false, id)
  }

  ghost predicate FirstsAgree(m: Instances) {
    forall s, c | IsFirstOf(m, true, s) && IsFirstOf(m, false, c) :: TokensAgree(m[s], m[c])
  }

  /** A record without an id cannot be stored. */
  ghost function Rewritten(m: Instances, i: Instance, later: int): Instances {
    if i.id == "" then m else m[i.id := i.(updatedAt := later)]
  }

  /** When exactly one of the two has a token, the other one gets it. */
  ghost function Agreed(m: Instances, s: Instance, c: Instance, later: int): Instances {
    if !Blank(s.server.token) && Blank(c.client.token) then Rewritten(m, c.(client := c.client.(token := s.server.token)), later)
    else if Blank(s.server.token) && !Blank(c.client.token) then Rewritten(m, s.(server := s.server.(token := c.client.token)), later)
    else m
  }

  /** The first server and the first client are made to agree; if one of them is missing, nothing changes. */
  ghost predicate IsFixed(before: Instances, after: Instances, later: int) {
    && (forall s, c | IsFirstOf(before, true, s) && IsFirstOf(before, false, c) ::
          after == Agreed(before, before[s], before[c], later))
    && ((forall id | id in before :: !before[id].IsServer()) || (forall id | id in before :: before[id].IsServer()) ==>
          after == before)
  }

  lemma RewritingRepairs(m: Instances, i: Instance, later: int)
    requires i.id in m && SameForConflicts(m[i.id], i)
    requires IsFirstOf(m, true, i.id) || IsFirstOf(m, false, i.id)
    ensures Repaired(m, Rewritten(m, i, later))
    ensures forall s, id :: IsFirstOf(Rewritten(m, i, later), s, id) <==> IsFirstOf(m, s, id)
  {
    var m' := Rewritten(m, i, later);
    assert forall o | o in m :: m'[o].IsServer() == m[o].IsServer();
  }

  lemma AgreeingRepairs(m: Instances, s: string, c: string, later: int)
    requires IsFirstOf(m, true, s) && IsFirstOf(m, false, c) && m[s].id == s && m[c].id == c
    ensures var m' := Agreed(m, m[s], m[c], later);
      && Repaired(m, m') && IsFirstOf(m', true, s) && IsFirstOf(m', false, c)
      && ("" !in m ==> TokensAgree(m'[s], m'[c]))
  {
    var server, client := m[s], m[c];
    if !Blank(server.server.token) && Blank(client.client.token) {
      RewritingRepairs(m, client.(client := client.client.(token := server.server.token)), later);
    } else if Blank(server.server.token) && !Blank(client.client.token) {
      RewritingRepairs(m, server.(server := server.server.(token := client.client.token)), later);
    }
  }

  /** Repaired instances are in conflict exactly as they were before. */
  lemma RepairKeeps(before: Instances, after: Instances)
    requires Repaired(before, after)
    ensures NoConflicts(before) ==> NoConflicts(after)
    ensures KindsKnown(before) ==> KindsKnown(after)
  {
    if NoConflicts(before) {
      forall a, b | a in after && b in after && a != b ensures !Clash(after[a], after[b]) {
        assert !Clash(before[a], before[b]);
      }
    }
  }

  lemma FirstPairDecides(m: Instances, s: string, c: string)
    requires IsFirstOf(m, true, s) && IsFirstOf(m, false, c) && TokensAgree(m[s], m[c])
    ensures FirstsAgree(m)
  {
    FirstsAreOne(m, s, c);
  }

  /** What the repair of the tokens keeps, and what it achieves. */
  lemma FixingRepairs(before: Instances, after: Instances, later: int)
    requires IsFixed(before, after, later) && Keyed(INSTANCES, before)
    ensures Repaired(before, after) && (NoConflicts(before) ==> NoConflicts(after)) && (KindsKnown(before) ==> KindsKnown(after))
    ensures "" !in before ==> FirstsAgree(after)
  {
    if s, c :| IsFirstOf(before, true, s) && IsFirstOf(before, false, c) {
      assert INSTANCES.id(before[s]) == before[s].id && INSTANCES.id(before[c]) == before[c].id;
      AgreeingRepairs(before, s, c, later);
      if "" !in before { FirstPairDecides(after, s, c); }
    } else {
      NoPair(before);
    }
    RepairKeeps(before, after);
  }

  /** Where there is no first server or no first client, there is none at all. */
  lemma NoPair(m: Instances)
    requires !exists s, c :: IsFirstOf(m, true, s) && IsFirstOf(m, false, c)
    ensures (forall id | id in m :: !m[id].IsServer()) || forall id | id in m :: m[id].IsServer()
  {
    if s, c :| s in m && m[s].IsServer() && c in m && !m[c].IsServer() {
      PairExists(m, s, c);
    }
  }

  lemma PairExists(m: Instances, a: string, b: string)
    requires a in m && m[a].IsServer() && b in m && !m[b].IsServer()
    ensures exists s, c :: IsFirstOf(m, true, s) && IsFirstOf(m, false, c)
  {
    var s := FirstExists(m, true, a);
    var c := FirstExists(m, false, b);
    assert IsFirstOf(m, true, s) && IsFirstOf(m, false, c);
  }

  lemma FirstExists(m: Instances, server: bool, some: string) returns (first: string)
    requires some in m && m[some].IsServer() == server
    ensures IsFirstOf(m, server, first)
  {
    var ids := set id | id in m && m[id].IsServer() == server;
    assert some in ids;
    LeastKeyExists(ids);
    first :| first in ids && forall o | o in ids :: AtMost(first, o);
    forall o | o in m && m[o].IsServer() == server && o != first ensures Below(first, o) {
      assert o in ids;
    }
  }

  /** Copies the token of the first server to the first client, or the other way round, when exactly one has one. */
  method FixTokenConsistency(coll: Collection<Instance>, now: int, later: int)
    requires coll.Valid() && coll.entity == INSTANCES
    modifies coll
    ensures coll.Valid() && IsFixed(old(coll.items), coll.items, later)
    ensures NoConflicts(old(coll.items)) ==> NoConflicts(coll.items)
    ensures KindsKnown(old(coll.items)) ==> KindsKnown(coll.items)
    ensures "" !in old(coll.items) ==> FirstsAgree(coll.items)
  {
    ghost var before := coll.items;
    var server, client := FirstOfEachKind(coll);
    if server.Some? && client.Some? {
      FirstsAreOne(before, server.value.id, client.value.id);
      MakeAgree(coll, server.value, client.value, now, later);
    }
    FixingRepairs(before, coll.items, later);
  }

  method MakeAgree(coll: Collection<Instance>, s: Instance, c: Instance, now: int, later: int)
    requires coll.Valid() && coll.entity == INSTANCES
    requires s.id in coll.items && coll.items[s.id] == s && c.id in coll.items && coll.items[c.id] == c
    modifies coll
    ensures coll.Valid() && coll.items == Agreed(old(coll.items), s, c, later)
  {
    if !Blank(s.server.token) && Blank(c.client.token) {
      Rewrite(coll, c.(client := c.client.(token := s.server.token)), now, later);
    } else if Blank(s.server.token) && !Blank(c.client.token) {
      Rewrite(coll, s.(server := s.server.(token := c.client.token)), now, later);
    }
  }

  method Rewrite(coll: Collection<Instance>, fixed: Instance, now: int, later: int)
    requires coll.Valid() && coll.entity == INSTANCES
    requires fixed.id in coll.items && coll.items[fixed.id].createdAt == fixed.createdAt
    modifies coll
    ensures coll.Valid() && coll.items == Rewritten(old(coll.items), fixed, later)
  {
    assert INSTANCES.id(fixed) == fixed.id;
    var r := coll.Put(fixed, now, later);
  }

  lemma FirstsAreOne(m: Instances, s: string, c: string)
    requires IsFirstOf(m, true, s) && IsFirstOf(m, false, c)
    ensures forall o :: IsFirstOf(m, true, o) <==> o == s
    ensures forall o :: IsFirstOf(m, false, o) <==> o == c
  {
    forall o | o != s && o != c ensures !IsFirstOf(m, true, o) && !IsFirstOf(m, false, o) {
      if IsFirstOf(m, true, o) { AtMostAntisymmetric(o, s); }
      if IsFirstOf(m, false, o) { AtMostAntisymmetric(o, c); }
    }
  }

  // ---------- adoption of tunnels without an owner ----------

  /** The tunnels after those of `ids` that named no owner were given to `client`. */
  ghost function Adopted(before: Tunnels, ids: set<string>, client: string, later: int): Tunnels {
    map id | id in before ::
      if id in ids && Blank(before[id].instanceID)
      then before[id].(instanceID := client, updatedAt := later) else before[id]
  }

  /** Would the tunnel be the client's after the adoption? */
  predicate GoesTo(t: Tunnel, client: string) {
    Blank(t.instanceID) || t.instanceID == client
  }

  /** Adoption gives every tunnel an owner and takes none away. */
  lemma AdoptionKeepsOwners(m: Instances, before: Tunnels, ids: set<string>, client: string, later: int)
    requires OwnersExist(m, before) && client in m
    ensures OwnersExist(m, Adopted(before, ids, client, later))
    ensures ids == before.Keys && !Blank(client) ==>
              forall id | id in before :: !Blank(Adopted(before, ids, client, later)[id].instanceID)
  {
  }

  /** It can double a name, and does so exactly when two tunnels that will be the client's share one. */
  lemma AdoptionKeepsNames(before: Tunnels, client: string, later: int)
    requires NamesDistinct(before)
    ensures NamesDistinct(Adopted(before, before.Keys, client, later)) <==>
            forall a, b | a in before && b in before && a != b && GoesTo(before[a], client) && GoesTo(before[b], client) ::
              before[a].name != before[b].name
  {
    var after := Adopted(before, before.Keys, client, later);
    forall a | a in before ensures GoesTo(before[a], client) ==> after[a].instanceID == client && after[a].name == before[a].name {
    }
    if NamesDistinct(after) {
      forall a, b | a in before && b in before && a != b && GoesTo(before[a], client) && GoesTo(before[b], client)
        ensures before[a].name != before[b].name
      {
        assert a in after && b in after;
      }
    }
  }

  /** An orphan and a tunnel of the client with one name: before the adoption they may stand side by side, afterwards not. */
  lemma AdoptionDoublesAName(client: string, later: int) returns (before: Tunnels)
    requires !Blank(client)
    ensures NamesDistinct(before) && !NamesDistinct(Adopted(before, before.Keys, client, later))
  {
    var orphan := BLANK_TUNNEL.(id := "a", name := "ssh");
    before := map["a" := orphan, "b" := orphan.(id := "b", instanceID := client)];
    assert GoesTo(before["a"], client) && GoesTo(before["b"], client) && before["a"].name == before["b"].name;
    AdoptionKeepsNames(before, client, later);
  }

  // ---------- the orphans, in the order they are adopted ----------

  const IS_ORPHAN: Tunnel -> bool := (t: Tunnel) => Blank(t.instanceID)

  ghost predicate AreOrphanIDs(tunnels: Tunnels, ids: set<string>) {
    forall id :: id in ids <==> id in tunnels && Blank(tunnels[id].instanceID)
  }

  ghost function OrphanIDs(tunnels: Tunnels): (ids: set<string>)
    ensures AreOrphanIDs(tunnels, ids)
  {
    set id | id in tunnels && Blank(tunnels[id].instanceID)
  }

  lemma OrphansExist(tunnels: Tunnels) returns (ids: set<string>)
    ensures AreOrphanIDs(tunnels, ids)
  {
    ids := OrphanIDs(tunnels);
  }

  ghost predicate AllBelow(part: set<string>, b: string) {
    forall a | a in part :: Below(a, b)
  }

  /** The smallest of some ids. */
  ghost predicate IsLowerPart(part: set<string>, ids: set<string>) {
    part <= ids && forall b | b in ids && b !in part :: AllBelow(part, b)
  }

  ghost predicate AdoptionGoes(orphans: set<string>, writable: nat -> bool, first: nat) {
    "" !in orphans && NextWritesGo(writable, first, |orphans|)
  }

  /** The smallest orphans were given an owner: all of them, or those up to the first write that failed.
      An orphan without an id comes first and stops it at once. */
  ghost predicate IsAdoption(orphans: set<string>, ids: set<string>, writable: nat -> bool, first: nat, done: bool) {
    && IsLowerPart(ids, orphans)
    && (done <==> AdoptionGoes(orphans, writable, first))
    && (done ==> ids == orphans)
    && (!done && "" in orphans ==> ids == {})
    && (!done && "" !in orphans ==>
          ids != {} && NextWritesGo(writable, first, |ids| - 1) && !NextWritesGo(writable, first, |ids|))
  }

  /** The ids in increasing order. */
  ghost predicate InOrder(keys: seq<string>, ids: set<string>) {
    && (forall id | id in ids :: id in keys)
    && (forall i | 0 <= i < |keys| :: keys[i] in ids)
    && forall i, j | 0 <= i < j < |keys| :: Below(keys[i], keys[j])
  }

  lemma InOrderIsDistinct(keys: seq<string>, ids: set<string>)
    requires InOrder(keys, ids)
    ensures DistinctIn(keys, ids)
  {
  }

  /** Only the first id may be blank. */
  lemma BlankComesFirst(keys: seq<string>, ids: set<string>)
    requires InOrder(keys, ids)
    ensures "" in ids <==> keys != [] && keys[0] == ""
    ensures forall i | 0 < i < |keys| :: keys[i] != ""
  {
    forall i | 0 < i < |keys| ensures keys[i] != "" {
      assert Below(keys[0], keys[i]);
    }
  }

  /** The first n ids are the smallest n. */
  lemma FirstAreLower(keys: seq<string>, ids: set<string>, n: nat)
    requires InOrder(keys, ids) && n <= |keys|
    ensures IsLowerPart(FirstKeys(keys, n), ids) && |FirstKeys(keys, n)| == n
  {
    var part := FirstKeys(keys, n);
    InOrderIsDistinct(keys, ids);
    FirstKeysCount(keys, n, ids);
    forall b | b in ids && b !in part ensures AllBelow(part, b) {
      var j :| 0 <= j < |keys| && keys[j] == b;
      if j < n { AmongFirst(keys, n, j); }
      forall a | a in part ensures Below(a, b) {
        var i :| 0 <= i < |keys| && keys[i] == a;
        if i >= n { NotAmongFirst(keys, n, a); }
      }
    }
  }

  /** The first n orphans had an id and were written. */
  ghost predicate Went(keys: seq<string>, n: nat, writable: nat -> bool, first: nat)
    requires n <= |keys|
  {
    n == 0 || (Went(keys, n - 1, writable, first) && keys[n - 1] != "" && Goes(writable, first + n - 1))
  }

  lemma WentNext(keys: seq<string>, n: nat, writable: nat -> bool, first: nat, id: string, at: nat)
    requires n < |keys| && Went(keys, n, writable, first) && keys[n] == id && at == first + n
    ensures Went(keys, n + 1, writable, first) <==> id != "" && Goes(writable, at)
  {
  }

  lemma {:induction false} WentMeans(keys: seq<string>, n: nat, writable: nat -> bool, first: nat)
    requires n <= |keys|
    ensures Went(keys, n, writable, first) <==> (forall i | 0 <= i < n :: keys[i] != "") && NextWritesGo(writable, first, n)
  {
    if n != 0 {
      WentMeans(keys, n - 1, writable, first);
      if NextWritesGo(writable, first, n) { FewerWrites(writable, first, n - 1, n); }
      if NextWritesGo(writable, first, n - 1) { NextWrite(writable, first, n - 1, first + n - 1); }
    }
  }

  /** Those of the first n that have an id. */
  ghost function Served(keys: seq<string>, n: nat): set<string>
    requires n <= |keys|
  {
    FirstKeys(keys, n) - {""}
  }

  lemma BlankIsNotServed(keys: seq<string>, n: nat)
    requires n <= |keys| && forall i | 0 <= i < n :: keys[i] != ""
    ensures Served(keys, n) == FirstKeys(keys, n)
  {
    NotAmongFirst(keys, n, "");
  }

  lemma Finished(keys: seq<string>, orphans: set<string>, writable: nat -> bool, first: nat)
    requires InOrder(keys, orphans) && Went(keys, |keys|, writable, first)
    ensures IsAdoption(orphans, Served(keys, |keys|), writable, first, true)
  {
    WentMeans(keys, |keys|, writable, first);
    BlankComesFirst(keys, orphans);
    BlankIsNotServed(keys, |keys|);
    InOrderIsDistinct(keys, orphans);
    AllKeys(keys, orphans);
    FirstKeysCount(keys, |keys|, orphans);
  }

  /** The adoption ended at the i-th orphan. */
  lemma Stopped(keys: seq<string>, orphans: set<string>, writable: nat -> bool, first: nat, i: nat)
    requires InOrder(keys, orphans) && i < |keys| && Went(keys, i, writable, first) && !Went(keys, i + 1, writable, first)
    ensures IsAdoption(orphans, Served(keys, i + 1), writable, first, false)
  {
    WentMeans(keys, i, writable, first);
    BlankComesFirst(keys, orphans);
    if keys[i] == "" {
      assert FirstKeys(keys, 1) == FirstKeys(keys, 0) + {""};
    } else {
      StoppedByAWrite(keys, orphans, writable, first, i);
    }
  }

  lemma StoppedByAWrite(keys: seq<string>, orphans: set<string>, writable: nat -> bool, first: nat, i: nat)
    requires InOrder(keys, orphans) && i < |keys| && "" !in orphans
    requires NextWritesGo(writable, first, i) && !Goes(writable, first + i)
    ensures IsAdoption(orphans, Served(keys, i + 1), writable, first, false)
  {
    FirstAreLower(keys, orphans, i + 1);
    BlankIsNotServed(keys, i + 1);
    NextWrite(writable, first, i, first + i);
    InOrderIsDistinct(keys, orphans);
    AllKeys(keys, orphans);
    FirstKeysCount(keys, |keys|, orphans);
    if NextWritesGo(writable, first, |orphans|) { FewerWrites(writable, first, i + 1, |orphans|); }
  }

  lemma Ended(keys: seq<string>, orphans: set<string>, writable: nat -> bool, first: nat, n: nat, done: bool)
    requires InOrder(keys, orphans) && n <= |keys|
    requires done ==> n == |keys| && Went(keys, n, writable, first)
    requires !done ==> 0 < n && Went(keys, n - 1, writable, first) && !Went(keys, n, writable, first)
    ensures IsAdoption(orphans, Served(keys, n), writable, first, done)
  {
    if done {
      Finished(keys, orphans, writable, first);
    } else {
      Stopped(keys, orphans, writable, first, n - 1);
    }
  }

  // ---------- one turn after the other ----------

  ghost predicate AreOrphans(before: Tunnels, list: seq<Tunnel>) {
    IsListing(TUNNELS, Part(before, IS_ORPHAN), list)
  }

  ghost function IDs(list: seq<Tunnel>): (keys: seq<string>)
    ensures |keys| == |list|
  {
    if list == [] then [] else IDs(list[..|list| - 1]) + [list[|list| - 1].id]
  }

  lemma {:induction false} IDAt(list: seq<Tunnel>, i: nat)
    requires i < |list|
    ensures IDs(list)[i] == list[i].id
  {
    if i < |list| - 1 {
      IDAt(list[..|list| - 1], i);
    }
  }

  lemma OrphanAt(before: Tunnels, list: seq<Tunnel>, i: nat)
    requires AreOrphans(before, list) && i < |list|
    ensures list[i].id in OrphanIDs(before) && before[list[i].id] == list[i]
  {
    assert TUNNELS.id(list[i]) == list[i].id;
  }

  lemma OrphansInOrder(before: Tunnels, list: seq<Tunnel>, orphans: set<string>)
    requires AreOrphans(before, list) && AreOrphanIDs(before, orphans)
    ensures InOrder(IDs(list), orphans)
  {
    var keys := IDs(list);
    forall i | 0 <= i < |keys| ensures keys[i] in orphans && keys[i] == TUNNELS.id(list[i]) {
      OrphanAt(before, list, i);
      IDAt(list, i);
    }
    forall id | id in orphans ensures id in keys {
      assert id in Part(before, IS_ORPHAN);
      var i :| 0 <= i < |list| && TUNNELS.id(list[i]) == id;
      assert keys[i] == id;
    }
    forall i, j | 0 <= i < j < |keys| ensures Below(keys[i], keys[j]) {
      Earlier(TUNNELS, Part(before, IS_ORPHAN), list, i, j);
    }
  }

  ghost function AfterTurn(m: Tunnels, t: Tunnel, client: string, later: int): Tunnels {
    if t.id == "" then m else m[t.id := t.(instanceID := client, updatedAt := later)]
  }

  ghost function AfterTurns(before: Tunnels, list: seq<Tunnel>, n: nat, client: string, later: int): Tunnels
    requires n <= |list|
  {
    if n == 0 then before else AfterTurn(AfterTurns(before, list, n - 1, client, later), list[n - 1], client, later)
  }

  /** Those that have an owner are not touched. */
  lemma OrphansAreEnough(before: Tunnels, orphans: set<string>, client: string, later: int)
    requires AreOrphanIDs(before, orphans)
    ensures orphans == OrphanIDs(before) && Adopted(before, orphans, client, later) == Adopted(before, before.Keys, client, later)
  {
    assert forall id | id in before && Blank(before[id].instanceID) :: id in orphans;
  }

  lemma AdoptedNone(before: Tunnels, client: string, later: int)
    ensures Adopted(before, {} - {""}, client, later) == before
  {
  }

  lemma AdoptedNext(before: Tunnels, ids: set<string>, client: string, later: int, t: Tunnel)
    requires t.id in OrphanIDs(before) && before[t.id] == t && t.id !in ids
    ensures Adopted(before, (ids + {t.id}) - {""}, client, later) == AfterTurn(Adopted(before, ids - {""}, client, later), t, client, later)
    ensures Adopted(before, ids - {""}, client, later)[t.id] == t
  {
  }

  lemma {:induction false} AfterTurnsAdopted(before: Tunnels, list: seq<Tunnel>, n: nat, client: string, later: int)
    requires AreOrphans(before, list) && n <= |list|
    ensures AfterTurns(before, list, n, client, later) == Adopted(before, Served(IDs(list), n), client, later)
  {
    if n == 0 {
      AdoptedNone(before, client, later);
    } else {
      AfterTurnsAdopted(before, list, n - 1, client, later);
      OrphanAt(before, list, n - 1);
      IDAt(list, n - 1);
      NotServedBefore(before, list, n - 1);
      AdoptedNext(before, FirstKeys(IDs(list), n - 1), client, later, list[n - 1]);
    }
  }

  lemma NotServedBefore(before: Tunnels, list: seq<Tunnel>, i: nat)
    requires AreOrphans(before, list) && i < |list|
    ensures list[i].id !in FirstKeys(IDs(list), i)
  {
    OrphansInOrder(before, list, OrphanIDs(before));
    InOrderIsDistinct(IDs(list), OrphanIDs(before));
    NotAmongFirst(IDs(list), i, IDs(list)[i]);
    IDAt(list, i);
  }

  /** When its turn comes, an orphan has no owner yet. */
  lemma OrphansTurn(before: Tunnels, list: seq<Tunnel>, i: nat, client: string, later: int)
    requires AreOrphans(before, list) && i < |list|
    ensures list[i].id in AfterTurns(before, list, i, client, later)
    ensures AfterTurns(before, list, i, client, later)[list[i].id] == list[i]
  {
    OrphanAt(before, list, i);
    NotServedBefore(before, list, i);
    AfterTurnsAdopted(before, list, i, client, later);
    AdoptedNext(before, FirstKeys(IDs(list), i), client, later, list[i]);
  }

  // ---------- the adoption ----------

  /** Adopts the orphans one by one; a write that fails ends it. */
  method AdoptOrphanTunnels(app: App, now: int, later: int)
    returns (err: Option<string>, ghost ids: set<string>, ghost orphans: set<string>)
    requires app.Valid()
    modifies app.tunnels
    ensures app.Valid() && AreOrphanIDs(old(app.tunnels.items), orphans)
    ensures (forall id | id in app.instances.items :: app.instances.items[id].IsServer()) ==>
              err.None? && app.tunnels.items == old(app.tunnels.items)
    ensures forall c | IsFirstOf(app.instances.items, false, c) ::
              && app.tunnels.items == Adopted(old(app.tunnels.items), ids, c, later)
              && IsAdoption(orphans, ids, app.tunnels.writable, old(app.tunnels.flushes), err.None?)
    ensures OwnersExist(app.instances.items, old(app.tunnels.items)) ==> OwnersExist(app.instances.items, app.tunnels.items)
  {
    var server, client := FirstOfEachKind(app.instances);
    if client.None? {
      orphans := OrphansExist(app.tunnels.items);
      return None, {}, orphans;
    }
    var c := client.value.id;
    forall o | IsFirstOf(app.instances.items, false, o) ensures o == c {
      if o != c { AtMostAntisymmetric(o, c); }
    }
    if OwnersExist(app.instances.items, app.tunnels.items) {
      forall some | true ensures OwnersExist(app.instances.items, Adopted(app.tunnels.items, some, c, later)) {
        AdoptionKeepsOwners(app.instances.items, app.tunnels.items, some, c, later);
      }
    }
    err, ids, orphans := AdoptEach(app.tunnels, c, now, later);
  }

  method AdoptEach(tunnels: Collection<Tunnel>, client: string, now: int, later: int)
    returns (err: Option<string>, ghost ids: set<string>, ghost orphans: set<string>)
    requires tunnels.Valid() && tunnels.entity == TUNNELS
    modifies tunnels
    ensures tunnels.Valid() && tunnels.items == Adopted(old(tunnels.items), ids, client, later)
    ensures AreOrphanIDs(old(tunnels.items), orphans)
    ensures IsAdoption(orphans, ids, tunnels.writable, old(tunnels.flushes), err.None?)
  {
    orphans := OrphansExist(tunnels.items);
    var changed := Orphans(tunnels);
    ghost var before, keys, n := tunnels.items, IDs(changed), 0;
    OrphansInOrder(before, changed, orphans);
    forall i | 0 <= i < |changed| ensures HasItsTurn(TUNNELS, before, changed, keys, i, client, later) {
      OrphansTurn(before, changed, i, client, later);
      IDAt(changed, i);
    }
    err, n := AdoptAll(tunnels, changed, keys, client, now, later);
    ids := Served(keys, n);
    AfterTurnsAdopted(before, changed, n, client, later);
    Ended(keys, orphans, tunnels.writable, old(tunnels.flushes), n, err.None?);
  }

  /** The tunnels that name no owner, each once. */
  method Orphans(tunnels: Collection<Tunnel>) returns (orphans: seq<Tunnel>)
    requires tunnels.Valid() && tunnels.entity == TUNNELS
    ensures AreOrphans(tunnels.items, orphans)
  {
    var list := tunnels.List();
    orphans := [];
    for i := 0 to |list|
      invariant orphans == Filtered(list[..i], IS_ORPHAN)
    {
      assert list[..i + 1][..i] == list[..i];
      if Blank(list[i].instanceID) {
        orphans := orphans + [list[i]];
      }
    }
    assert list[..|list|] == list;
    FilteredIsListing(TUNNELS, tunnels.items, list, IS_ORPHAN);
  }

  /** Storing the orphan under its client changes nothing else about it. */
  ghost predicate IsPlain(e: Entity<Tunnel>, t: Tunnel, client: string, later: int) {
    var given := t.(instanceID := client);
    e.id(given) == t.id && e.stamp(given, t.id, e.created(t), later) == given.(updatedAt := later)
  }

  /** The i-th orphan as it is when its turn comes. */
  ghost predicate HasItsTurn(e: Entity<Tunnel>, before: Tunnels, list: seq<Tunnel>, keys: seq<string>, i: nat, client: string, later: int)
    requires i < |list|
  {
    var m := AfterTurns(before, list, i, client, later);
    i < |keys| && keys[i] == list[i].id && list[i].id in m && m[list[i].id] == list[i] && IsPlain(e, list[i], client, later)
  }

  /** The loop over the orphans; n of them had their turn. */
  method AdoptAll(tunnels: Collection<Tunnel>, changed: seq<Tunnel>, ghost keys: seq<string>, client: string, now: int, later: int)
    returns (err: Option<string>, ghost n: nat)
    requires tunnels.Valid() && |keys| == |changed|
    requires forall i | 0 <= i < |changed| :: HasItsTurn(tunnels.entity, tunnels.items, changed, keys, i, client, later)
    modifies tunnels
    ensures tunnels.Valid() && n <= |changed| && tunnels.items == AfterTurns(old(tunnels.items), changed, n, client, later)
    ensures err.None? ==> n == |keys| && Went(keys, n, tunnels.writable, old(tunnels.flushes))
    ensures err.Some? ==> 0 < n && Went(keys, n - 1, tunnels.writable, old(tunnels.flushes))
                          && !Went(keys, n, tunnels.writable, old(tunnels.flushes))
  {
    err, n := None, 0;
    ghost var before, first := tunnels.items, tunnels.flushes;
    for i := 0 to |changed|
      invariant tunnels.Valid() && err.None? && n == i
      invariant tunnels.items == AfterTurns(before, changed, n, client, later)
      invariant tunnels.flushes == first + n && Went(keys, n, tunnels.writable, first)
    {
      assert HasItsTurn(tunnels.entity, before, changed, keys, i, client, later);
      WentNext(keys, i, tunnels.writable, first, changed[i].id, tunnels.flushes);
      err := AdoptOne(tunnels, changed[i], client, now, later);
      n := n + 1;
      if err.Some? {
        break;
      }
    }
  }

  method AdoptOne(tunnels: Collection<Tunnel>, t: Tunnel, client: string, now: int, later: int) returns (err: Option<string>)
    requires tunnels.Valid() && IsPlain(tunnels.entity, t, client, later) && t.id in tunnels.items && tunnels.items[t.id] == t
    modifies tunnels
    ensures tunnels.Valid() && tunnels.items == AfterTurn(old(tunnels.items), t, client, later)
    ensures err.None? <==> t.id != "" && Goes(tunnels.writable, old(tunnels.flushes))
    ensures err.None? ==> tunnels.flushes == old(tunnels.flushes) + 1
  {
    var given := t.(instanceID := client);
    var r := tunnels.Put(given, now, later);
    err := if r.Failed? then Some(r.reason) else None;
  }

  // ---------- the migrated instances, field by field ----------

  /** Nothing is migrated if both sides are off and there is no tunnel, or if there is neither a tunnel nor a token. */
  lemma NothingToMigrate(cfg: OldConfig, hasTunnels: bool, serverID: string, clientID: string, now: int, later: int,
                         writable: nat -> bool, first: nat)
    requires !hasTunnels
    requires (!cfg.frps.enable && !cfg.frpc.enable) || (Trim(cfg.frps.token) == "" && Trim(cfg.frpc.token) == "")
    ensures Migrated(cfg, hasTunnels, serverID, clientID, now, later, writable, first) == map[]
    ensures MigrationGoes(cfg, hasTunnels, writable, first)
  {
  }

  /** A side that has no token of its own takes that of the other side, trimmed. */
  ghost predicate TokenOf(token: string, own: string, other: string) {
    token == if Trim(own) == "" && Trim(other) != "" then Trim(other) else own
  }

  ghost predicate IsMigratedServer(i: Instance, cfg: OldConfig, now: int, later: int) {
    && i.name == "服务端" && i.kind == "server" && i.note == "" && i.createdAt == now && i.updatedAt == later
    && i.server == cfg.frps.(token := i.server.token) && TokenOf(i.server.token, cfg.frps.token, cfg.frpc.token)
    && i.client == NO_CLIENT_SETTINGS
  }

  ghost predicate IsMigratedClient(i: Instance, cfg: OldConfig, now: int, later: int) {
    && i.name == "客户端" && i.kind == "client" && i.note == "" && i.createdAt == now && i.updatedAt == later
    && i.client == cfg.frpc.(token := i.client.token) && TokenOf(i.client.token, cfg.frpc.token, cfg.frps.token)
    && i.server == NO_SERVER
  }

  /** Otherwise each side that is on becomes an instance; the client only if the server could be written. */
  lemma MigratedFields(cfg: OldConfig, hasTunnels: bool, serverID: string, clientID: string, now: int, later: int,
                       writable: nat -> bool, first: nat)
    requires serverID != clientID
    requires hasTunnels || ((cfg.frps.enable || cfg.frpc.enable) && !(Trim(cfg.frps.token) == "" && Trim(cfg.frpc.token) == ""))
    ensures var m := Migrated(cfg, hasTunnels, serverID, clientID, now, later, writable, first);
      && m.Keys <= {serverID, clientID}
      && (serverID in m <==> cfg.frps.enable)
      && (clientID in m <==> cfg.frpc.enable && (cfg.frps.enable ==> Goes(writable, first)))
      && (serverID in m ==> m[serverID].id == serverID && IsMigratedServer(m[serverID], cfg, now, later))
      && (clientID in m ==> m[clientID].id == clientID && IsMigratedClient(m[clientID], cfg, now, later))
  {
  }
}
