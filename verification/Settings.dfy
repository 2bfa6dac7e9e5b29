/** The settings pages: they edit the first server and the first client without looking at the other instances. */
module Settings {
  import opened Text
  import opened Model
  import opened Store
  import opened InstanceRules
  import opened InstanceConflicts
  import opened Panel
  import opened Startup

  /** FirstServerInstance and FirstClientInstance. */
  method FirstOfKind(coll: Collection<Instance>, server: bool) returns (first: Option<Instance>)
    requires coll.Valid() && coll.entity == INSTANCES
    ensures first.Some? ==> IsFirstOf(coll.items, server, first.value.id) && coll.items[first.value.id] == first.value
    ensures first.None? ==> forall id | id in coll.items :: coll.items[id].IsServer() != server
  {
    var list := coll.List();
    FirstInListing(coll.items, list, server);
    for i := 0 to |list|
      invariant FirstAmong(list, i, server).None?
    {
      if list[i].IsServer() == server {
        FirstStays(list, |list|, server, i);
        return Some(list[i]);
      }
    }
    first := None;
  }

  lemma {:induction false} FirstStays(list: seq<Instance>, n: nat, server: bool, i: nat)
    requires i < n <= |list| && FirstAmong(list, i, server).None? && list[i].IsServer() == server
    ensures FirstAmong(list, n, server) == Some(list[i])
  {
    if i < n - 1 {
      FirstStays(list, n - 1, server, i);
    }
  }

  /** The first server, or the first client, went through the edit, if there is one. */
  ghost predicate EditsFirst(before: Instances, after: Instances, server: bool, edit: Option<Edit>, later: int) {
    if edit.None? || (forall id | id in before :: before[id].IsServer() != server) then after == before
    else exists id :: IsFirstOf(before, server, id) && after == Updated(before, id, edit.value, later)
  }

  ghost predicate EditFails(before: Instances, server: bool, edit: Option<Edit>, writes: bool) {
    edit.Some? && exists id :: IsFirstOf(before, server, id) && UpdateFails(before, id, edit.value, writes)
  }

  method EditFirst(app: App, server: bool, edit: Option<Edit>, now: int, later: int) returns (err: Option<string>)
    requires app.Valid()
    modifies app.instances
    ensures app.Valid() && EditsFirst(old(app.instances.items), app.instances.items, server, edit, later)
    ensures err.Some? <==> EditFails(old(app.instances.items), server, edit, Goes(app.instances.writable, old(app.instances.flushes)))
  {
    err := None;
    if edit.Some? {
      var first := FirstOfKind(app.instances, server);
      if first.Some? {
        ghost var before := app.instances.items;
        forall id | IsFirstOf(before, server, id) ensures id == first.value.id {
          if id != first.value.id { AtMostAntisymmetric(id, first.value.id); }
        }
        err := app.UpdateInstance(first.value.id, edit.value, now, later);
      }
    }
  }

  /** syncDefaultInstances: the server first; if that fails the client is not touched. */
  method SyncDefaultInstances(app: App, server: Option<ServerConfig -> ServerConfig>, client: Option<ClientConfig -> ClientConfig>,
                              now: int, later: int, last: int)
    returns (err: Option<string>, ghost between: Instances)
    requires app.Valid()
    modifies app.instances
    ensures app.Valid() && EditsFirst(old(app.instances.items), between, true, ServerEdit(server), later)
    ensures EditFails(old(app.instances.items), true, ServerEdit(server), Goes(app.instances.writable, old(app.instances.flushes))) ==>
              err.Some? && app.instances.items == between
    ensures !EditFails(old(app.instances.items), true, ServerEdit(server), Goes(app.instances.writable, old(app.instances.flushes))) ==>
              EditsFirst(between, app.instances.items, false, ClientEdit(client), last)
  {
    err := EditFirst(app, true, ServerEdit(server), now, later);
    between := app.instances.items;
    if err.None? {
      err := EditFirst(app, false, ClientEdit(client), now, last);
    }
  }

  function ServerEdit(f: Option<ServerConfig -> ServerConfig>): Option<Edit> {
    if f.Some? then Some(EditServer(f.value)) else None
  }

  function ClientEdit(f: Option<ClientConfig -> ClientConfig>): Option<Edit> {
    if f.Some? then Some(EditClient(f.value)) else None
  }

  /** The page of the server edits the settings of the first server, unless they would not be fit then; nothing else. */
  lemma EditedServer(before: Instances, after: Instances, f: Option<ServerConfig -> ServerConfig>, later: int, id: string)
    requires EditsFirst(before, after, true, ServerEdit(f), later) && IsFirstOf(before, true, id) && before[id].id == id
    ensures var was := before[id];
      if f.Some? && id != "" && Trim(was.name) != "" && HasItsSettings(Lower(Trim(was.kind)), f.value(was.server), was.client) then
        && after.Keys == before.Keys && (forall o | o in before && o != id :: after[o] == before[o])
        && EditedAs(was, after[id], later) && after[id].server == f.value(was.server) && after[id].client == was.client
      else after == before
  {
    OnlyFirst(before, true, id);
    if f.Some? {
      var edit := EditServer(f.value);
      assert after == Updated(before, id, edit, later);
      EditGoesThroughExactlyWhen(before, id, edit);
      if Updates(before, id, edit) { EditedRecord(before, id, edit, later); }
    }
  }

  /** The page of the client does the same to the first client. */
  lemma EditedClient(before: Instances, after: Instances, f: Option<ClientConfig -> ClientConfig>, later: int, id: string)
    requires EditsFirst(before, after, false, ClientEdit(f), later) && IsFirstOf(before, false, id) && before[id].id == id
    ensures var was := before[id];
      if f.Some? && id != "" && Trim(was.name) != "" && HasItsSettings(Lower(Trim(was.kind)), was.server, f.value(was.client)) then
        && after.Keys == before.Keys && (forall o | o in before && o != id :: after[o] == before[o])
        && EditedAs(was, after[id], later) && after[id].client == f.value(was.client) && after[id].server == was.server
      else after == before
  {
    OnlyFirst(before, false, id);
    if f.Some? {
      var edit := EditClient(f.value);
      assert after == Updated(before, id, edit, later);
      EditGoesThroughExactlyWhen(before, id, edit);
      if Updates(before, id, edit) { EditedRecord(before, id, edit, later); }
    }
  }

  // ---------- what an edit can do to the data ----------

  /** The edited server passes its own validation, but not the checks nobody makes here. */
  ghost predicate Collides(m: Instances, f: ServerConfig -> ServerConfig) {
    exists id :: IsFirstOf(m, true, id) && Updates(m, id, EditServer(f)) && Objected(m, EditServer(f).Of(m[id]))
  }

  ghost predicate SameKinds(before: Instances, after: Instances) {
    after.Keys == before.Keys && forall id | id in before :: after[id].kind == before[id].kind
  }

  lemma StampKeepsKind(i: Instance, id: string, created: int, updated: int)
    ensures INSTANCES.stamp(i, id, created, updated).kind == i.kind
  {
  }

  lemma UpdateKeepsKinds(m: Instances, id: string, edit: Edit, later: int)
    requires KindsKnown(m)
    ensures SameKinds(m, Updated(m, id, edit, later))
  {
    if Updates(m, id, edit) {
      EditKeepsIdentity(edit, m[id]);
      StampKeepsKind(edit.Of(m[id]), id, m[id].createdAt, later);
    }
  }

  lemma EditingKeepsKeys(m: Instances, after: Instances, server: bool, edit: Option<Edit>, later: int)
    requires EditsFirst(m, after, server, edit, later)
    ensures after.Keys == m.Keys
  {
    if after != m {
      var id :| IsFirstOf(m, server, id) && after == Updated(m, id, edit.value, later);
      assert after == m || (id in m && after.Keys == m.Keys + {id});
    }
  }

  /** An edit keeps ids and kinds. */
  lemma EditingKeepsKinds(m: Instances, after: Instances, server: bool, edit: Option<Edit>, later: int)
    requires EditsFirst(m, after, server, edit, later) && KindsKnown(m)
    ensures SameKinds(m, after)
  {
    if after != m {
      var id :| IsFirstOf(m, server, id) && after == Updated(m, id, edit.value, later);
      UpdateKeepsKinds(m, id, edit.value, later);
    }
  }

  /** An edit of the first server makes a conflict exactly when it collides. */
  lemma EditingTheServer(m: Instances, after: Instances, f: ServerConfig -> ServerConfig, later: int)
    requires EditsFirst(m, after, true, Some(EditServer(f)), later) && NoConflicts(m) && Keyed(INSTANCES, m)
    ensures NoConflicts(after) <==> !Collides(m, f)
  {
    if id :| IsFirstOf(m, true, id) {
      OnlyFirst(m, true, id);
      UpdateKeepsConflictsOut(m, id, EditServer(f), later);
      assert after == Updated(m, id, EditServer(f), later);
    }
  }

  /** An edit of the first client makes none. */
  lemma EditingTheClient(m: Instances, after: Instances, f: ClientConfig -> ClientConfig, later: int)
    requires EditsFirst(m, after, false, Some(EditClient(f)), later) && KindsKnown(m)
    ensures NoConflicts(after) <==> NoConflicts(m)
  {
    if after != m {
      var id :| IsFirstOf(m, false, id) && after == Updated(m, id, EditClient(f), later);
      ClientEditsAreHarmless(m, id, f, m[id].createdAt, later);
    }
  }

  lemma OnlyFirst(m: Instances, server: bool, id: string)
    requires IsFirstOf(m, server, id)
    ensures forall o | IsFirstOf(m, server, o) :: o == id
  {
    forall o | IsFirstOf(m, server, o) ensures o == id {
      if o != id { AtMostAntisymmetric(o, id); }
    }
  }

  function ServerOn(id: string, name: string, port: int): Instance {
    Instance(id, name, KIND_SERVER, "", NO_SERVER.(enable := true, bindPort := port), NO_CLIENT_SETTINGS, 0, 0)
  }

  function MoveTo(port: int): ServerConfig -> ServerConfig {
    (s: ServerConfig) => s.(bindPort := port)
  }

  lemma OnePort(id: string, name: string, port: int)
    requires port > 0
    ensures Ports(ServerOn(id, name, port)) == [port]
  {
    var z: seq<int> := [0, 0, 0, 0, 0];
    assert Positive(z) == [] by {
      assert z[1..] == [0, 0, 0, 0] && z[1..][1..] == [0, 0, 0] && z[1..][1..][1..] == [0, 0];
      assert z[1..][1..][1..][1..] == [0] && z[1..][1..][1..][1..][1..] == [];
    }
    assert ([port] + z)[1..] == z && [port] + z == [port, 0, 0, 0, 0, 0];
  }

  lemma MovedServer(id: string, name: string, port: int, to: int)
    requires Trim(name) == name != "" && IsPort(to)
    ensures EditServer(MoveTo(to)).Of(ServerOn(id, name, port)) == ServerOn(id, name, to)
    ensures Validate(ServerOn(id, name, to)).None?
  {
    KindsAreNormal();
  }

  lemma PortsDecide(id: string, name: string, port: int, id': string, name': string, port': int)
    requires port > 0 && port' > 0 && Lower(Trim(name)) != Lower(Trim(name'))
    ensures Clash(ServerOn(id, name, port), ServerOn(id', name', port')) <==> port == port'
  {
    OnePort(id, name, port);
    OnePort(id', name', port');
    assert port in [port] && port' in [port'];
  }

  lemma OneIsNotTwo()
    ensures Trim("one") == "one" && Trim("two") == "two" && Lower("one") != Lower("two")
  {
    TrimFixes("one");
    TrimFixes("two");
    assert Lower("one")[0] == 'o' && Lower("two")[0] == 't';
  }

  lemma PairIsFine(a: Instance, b: Instance)
    requires a.id != b.id && a.id != "" && b.id != "" && KindKnown(a) && KindKnown(b) && !Clash(a, b)
    ensures var m := map[a.id := a, b.id := b]; NoConflicts(m) && KindsKnown(m) && Keyed(INSTANCES, m)
  {
    var m := map[a.id := a, b.id := b];
    ClashIsSymmetric(a, b);
    assert m.Keys == {a.id, b.id} && m[a.id] == a && m[b.id] == b;
    TwoWithoutConflict(m, a.id, b.id);
    PairIsKeyed(a, b);
  }

  lemma TwoWithoutConflict(m: Instances, x: string, y: string)
    requires m.Keys == {x, y} && x != "" && y != "" && !Clash(m[x], m[y]) && !Clash(m[y], m[x])
    ensures NoConflicts(m)
  {
    forall a, b | a in m && b in m && a != b ensures !Clash(m[a], m[b]) {
      assert a in {x, y} && b in {x, y};
    }
  }

  lemma PairIsKeyed(a: Instance, b: Instance)
    requires a.id != b.id
    ensures Keyed(INSTANCES, map[a.id := a, b.id := b])
  {
    assert INSTANCES.id(a) == a.id && INSTANCES.id(b) == b.id;
  }

  lemma PairCollides(a: Instance, b: Instance, f: ServerConfig -> ServerConfig)
    requires Below(a.id, b.id) && a.id != "" && a.IsServer() && b.IsServer()
    requires var moved := EditServer(f).Of(a); moved.id == a.id && Validate(moved).None? && Objects(b, moved)
    ensures Collides(map[a.id := a, b.id := b], f)
  {
    var m := map[a.id := a, b.id := b];
    assert m[a.id] == a && m[b.id] == b;
    assert IsFirstOf(m, true, a.id) && Updates(m, a.id, EditServer(f));
    assert b.id in m && Objected(m, EditServer(f).Of(m[a.id]));
  }

  lemma TwoServers(a: string, one: string, b: string, two: string) returns (m: Instances, f: ServerConfig -> ServerConfig)
    requires a != "" && b != "" && Below(a, b) && one == Trim(one) != "" && two == Trim(two) != "" && Lower(one) != Lower(two)
    ensures NoConflicts(m) && KindsKnown(m) && Keyed(INSTANCES, m) && Collides(m, f)
  {
    var first, second := ServerOn(a, one, 7000), ServerOn(b, two, 7001);
    m, f := map[first.id := first, second.id := second], MoveTo(7001);
    PortsDecide(a, one, 7000, b, two, 7001);
    PairIsFine(first, second);
    MovedServer(a, one, 7000, 7001);
    PortsDecide(b, two, 7001, a, one, 7001);
    assert Objects(second, ServerOn(a, one, 7001));
    PairCollides(first, second, f);
  }

  /** Moving the first of two servers to the port of the second: a save would be refused, the settings page lets it through. */
  lemma SettingsShareAPort(later: int) returns (m: Instances, f: ServerConfig -> ServerConfig)
    ensures NoConflicts(m) && KindsKnown(m)
    ensures forall after | EditsFirst(m, after, true, Some(EditServer(f)), later) :: !NoConflicts(after)
  {
    OneIsNotTwo();
    m, f := TwoServers("a", "one", "b", "two");
    forall after | EditsFirst(m, after, true, Some(EditServer(f)), later) ensures !NoConflicts(after) {
      EditingTheServer(m, after, f, later);
    }
  }
}
