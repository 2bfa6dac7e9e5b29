/** The operations that change the panel's instances and tunnels. */
module Panel {
  import opened Text
  import opened Model
  import opened Store
  import opened InstanceRules
  import opened Removals

  /** What a request leaves in the log instead of the record it asked for. */
  const CONFLICT := "name or port already in use"
  const NO_INSTANCE := "instance does not exist"
  const NO_TUNNEL := "tunnel does not exist"
  const NO_CLIENT := "create a client instance first"
  const NOT_A_CLIENT := "a tunnel belongs to a client instance"
  const DUPLICATE_NAME := "tunnel name already exists in this instance"
  const BAD_TUNNEL := "tunnel is not well formed"

  /** The k-th port of `b` is in `a`, and none before it is. */
  ghost predicate IsFirstShared(a: seq<int>, b: seq<int>, k: int) {
    0 <= k < |b| && b[k] in a && forall j | 0 <= j < k :: b[j] !in a
  }

  /** firstPortConflict: the first port of the second list that the first one has too. */
  method FirstPortConflict(a: seq<int>, b: seq<int>) returns (conflict: Option<int>)
    ensures conflict.Some? <==> Overlap(a, b)
    ensures conflict.Some? ==> exists k :: 0 <= k < |b| && IsFirstShared(a, b, k) && conflict.value == b[k]
  {
    var seen: set<int> := {};
    for i := 0 to |a|
      invariant forall p :: p in seen <==> p in a[..i]
    {
      seen := seen + {a[i]};
      assert a[..i + 1] == a[..i] + [a[i]];
    }
    assert a[..|a|] == a;
    assert forall p :: p in seen <==> p in a;
    for i := 0 to |b|
      invariant forall k | 0 <= k < i :: b[k] !in a
    {
      if b[i] in seen {
        assert IsFirstShared(a, b, i);
        var port := b[i];
        assert port in a && port in b;
        return Some(port);
      }
    }
    conflict := None;
  }

  /** The body of the loop in checkInstanceConflicts: the name first, then the ports of enabled servers. */
  method ObjectsTo(other: Instance, inst: Instance) returns (clash: bool)
    ensures clash <==> Objects(other, inst)
  {
    if other.kind == inst.kind && EqualFold(Trim(other.name), inst.name) {
      return true;
    }
    if other.kind != inst.kind || !inst.IsServer() {
      return false;
    }
    if !other.Enabled() || !inst.Enabled() {
      return false;
    }
    var conflict := FirstPortConflict(Ports(other), Ports(inst));
    clash := conflict.Some?;
  }

  /** The tunnels of an instance. */
  ghost function OwnedBy(tunnels: Tunnels, id: string): set<string> {
    set k | k in tunnels && tunnels[k].instanceID == id
  }

  /** The loop over the listed tunnels: one removal after the other, up to the first write that fails. */
  method Sweep(tunnels: Collection<Tunnel>, list: seq<Tunnel>, id: string)
    returns (removed: nat, err: Option<string>, ghost taken: nat)
    requires tunnels.Valid() && forall i | 0 <= i < |list| :: HasItsTurn(tunnels.items, list, id, i)
    modifies tunnels
    ensures tunnels.Valid() && taken == (if err.Some? then removed + 1 else removed)
    ensures taken <= |OwnedIds(list, |list|, id)| && tunnels.items == Left(old(tunnels.items), OwnedIds(list, |list|, id), taken)
    ensures NextWritesGo(tunnels.writable, old(tunnels.flushes), removed)
    ensures err.None? ==> removed == |OwnedIds(list, |list|, id)|
    ensures err.Some? ==> !NextWritesGo(tunnels.writable, old(tunnels.flushes), removed + 1)
  {
    removed, err, taken := 0, None, 0;
    ghost var before, first, keys := tunnels.items, tunnels.flushes, OwnedIds(list, |list|, id);
    for i := 0 to |list|
      invariant taken == removed == |OwnedIds(list, i, id)| <= |keys| && err.None?
      invariant tunnels.Valid() && tunnels.items == Left(before, keys, taken)
      invariant tunnels.flushes == first + removed && NextWritesGo(tunnels.writable, first, removed)
    {
      if list[i].instanceID == id {
        assert HasItsTurn(before, list, id, i);
        NextWrite(tunnels.writable, first, removed, tunnels.flushes);
        err := RemoveOne(tunnels, list[i].id);
        taken := taken + 1;
        if err.Some? {
          break;
        }
        removed := removed + 1;
      }
    }
  }

  /** What DeleteInstance does with the tunnels of an instance. */
  method RemoveTunnelsOf(tunnels: Collection<Tunnel>, id: string)
    returns (removed: nat, err: Option<string>, ghost steps: seq<Tunnels>)
    requires tunnels.Valid() && tunnels.entity == TUNNELS
    modifies tunnels
    ensures tunnels.Valid()
    ensures OneByOne(steps, OwnedBy(old(tunnels.items), id))
    ensures steps[0] == old(tunnels.items) && steps[|steps| - 1] == tunnels.items
    ensures removed <= |OwnedBy(old(tunnels.items), id)| && NextWritesGo(tunnels.writable, old(tunnels.flushes), removed)
    ensures err.None? ==> removed == |OwnedBy(old(tunnels.items), id)| && tunnels.items == Disowned(old(tunnels.items), id)
    ensures err.Some? ==> removed < |OwnedBy(old(tunnels.items), id)|
                          && !NextWritesGo(tunnels.writable, old(tunnels.flushes), removed + 1)
  {
    ghost var before := tunnels.items;
    var list, place := ListTunnels(tunnels);
    ghost var n;
    forall i | 0 <= i < |list| ensures HasItsTurn(before, list, id, i) {
      if list[i].instanceID == id { ItsTurn(before, list, place, id, i); }
    }
    removed, err, n := Sweep(tunnels, list, id);
    steps := Steps(before, OwnedIds(list, |list|, id), n);
    Trail(before, list, place, id, n);
    AllOwnedRemoved(before, list, place, id);
  }

  class App {
    const instances: Collection<Instance>
    const tunnels: Collection<Tunnel>

    ghost predicate Valid()
      reads this, instances, tunnels
    {
      && instances.Valid() && instances.entity == INSTANCES
      && tunnels.Valid() && tunnels.entity == TUNNELS
    }

    constructor (instances: Collection<Instance>, tunnels: Collection<Tunnel>)
      requires instances.Valid() && instances.entity == INSTANCES && tunnels.Valid() && tunnels.entity == TUNNELS
      ensures Valid() && this.instances == instances && this.tunnels == tunnels
    {
      this.instances, this.tunnels := instances, tunnels;
    }

    // ---------- instances ----------

    method CheckInstanceConflicts(inst: Instance) returns (err: Option<string>)
      requires Valid()
      ensures err.Some? <==> Objected(instances.items, inst)
    {
      var list := instances.List();
      for i := 0 to |list|
        invariant !ObjectedAmong(list, i, inst)
      {
        if list[i].id != inst.id {
          var clash := ObjectsTo(list[i], inst);
          if clash {
            OneObjects(instances.items, list, inst, i);
            return Some(CONFLICT);
          }
        }
      }
      err := None;
      NoneObjects(instances.items, list, inst);
    }

    /** Normalises an instance, fills in its bind address and puts it through the checks. */
    method Vet(inst: Instance) returns (i: Instance, refusal: Option<string>)
      requires Valid()
      ensures i == Prepared(inst) && (refusal.None? <==> Admits(instances.items, inst))
    {
      i := inst.Normalize();
      if i.kind == KIND_SERVER && Trim(i.server.bindAddr) == "" {
        i := i.(server := i.server.(bindAddr := "0.0.0.0"));
      }
      refusal := Validate(i);
      if refusal.None? {
        refusal := CheckInstanceConflicts(i);
      }
    }

    /** Instances.Put, told in terms of instances. */
    method PutInstance(i: Instance, now: int, later: int) returns (r: Outcome<Instance>)
      requires Valid()
      modifies instances
      ensures Valid() && instances.items == StoredIn(old(instances.items), i, now, later)
      ensures instances.flushes == old(instances.flushes) + if i.id != "" then 1 else 0
      ensures i.id == "" ==> r == Failed(BLANK_ID) && instances.file == old(instances.file)
      ensures i.id != "" ==>
                if Goes(instances.writable, old(instances.flushes)) then r == Stored(instances.items[i.id]) && instances.Synced()
                else r == Failed(NOT_WRITTEN) && instances.file == old(instances.file)
    {
      assert INSTANCES.id(i) == i.id;
      r := instances.Put(i, now, later);
    }

    method SaveInstance(inst: Instance, newID: string, now: int, later: int) returns (r: Outcome<Instance>)
      requires Valid()
      modifies instances
      ensures Valid() && Preserves(old(instances.items), tunnels.items, instances.items, tunnels.items)
      ensures instances.items == SavedIn(old(instances.items), inst, newID, now, later)
      ensures instances.flushes == old(instances.flushes) + if Admits(old(instances.items), inst) && Named(inst, newID).id != "" then 1 else 0
      ensures !Admits(old(instances.items), inst) ==> r.Failed? && instances.file == old(instances.file)
      ensures Admits(old(instances.items), inst) ==>
                var id := Named(inst, newID).id;
                if id == "" then r == Failed(BLANK_ID) && instances.file == old(instances.file)
                else if Goes(instances.writable, old(instances.flushes)) then
                  id in instances.items && r == Stored(instances.items[id]) && instances.Synced()
                else r == Failed(NOT_WRITTEN) && instances.file == old(instances.file)
    {
      SavedPreserves(instances.items, tunnels.items, inst, newID, now, later);
      var i, refusal := Vet(inst);
      if refusal.Some? {
        return Failed(refusal.value);
      }
      if i.id == "" {
        i := i.(id := newID);
      }
      r := PutInstance(i, now, later);
    }

    method ToggleInstance(id: string, enabled: bool, now: int, later: int) returns (r: Outcome<Instance>)
      requires Valid()
      modifies instances
      ensures Valid() && Preserves(old(instances.items), tunnels.items, instances.items, tunnels.items)
      ensures instances.items == ToggledIn(old(instances.items), id, enabled, later)
      ensures id !in old(instances.items) ==> r == Failed(NO_INSTANCE)
      ensures id in old(instances.items) && !AdmitsToggle(old(instances.items), id, enabled) ==> r.Failed?
      ensures id in old(instances.items) && AdmitsToggle(old(instances.items), id, enabled) ==>
                if id == "" then r == Failed(BLANK_ID)
                else if Goes(instances.writable, old(instances.flushes)) then r == Stored(instances.items[id]) && instances.Synced()
                else r == Failed(NOT_WRITTEN) && instances.file == old(instances.file)
    {
      if id !in instances.items {
        return Failed(NO_INSTANCE);
      }
      var i := instances.items[id].SetEnabled(enabled);
      if enabled {
        var invalid := Validate(i);
        if invalid.Some? {
          return Failed(invalid.value);
        }
        var conflict := CheckInstanceConflicts(i);
        if conflict.Some? {
          return Failed(conflict.value);
        }
      }
      assert INSTANCES.id(instances.items[id]) == id;
      ToggledPreserves(instances.items, tunnels.items, id, enabled, later);
      r := PutInstance(i, now, later);
    }

    /** UpdateInstance: an edit is validated, but nobody looks at the other instances. */
    method UpdateInstance(id: string, edit: Edit, now: int, later: int) returns (err: Option<string>)
      requires Valid()
      modifies instances
      ensures Valid() && instances.items == Updated(old(instances.items), id, edit, later)
      ensures err.Some? <==> UpdateFails(old(instances.items), id, edit, Goes(instances.writable, old(instances.flushes)))
      ensures instances.flushes == old(instances.flushes) + if Updates(old(instances.items), id, edit) then 1 else 0
    {
      if id !in instances.items {
        return Some(NO_INSTANCE);
      }
      var i := edit.Of(instances.items[id]);
      var invalid := Validate(i);
      if invalid.Some? {
        return Some(invalid.value);
      }
      assert INSTANCES.id(instances.items[id]) == id;
      var r := PutInstance(i, now, later);
      err := if r.Failed? then Some(r.reason) else None;
    }

    /** Removes the tunnels of an instance, then the instance; stops at the first write that fails. */
    method DeleteInstance(id: string) returns (removed: nat, err: Option<string>)
      requires Valid()
      modifies instances, tunnels
      ensures Valid()
      ensures Preserves(old(instances.items), old(tunnels.items), instances.items, tunnels.items)
      ensures id !in old(instances.items) ==>
                err == Some(NO_INSTANCE) && instances.items == old(instances.items) && tunnels.items == old(tunnels.items)
      ensures id in old(instances.items) ==>
                var owned := |OwnedBy(old(tunnels.items), id)|;
                if NextWritesGo(tunnels.writable, old(tunnels.flushes), owned) then
                  && removed == owned && tunnels.items == Disowned(old(tunnels.items), id)
                  && instances.items == old(instances.items) - {id}
                  && (err.None? <==> Goes(instances.writable, old(instances.flushes))) && (err.None? ==> instances.Synced())
                else
                  && err.Some? && instances.items == old(instances.items)
                  && removed < owned && NextWritesGo(tunnels.writable, old(tunnels.flushes), removed)
                  && !NextWritesGo(tunnels.writable, old(tunnels.flushes), removed + 1)
                  && exists steps :: OneByOne(steps, OwnedBy(old(tunnels.items), id))
                                   && steps[0] == old(tunnels.items) && steps[|steps| - 1] == tunnels.items
    {
      ghost var i0, t0 := instances.items, tunnels.items;
      removed := 0;
      if id !in instances.items {
        return 0, Some(NO_INSTANCE);
      }
      ghost var steps;
      removed, err, steps := RemoveTunnelsOf(tunnels, id);
      InBetween(steps, OwnedBy(t0, id), |steps| - 1);
      RemovingPreserves(i0, t0, tunnels.items);
      if err.Some? {
        return;
      }
      DeletingPreserves(i0, t0, id);
      err := instances.Delete(id);
    }
  }

  // ---------- what saving and toggling store ----------

  /** What SaveInstance makes of its argument before it looks at the other instances. */
  function Prepared(inst: Instance): Instance {
    var i := inst.Normalize();
    if i.kind == KIND_SERVER && Trim(i.server.bindAddr) == "" then i.(server := i.server.(bindAddr := "0.0.0.0")) else i
  }

  ghost predicate Admits(m: Instances, inst: Instance) {
    Validate(Prepared(inst)).None? && !Objected(m, Prepared(inst))
  }

  function Named(inst: Instance, newID: string): Instance {
    if inst.id == "" then Prepared(inst).(id := newID) else Prepared(inst)
  }

  /** An instance stored under its id; one that was there keeps its time of creation. */
  ghost function StoredIn(m: Instances, i: Instance, now: int, later: int): Instances {
    if i.id == "" then m
    else m[i.id := INSTANCES.stamp(i, i.id, if i.id in m then m[i.id].createdAt else now, later)]
  }

  ghost function SavedIn(m: Instances, inst: Instance, newID: string, now: int, later: int): Instances {
    if Admits(m, inst) then StoredIn(m, Named(inst, newID), now, later) else m
  }

  lemma SavedPreserves(m: Instances, t: Tunnels, inst: Instance, newID: string, now: int, later: int)
    ensures Preserves(m, t, SavedIn(m, inst, newID, now, later), t)
  {
    var i := Named(inst, newID);
    TrimIdempotent(inst.name);
    if Admits(m, inst) && i.id != "" {
      SavingPreserves(m, t, Prepared(inst), i.id, if i.id in m then m[i.id].createdAt else now, later);
    }
  }

  /** Switching on is checked, switching off is not. */
  ghost predicate AdmitsToggle(m: Instances, id: string, enabled: bool)
    requires id in m
  {
    enabled ==> var i := m[id].SetEnabled(true); Validate(i).None? && !Objected(m, i)
  }

  ghost function ToggledIn(m: Instances, id: string, enabled: bool, later: int): Instances {
    if id in m && id != "" && AdmitsToggle(m, id, enabled) then
      m[id := INSTANCES.stamp(m[id].SetEnabled(enabled), id, m[id].createdAt, later)]
    else m
  }

  lemma ToggledPreserves(m: Instances, t: Tunnels, id: string, enabled: bool, later: int)
    requires id in m ==> m[id].id == id
    ensures Preserves(m, t, ToggledIn(m, id, enabled, later), t)
  {
    if id in m && id != "" && AdmitsToggle(m, id, enabled) {
      TogglingPreserves(m, t, id, enabled, m[id].createdAt, later);
    }
  }

  // ---------- the conflict check ----------

  /** One of the first n listed instances objects. */
  ghost predicate ObjectedAmong(list: seq<Instance>, n: nat, inst: Instance)
    requires n <= |list|
  {
    n != 0 && (ObjectedAmong(list, n - 1, inst) || (list[n - 1].id != inst.id && Objects(list[n - 1], inst)))
  }

  lemma OneObjects(m: Instances, list: seq<Instance>, inst: Instance, i: nat)
    requires IsListing(INSTANCES, m, list) && i < |list| && list[i].id != inst.id && Objects(list[i], inst)
    ensures Objected(m, inst)
  {
    assert INSTANCES.id(list[i]) == list[i].id;
  }

  lemma {:induction false} NotObjectedAt(list: seq<Instance>, n: nat, inst: Instance, i: nat)
    requires i < n <= |list| && !ObjectedAmong(list, n, inst) && list[i].id != inst.id
    ensures !Objects(list[i], inst)
  {
    if i < n - 1 {
      NotObjectedAt(list, n - 1, inst, i);
    }
  }

  lemma NoneObjects(m: Instances, list: seq<Instance>, inst: Instance)
    requires IsListing(INSTANCES, m, list) && !ObjectedAmong(list, |list|, inst)
    ensures !Objected(m, inst)
  {
    forall id | id in m && id != inst.id ensures !Objects(m[id], inst) {
      var i :| 0 <= i < |list| && INSTANCES.id(list[i]) == id;
      NotObjectedAt(list, |list|, inst, i);
    }
  }

  // ---------- edits ----------

  /** The edit reaches the collection. */
  ghost predicate Updates(m: Instances, id: string, edit: Edit) {
    id in m && id != "" && Validate(edit.Of(m[id])).None?
  }

  ghost function Updated(m: Instances, id: string, edit: Edit, later: int): Instances {
    if Updates(m, id, edit) then m[id := INSTANCES.stamp(edit.Of(m[id]), id, m[id].createdAt, later)] else m
  }

  ghost predicate UpdateFails(m: Instances, id: string, edit: Edit, writes: bool) {
    !Updates(m, id, edit) || !writes
  }

  /** The comment above UpdateInstance says that no edit makes a conflict. One does exactly when the checks would have objected. */
  lemma UpdateKeepsConflictsOut(m: Instances, id: string, edit: Edit, later: int)
    requires NoConflicts(m) && Keyed(INSTANCES, m)
    ensures NoConflicts(Updated(m, id, edit, later)) <==> Updates(m, id, edit) ==> !Objected(m, edit.Of(m[id]))
  {
    if Updates(m, id, edit) {
      assert INSTANCES.id(m[id]) == id;
      TrimIdempotent(m[id].name);
      EditMeetsConflicts(m, id, edit.Of(m[id]), m[id].createdAt, later);
    }
  }

  // ---------- what the removal loop takes, and when ----------

  /** Each tunnel stands in the list once, at its place. */
  ghost predicate EachOnce(tunnels: Tunnels, list: seq<Tunnel>, place: map<string, nat>) {
    && place.Keys == tunnels.Keys
    && (forall i | 0 <= i < |list| :: list[i].id in tunnels && tunnels[list[i].id] == list[i] && place[list[i].id] == i)
    && (forall k | k in tunnels :: place[k] < |list| && list[place[k]].id == k)
  }

  lemma ListedOnce(tunnels: Tunnels, list: seq<Tunnel>) returns (place: map<string, nat>)
    requires IsListing(TUNNELS, tunnels, list)
    ensures EachOnce(tunnels, list, place)
  {
    assert forall i | 0 <= i < |list| :: TUNNELS.id(list[i]) == list[i].id;
    forall i, j | 0 <= i < j < |list| ensures list[i].id != list[j].id {
      Earlier(TUNNELS, tunnels, list, i, j);
    }
    forall k | k in tunnels ensures exists i: nat :: i < |list| && list[i].id == k {
      var i :| 0 <= i < |list| && TUNNELS.id(list[i]) == k;
    }
    place := map k | k in tunnels :: var i: nat :| i < |list| && list[i].id == k; i;
  }

  method ListTunnels(tunnels: Collection<Tunnel>) returns (list: seq<Tunnel>, ghost place: map<string, nat>)
    requires tunnels.Valid() && tunnels.entity == TUNNELS
    ensures EachOnce(tunnels.items, list, place)
  {
    list := tunnels.List();
    place := ListedOnce(tunnels.items, list);
  }

  /** The ids of the first n listed tunnels that `id` owns. */
  ghost function OwnedIds(list: seq<Tunnel>, n: nat, id: string): seq<string>
    requires n <= |list|
  {
    if n == 0 then [] else OwnedIds(list, n - 1, id) + if list[n - 1].instanceID == id then [list[n - 1].id] else []
  }

  lemma {:induction false} KeyAt(list: seq<Tunnel>, n: nat, id: string, i: nat)
    requires i < n <= |list| && list[i].instanceID == id
    ensures |OwnedIds(list, i, id)| < |OwnedIds(list, n, id)|
    ensures OwnedIds(list, n, id)[|OwnedIds(list, i, id)|] == list[i].id
  {
    if i < n - 1 {
      KeyAt(list, n - 1, id, i);
    }
  }

  lemma {:induction false} IdAt(list: seq<Tunnel>, n: nat, id: string, a: nat) returns (i: nat)
    requires n <= |list| && a < |OwnedIds(list, n, id)|
    ensures i < n && list[i].instanceID == id && OwnedIds(list, n, id)[a] == list[i].id && a == |OwnedIds(list, i, id)|
  {
    if a < |OwnedIds(list, n - 1, id)| {
      i := IdAt(list, n - 1, id, a);
    } else {
      i := n - 1;
    }
  }

  lemma OwnedIdsRemovable(before: Tunnels, list: seq<Tunnel>, place: map<string, nat>, id: string)
    requires EachOnce(before, list, place)
    ensures Removable(before, OwnedIds(list, |list|, id), OwnedBy(before, id))
  {
    var keys := OwnedIds(list, |list|, id);
    forall a | 0 <= a < |keys| ensures keys[a] in OwnedBy(before, id) {
      var i := IdAt(list, |list|, id, a);
    }
    forall a, b | 0 <= a < b < |keys| ensures keys[a] != keys[b] {
      var i := IdAt(list, |list|, id, a);
      var j := IdAt(list, |list|, id, b);
      assert place[list[i].id] == i && place[list[j].id] == j;
    }
  }

  /** If the i-th listed tunnel belongs to the instance, it is still there when its turn comes. */
  ghost predicate HasItsTurn(before: Tunnels, list: seq<Tunnel>, id: string, i: nat)
    requires i < |list|
  {
    list[i].instanceID == id ==>
      var keys, n := OwnedIds(list, |list|, id), |OwnedIds(list, i, id)|;
      && n < |keys| && list[i].id in Left(before, keys, n)
      && Left(before, keys, n) - {list[i].id} == Left(before, keys, n + 1)
  }

  lemma ItsTurn(before: Tunnels, list: seq<Tunnel>, place: map<string, nat>, id: string, i: nat)
    requires EachOnce(before, list, place) && i < |list| && list[i].instanceID == id
    ensures HasItsTurn(before, list, id, i)
  {
    OwnedIdsRemovable(before, list, place, id);
    KeyAt(list, |list|, id, i);
    NextIsLeft(before, OwnedIds(list, |list|, id), |OwnedIds(list, i, id)|, OwnedBy(before, id));
  }

  lemma Trail(before: Tunnels, list: seq<Tunnel>, place: map<string, nat>, id: string, n: nat)
    requires EachOnce(before, list, place) && n <= |OwnedIds(list, |list|, id)|
    ensures var steps := Steps(before, OwnedIds(list, |list|, id), n);
      && OneByOne(steps, OwnedBy(before, id)) && steps[0] == before
      && steps[|steps| - 1] == Left(before, OwnedIds(list, |list|, id), n)
    ensures n <= |OwnedBy(before, id)|
  {
    var keys := OwnedIds(list, |list|, id);
    OwnedIdsRemovable(before, list, place, id);
    StepByStep(before, keys, n, OwnedBy(before, id));
    NoMoreThanMine(before, keys, OwnedBy(before, id));
  }

  lemma AllOwnedRemoved(before: Tunnels, list: seq<Tunnel>, place: map<string, nat>, id: string)
    requires EachOnce(before, list, place)
    ensures var keys := OwnedIds(list, |list|, id);
      |keys| == |OwnedBy(before, id)| && Left(before, keys, |keys|) == Disowned(before, id)
  {
    var keys := OwnedIds(list, |list|, id);
    OwnedIdsRemovable(before, list, place, id);
    forall k | k in OwnedBy(before, id) ensures k in keys {
      KeyAt(list, |list|, id, place[k]);
    }
    AllRemoved(before, keys, OwnedBy(before, id));
    MinusOwned(before, id);
  }

  lemma MinusOwned(before: Tunnels, id: string)
    ensures before - OwnedBy(before, id) == Disowned(before, id)
  {
  }

  /** Between two removals every tunnel still has its owner. */
  lemma OwnersInBetween(m: Instances, steps: seq<Tunnels>, mine: set<string>, j: nat)
    requires OneByOne(steps, mine) && j < |steps| && OwnersExist(m, steps[0])
    ensures OwnersExist(m, steps[j])
  {
    InBetween(steps, mine, j);
  }
}
