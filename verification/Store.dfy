/** The JSON-backed collection of records: a map in memory and a sorted list in a file. */
module Store {
  import opened Text

  /** What a collection knows about its records; time 0 is the zero time. */
  datatype Entity<!T> = Entity(
    id: T -> string,
    created: T -> int,
    stamp: (T, string, int, int) -> T)

  ghost predicate Lawful<T(!new)>(e: Entity<T>) {
    forall t, id, created, updated ::
      && e.id(e.stamp(t, id, created, updated)) == id
      && e.created(e.stamp(t, id, created, updated)) == if created != 0 then created else e.created(t)
  }

  datatype Outcome<+T> = Stored(record: T) | Failed(reason: string)

  const BLANK_ID := "record id must not be blank"
  const NOT_FOUND := "record does not exist"
  const NOT_WRITTEN := "file could not be written"

  // ---------- lists and maps ----------

  /** Each record sits under its own id. */
  ghost predicate Keyed<T>(e: Entity<T>, items: map<string, T>) {
    forall id | id in items :: e.id(items[id]) == id
  }

  /** Exactly the records of the map, in strictly increasing order of their ids. */
  ghost predicate IsListing<T>(e: Entity<T>, items: map<string, T>, list: seq<T>) {
    && (forall i | 0 <= i < |list| :: e.id(list[i]) in items && list[i] == items[e.id(list[i])])
    && (forall id | id in items :: exists i :: 0 <= i < |list| && e.id(list[i]) == id)
    && Ascending(e, list, |list|)
  }

  /** The ids of the first n records increase strictly. */
  ghost predicate Ascending<T>(e: Entity<T>, list: seq<T>, n: nat)
    requires n <= |list|
  {
    n < 2 || (Ascending(e, list, n - 1) && Below(e.id(list[n - 2]), e.id(list[n - 1])))
  }

  lemma {:induction false} AscendingPairs<T>(e: Entity<T>, list: seq<T>, n: nat, i: nat, j: nat)
    requires n <= |list| && Ascending(e, list, n) && i < j < n
    ensures Below(e.id(list[i]), e.id(list[j]))
  {
    if j < n - 1 {
      AscendingPairs(e, list, n - 1, i, j);
    } else if i < j - 1 {
      AscendingPairs(e, list, n - 1, i, j - 1);
      BelowTransitive(e.id(list[i]), e.id(list[j - 1]), e.id(list[j]));
    }
  }

  /** Of two records of a listing the earlier one has the smaller id. */
  lemma Earlier<T>(e: Entity<T>, items: map<string, T>, list: seq<T>, i: nat, j: nat)
    requires IsListing(e, items, list) && i < j < |list|
    ensures Below(e.id(list[i]), e.id(list[j])) && e.id(list[i]) != e.id(list[j])
  {
    AscendingPairs(e, list, |list|, i, j);
  }

  lemma {:induction false} SameStart<T>(e: Entity<T>, a: seq<T>, b: seq<T>, shift: nat, n: nat)
    requires shift + n <= |a| && n <= |b| && Ascending(e, a, shift + n)
    requires forall i | 0 <= i < n :: b[i] == a[shift + i]
    ensures Ascending(e, b, n)
  {
    if n >= 2 {
      SameStart(e, a, b, shift, n - 1);
      assert b[n - 2] == a[shift + (n - 2)] && b[n - 1] == a[shift + (n - 1)];
    }
  }

  /** Loading a file: of two records with one id the later one stays. */
  function Loaded<T>(e: Entity<T>, list: seq<T>): map<string, T> {
    if list == [] then map[] else Loaded(e, list[..|list| - 1])[e.id(list[|list| - 1]) := list[|list| - 1]]
  }

  lemma {:induction false} LoadedIsKeyed<T>(e: Entity<T>, list: seq<T>)
    ensures Keyed(e, Loaded(e, list))
    ensures forall id :: id in Loaded(e, list) <==> exists i :: 0 <= i < |list| && e.id(list[i]) == id
    ensures forall id | id in Loaded(e, list) :: Loaded(e, list)[id] in list
  {
    if list != [] {
      var rest, last := list[..|list| - 1], list[|list| - 1];
      assert list == rest + [last];
      LoadedIsKeyed(e, rest);
      forall id | id in Loaded(e, list) ensures exists i :: 0 <= i < |list| && e.id(list[i]) == id {
        if id != e.id(last) {
          var i :| 0 <= i < |rest| && e.id(rest[i]) == id;
          assert list[i] == rest[i];
        }
      }
      forall i | 0 <= i < |list| ensures e.id(list[i]) in Loaded(e, list) {
        if i < |rest| { assert rest[i] == list[i]; }
      }
    }
  }

  /** Of the records of one id the last in the file is the one in memory. */
  lemma {:induction false} LastRecordStays<T>(e: Entity<T>, list: seq<T>, i: nat)
    requires i < |list| && forall j | i < j < |list| :: e.id(list[j]) != e.id(list[i])
    ensures e.id(list[i]) in Loaded(e, list) && Loaded(e, list)[e.id(list[i])] == list[i]
  {
    if i < |list| - 1 {
      LastRecordStays(e, list[..|list| - 1], i);
    }
  }

  /** Loading what was listed gives the map back: the file round trip. */
  lemma LoadingTheListing<T>(e: Entity<T>, items: map<string, T>, list: seq<T>)
    requires IsListing(e, items, list)
    ensures Loaded(e, list) == items
  {
    LoadedIsKeyed(e, list);
    forall id | id in Loaded(e, list) ensures id in items && Loaded(e, list)[id] == items[id] {
      var r := Loaded(e, list)[id];
      var i :| 0 <= i < |list| && list[i] == r;
    }
  }

  /** There is only one listing, so the order in which Go walks the map does not show. */
  lemma {:induction false} ListingIsUnique<T>(e: Entity<T>, items: map<string, T>, a: seq<T>, b: seq<T>)
    requires IsListing(e, items, a) && IsListing(e, items, b)
    ensures a == b
    decreases |a|
  {
    if a == [] {
      ListedIsThere(e, items, b);
    } else {
      var x := e.id(a[0]);
      assert x in items;
      assert b != [] by { var j :| 0 <= j < |b| && e.id(b[j]) == x; }
      FirstIsLeast(e, items, a);
      FirstIsLeast(e, items, b);
      AtMostAntisymmetric(x, e.id(b[0]));
      var rest := items - {x};
      ListingWithoutFirst(e, items, a);
      ListingWithoutFirst(e, items, b);
      ListingIsUnique(e, rest, a[1..], b[1..]);
      assert a == [a[0]] + a[1..] && b == [b[0]] + b[1..];
    }
  }

  lemma ListedIsThere<T>(e: Entity<T>, items: map<string, T>, a: seq<T>)
    requires IsListing(e, items, a)
    ensures a != [] ==> exists id :: id in items
  {
    if a != [] { assert e.id(a[0]) in items; }
  }

  lemma FirstIsLeast<T>(e: Entity<T>, items: map<string, T>, a: seq<T>)
    requires IsListing(e, items, a) && a != []
    ensures e.id(a[0]) in items && forall id | id in items :: AtMost(e.id(a[0]), id)
  {
    forall id | id in items ensures AtMost(e.id(a[0]), id) {
      var i :| 0 <= i < |a| && e.id(a[i]) == id;
      AtMostTotal(id, id);
      if i > 0 { Earlier(e, items, a, 0, i); }
    }
  }

  lemma ListingWithoutLast<T>(e: Entity<T>, items: map<string, T>, a: seq<T>)
    requires IsListing(e, items, a) && a != []
    ensures var last := a[|a| - 1];
      && IsListing(e, items - {e.id(last)}, a[..|a| - 1]) && e.id(last) in items && items[e.id(last)] == last
      && forall id | id in items && id != e.id(last) :: Below(id, e.id(last))
  {
    var n := |a| - 1;
    var rest := items - {e.id(a[n])};
    forall id | id in rest
      ensures Below(id, e.id(a[n])) && exists i :: 0 <= i < n && e.id(a[..n][i]) == id
    {
      var i :| 0 <= i < |a| && e.id(a[i]) == id;
      assert a[..n][i] == a[i];
      Earlier(e, items, a, i, n);
    }
    forall i | 0 <= i < n ensures e.id(a[..n][i]) in rest {
      Earlier(e, items, a, i, n);
    }
    SameStart(e, a, a[..n], 0, n);
  }

  // ---------- part of a collection ----------

  ghost function Part<T>(items: map<string, T>, keep: T -> bool): map<string, T> {
    map id | id in items && keep(items[id]) :: items[id]
  }

  ghost function Filtered<T>(list: seq<T>, keep: T -> bool): seq<T> {
    if list == [] then [] else
      Filtered(list[..|list| - 1], keep) + if keep(list[|list| - 1]) then [list[|list| - 1]] else []
  }

  lemma PartWithout<T>(items: map<string, T>, keep: T -> bool, id: string)
    requires id in items
    ensures keep(items[id]) ==> Part(items, keep) == Part(items - {id}, keep)[id := items[id]]
    ensures !keep(items[id]) ==> Part(items, keep) == Part(items - {id}, keep)
  {
  }

  /** Filtering a listing, in its order, lists the part that passes. */
  lemma {:induction false} FilteredIsListing<T>(e: Entity<T>, items: map<string, T>, list: seq<T>, keep: T -> bool)
    requires IsListing(e, items, list)
    ensures IsListing(e, Part(items, keep), Filtered(list, keep))
    decreases |list|
  {
    if list == [] {
      assert forall id :: id !in items;
    } else {
      var n := |list| - 1;
      var last := list[n];
      var id := e.id(last);
      ListingWithoutLast(e, items, list);
      FilteredIsListing(e, items - {id}, list[..n], keep);
      PartWithout(items, keep, id);
      if keep(last) {
        ListingExtends(e, Part(items - {id}, keep), Filtered(list[..n], keep), last);
        assert Filtered(list, keep) == Filtered(list[..n], keep) + [last];
      } else {
        assert Filtered(list, keep) == Filtered(list[..n], keep);
      }
    }
  }

  lemma {:induction false} ListingLength<T>(e: Entity<T>, items: map<string, T>, a: seq<T>)
    requires IsListing(e, items, a)
    ensures |a| == |items|
    decreases |a|
  {
    if a == [] {
      assert items.Keys == {};
      assert |items| == |items.Keys|;
    } else {
      var last := e.id(a[|a| - 1]);
      ListingWithoutLast(e, items, a);
      ListingLength(e, items - {last}, a[..|a| - 1]);
      assert items.Keys == (items - {last}).Keys + {last};
      assert |items| == |items.Keys| && |items - {last}| == |(items - {last}).Keys|;
    }
  }

  /** A record past all the others goes to the end. */
  lemma ListingExtends<T>(e: Entity<T>, items: map<string, T>, a: seq<T>, x: T)
    requires IsListing(e, items, a) && forall id | id in items :: Below(id, e.id(x))
    ensures IsListing(e, items[e.id(x) := x], a + [x])
  {
    var b := a + [x];
    assert e.id(x) !in items;
    SameStart(e, a, b, 0, |a|);
    assert a != [] ==> Below(e.id(a[|a| - 1]), e.id(x));
    forall id | id in items ensures exists i :: 0 <= i < |b| && e.id(b[i]) == id {
      var i :| 0 <= i < |a| && e.id(a[i]) == id;
      assert b[i] == a[i];
    }
    assert b[|a|] == x;
  }

  lemma ListingWithoutFirst<T>(e: Entity<T>, items: map<string, T>, a: seq<T>)
    requires IsListing(e, items, a) && a != []
    ensures IsListing(e, items - {e.id(a[0])}, a[1..])
  {
    var rest := items - {e.id(a[0])};
    forall id | id in rest ensures exists i :: 0 <= i < |a[1..]| && e.id(a[1..][i]) == id {
      var i :| 0 <= i < |a| && e.id(a[i]) == id;
      assert a[1..][i - 1] == a[i];
    }
    forall i | 0 <= i < |a[1..]| ensures e.id(a[1..][i]) in rest {
      Earlier(e, items, a, 0, i + 1);
    }
    SameStart(e, a, a[1..], 1, |a| - 1);
  }

  /** sort.SliceStable by id over an arbitrary walk of the map. */
  method Sorted<T(!new)>(e: Entity<T>, items: map<string, T>) returns (list: seq<T>)
    requires Keyed(e, items)
    ensures IsListing(e, items, list)
  {
    list := [];
    var todo := items.Keys;
    while todo != {}
      invariant todo <= items.Keys
      invariant forall i | 0 <= i < |list| :: e.id(list[i]) in items.Keys - todo && list[i] == items[e.id(list[i])]
      invariant forall id | id in items && id !in todo :: exists i :: 0 <= i < |list| && e.id(list[i]) == id
      invariant Ascending(e, list, |list|)
      invariant forall i, id | 0 <= i < |list| && id in todo :: AtMost(e.id(list[i]), id)
      decreases todo
    {
      LeastKeyExists(todo);
      var k :| k in todo && forall o | o in todo :: AtMost(k, o);
      ghost var before := list;
      list := list + [items[k]];
      todo := todo - {k};
      assert list[|before|] == items[k];
      SameStart(e, before, list, 0, |before|);
      forall id | id in items && id !in todo ensures exists i :: 0 <= i < |list| && e.id(list[i]) == id {
        if id != k {
          var i :| 0 <= i < |before| && e.id(before[i]) == id;
          assert list[i] == before[i];
        }
      }
    }
  }

  // ---------- the collection ----------

  /** The n-th attempt to write a file goes through. */
  predicate Goes(writable: nat -> bool, n: nat) {
    writable(n)
  }

  class Collection<T(!new)> {
    var items: map<string, T>
    var file: seq<T>      // what the file would load
    var flushes: nat
    const entity: Entity<T>
    const writable: nat -> bool  // whether the n-th attempt to write the file succeeds

    ghost predicate Valid()
      reads this
    {
      Lawful(entity) && Keyed(entity, items)
    }

    /** The file holds what memory holds. */
    ghost predicate Synced()
      reads this
    {
      IsListing(entity, items, file)
    }

    constructor Load(entity: Entity<T>, writable: nat -> bool, file: seq<T>)
      requires Lawful(entity)
      ensures Valid() && this.entity == entity && this.writable == writable && flushes == 0
      ensures this.file == file && items == Loaded(entity, file)
    {
      this.entity, this.writable, this.file, flushes := entity, writable, file, 0;
      var m: map<string, T> := map[];
      for i := 0 to |file|
        invariant m == Loaded(entity, file[..i])
      {
        assert file[..i + 1][..i] == file[..i];
        m := m[entity.id(file[i]) := file[i]];
      }
      assert file[..|file|] == file;
      LoadedIsKeyed(entity, file);
      items := m;
    }

    /** NewCollection on the records of a file; a file that is not there is written at once, and that may fail. */
    static method Open(entity: Entity<T>, writable: nat -> bool, file: Option<seq<T>>)
      returns (coll: Collection<T>, err: Option<string>)
      requires Lawful(entity)
      ensures fresh(coll) && coll.Valid() && coll.entity == entity && coll.writable == writable
      ensures file.Some? ==> err.None? && coll.file == file.value && coll.items == Loaded(entity, file.value) && coll.flushes == 0
      ensures file.None? ==> coll.file == [] && coll.items == map[] && coll.flushes == 1 && (err.None? <==> Goes(writable, 0))
    {
      err := None;
      coll := new Collection<T>.Load(entity, writable, if file.Some? then file.value else []);
      if file.None? {
        var ok := coll.Flush();
        err := if ok then None else Some(NOT_WRITTEN);
        if ok { ListedIsThere(entity, coll.items, coll.file); }
      }
    }

    method List() returns (list: seq<T>)
      requires Valid()
      ensures IsListing(entity, items, list)
    {
      list := Sorted(entity, items);
    }

    /** Writes a temporary file and renames it over the old one; a failure on the way leaves the old one. */
    method Flush() returns (ok: bool)
      requires Valid()
      modifies this
      ensures Valid() && items == old(items) && flushes == old(flushes) + 1
      ensures ok == Goes(writable, old(flushes))
      ensures ok ==> Synced()
      ensures !ok ==> file == old(file)
    {
      var list := Sorted(entity, items);
      ok := Goes(writable, flushes);
      flushes := flushes + 1;
      if ok {
        file := list;
      }
    }

    /** The record Put stores: an existing record keeps its time of creation. */
    ghost function Stamped(item: T, now: int, later: int): T
      reads this
    {
      var id := entity.id(item);
      entity.stamp(item, id, if id in items then entity.created(items[id]) else now, later)
    }

    method Put(item: T, now: int, later: int) returns (r: Outcome<T>)
      requires Valid()
      modifies this
      ensures Valid()
      ensures var id := entity.id(item);
        if id == "" then r == Failed(BLANK_ID) && items == old(items) && file == old(file) && flushes == old(flushes)
        else
          && items == old(items)[id := old(Stamped(item, now, later))]
          && flushes == old(flushes) + 1
          && (if Goes(writable, old(flushes)) then r == Stored(items[id]) && Synced()
              else r == Failed(NOT_WRITTEN) && file == old(file))
    {
      var id := entity.id(item);
      if id == "" {
        return Failed(BLANK_ID);
      }
      var created := now;
      if id in items {
        created := entity.created(items[id]);
      }
      var stamped := entity.stamp(item, id, created, later);
      items := items[id := stamped];
      var ok := Flush();
      r := if ok then Stored(stamped) else Failed(NOT_WRITTEN);
    }

    method Delete(id: string) returns (err: Option<string>)
      requires Valid()
      modifies this
      ensures Valid()
      ensures if id !in old(items) then
                err == Some(NOT_FOUND) && items == old(items) && file == old(file) && flushes == old(flushes)
              else
                && items == old(items) - {id} && flushes == old(flushes) + 1
                && (if Goes(writable, old(flushes)) then err == None && Synced()
                    else err == Some(NOT_WRITTEN) && file == old(file))
    {
      if id !in items {
        return Some(NOT_FOUND);
      }
      items := items - {id};
      var ok := Flush();
      err := if ok then None else Some(NOT_WRITTEN);
    }

    method Replace(records: seq<T>) returns (err: Option<string>)
      requires Valid()
      modifies this
      ensures Valid() && items == Loaded(entity, records) && flushes == old(flushes) + 1
      ensures if Goes(writable, old(flushes)) then err == None && Synced() else err == Some(NOT_WRITTEN) && file == old(file)
    {
      var next: map<string, T> := map[];
      for i := 0 to |records|
        invariant next == Loaded(entity, records[..i])
      {
        assert records[..i + 1][..i] == records[..i];
        next := next[entity.id(records[i]) := records[i]];
      }
      assert records[..|records|] == records;
      LoadedIsKeyed(entity, records);
      items := next;
      var ok := Flush();
      err := if ok then None else Some(NOT_WRITTEN);
    }

    /** A reload of the file is the same collection, whenever the last write went through. */
    lemma ReloadIsIdentity()
      requires Valid() && Synced()
      ensures Loaded(entity, file) == items
    {
      LoadingTheListing(entity, items, file);
    }

    /** Any number of Puts, whichever writes of the file fail. */
    method PutAll(writes: seq<Write<T>>)
      requires Valid()
      modifies this
      ensures Valid() && items == Puts(entity, old(items), writes)
    {
      ghost var before := items;
      for i := 0 to |writes|
        invariant Valid() && items == Puts(entity, before, writes[..i])
      {
        assert writes[..i + 1][..i] == writes[..i];
        var r := Put(writes[i].item, writes[i].now, writes[i].later);
      }
      assert writes[..|writes|] == writes;
    }
  }

  // ---------- what survives ----------

  datatype Write<+T> = Write(item: T, now: int, later: int)

  ghost function Puts<T>(e: Entity<T>, items: map<string, T>, writes: seq<Write<T>>): map<string, T> {
    if writes == [] then items else
      var m, w := Puts(e, items, writes[..|writes| - 1]), writes[|writes| - 1];
      var id := e.id(w.item);
      if id == "" then m
      else m[id := e.stamp(w.item, id, if id in m then e.created(m[id]) else w.now, w.later)]
  }

  /** A non-zero time of creation survives every later Put, whatever the new records say and whoever they are for. */
  lemma {:induction false} CreationTimeSurvives<T(!new)>(e: Entity<T>, items: map<string, T>, writes: seq<Write<T>>, id: string)
    requires Lawful(e) && id in items && e.created(items[id]) != 0
    ensures id in Puts(e, items, writes) && e.created(Puts(e, items, writes)[id]) == e.created(items[id])
  {
    if writes != [] {
      CreationTimeSurvives(e, items, writes[..|writes| - 1], id);
    }
  }

  /** Every record stays under its own id. */
  lemma {:induction false} PutsStayKeyed<T(!new)>(e: Entity<T>, items: map<string, T>, writes: seq<Write<T>>)
    requires Lawful(e) && Keyed(e, items)
    ensures Keyed(e, Puts(e, items, writes))
  {
    if writes != [] {
      PutsStayKeyed(e, items, writes[..|writes| - 1]);
    }
  }
}
