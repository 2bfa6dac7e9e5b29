/** Exactly when the merge of the dashboards into the panel's list hides the order in which Go walks its maps. */
module MergeOrder {
  import opened Text
  import opened Model
  import opened MergeStats

  /** Whatever the panel lists, all merges of these dashboard proxies come to the same rows. */
  ghost predicate OrderNeverShows(stats: Stats) {
    forall tunnels, out1, tr1, out2, tr2 | IsMerge(tunnels, stats, out1, tr1) && IsMerge(tunnels, stats, out2, tr2) ::
      out1 == out2
  }

  /** No two proxies share a metadata id; where two share a display id, their rows are the same anyway. */
  ghost predicate OrderFree(stats: Stats) {
    && DistinctMetadata(stats)
    && forall j, k | j in stats && k in stats && j != k && IdOf(stats, j) == IdOf(stats, k) ::
         ExternalRow(j, stats[j]) == ExternalRow(k, stats[k])
  }

  /** The id each key is shown under. */
  ghost function Shown(stats: Stats): map<string, string> {
    map k | k in stats :: IdOf(stats, k)
  }

  ghost predicate SortedKeys(ids: map<string, string>, a: seq<string>) {
    && (forall i | 0 <= i < |a| :: a[i] in ids)
    && forall i, j | 0 <= i < j < |a| :: AtMost(ids[a[i]], ids[a[j]])
  }

  // ---------- the condition is enough ----------

  lemma WithoutOne(ids: map<string, string>, s: set<string>, b: seq<string>, j: nat)
    requires Enumerates(b, s) && SortedKeys(ids, b) && j < |b|
    ensures Enumerates(b[..j] + b[j + 1..], s - {b[j]}) && SortedKeys(ids, b[..j] + b[j + 1..])
  {
    var r := b[..j] + b[j + 1..];
    forall i | 0 <= i < |r| ensures r[i] == b[if i < j then i else i + 1] {
    }
    forall k | k in s - {b[j]} ensures k in r {
      var i :| 0 <= i < |b| && b[i] == k;
      assert r[if i < j then i else i - 1] == k;
    }
  }

  /** Two sorted enumerations of one set agree on the ids, place by place. */
  lemma {:induction false} SameIds(ids: map<string, string>, s: set<string>, a: seq<string>, b: seq<string>)
    requires Enumerates(a, s) && Enumerates(b, s) && SortedKeys(ids, a) && SortedKeys(ids, b)
    ensures |a| == |b| && forall i | 0 <= i < |a| :: ids[a[i]] == ids[b[i]]
    decreases |a|
  {
    EnumerationLength(a, s);
    EnumerationLength(b, s);
    if a != [] {
      assert a[0] in b;
      var j :| 0 <= j < |b| && b[j] == a[0];
      var c := b[..j] + b[j + 1..];
      WithoutOne(ids, s, a, 0);
      WithoutOne(ids, s, b, j);
      assert a[..0] + a[1..] == a[1..];
      SameIds(ids, s - {a[0]}, a[1..], c);
      UpToFirst(ids, s, a, b, j);
      Realigned(ids, a, b, j);
    }
  }

  lemma Realigned(ids: map<string, string>, a: seq<string>, b: seq<string>, j: nat)
    requires |a| == |b| && j < |b| && (forall i | 0 <= i < |a| :: a[i] in ids && b[i] in ids)
    requires forall i | 0 <= i <= j :: ids[b[i]] == ids[a[0]]
    requires var c := b[..j] + b[j + 1..]; forall i | 0 <= i < |c| :: ids[a[1..][i]] == ids[c[i]]
    ensures forall i | 0 <= i < |a| :: ids[a[i]] == ids[b[i]]
  {
    var c := b[..j] + b[j + 1..];
    forall i | 0 < i < |a| ensures ids[a[i]] == ids[b[i]] {
      assert a[1..][i - 1] == a[i] && c[i - 1] == b[if i - 1 < j then i - 1 else i];
    }
  }

  /** Whatever stands before the first key of the other enumeration has that key's id. */
  lemma UpToFirst(ids: map<string, string>, s: set<string>, a: seq<string>, b: seq<string>, j: nat)
    requires Enumerates(a, s) && Enumerates(b, s) && SortedKeys(ids, a) && SortedKeys(ids, b)
    requires a != [] && j < |b| && b[j] == a[0]
    ensures forall i | 0 <= i <= j :: ids[b[i]] == ids[a[0]]
  {
    forall i | 0 <= i <= j ensures ids[b[i]] == ids[a[0]] {
      assert b[i] in a;
      var k :| 0 <= k < |a| && a[k] == b[i];
      if i < j && k > 0 {
        AtMostAntisymmetric(ids[b[i]], ids[a[0]]);
      }
    }
  }

  lemma ClaimsAreUnique(tunnels: seq<Tunnel>, stats: Stats, out1: seq<Tunnel>, tr1: Trace, out2: seq<Tunnel>, tr2: Trace)
    requires OrderFree(stats) && IsMerge(tunnels, stats, out1, tr1) && IsMerge(tunnels, stats, out2, tr2)
    ensures tr1.claims == tr2.claims
  {
    IndexIsUnique(tr1.byID, tr2.byID, stats);
    forall i | 0 <= i < |tunnels| ensures tr1.claims[i] == tr2.claims[i] {
      ClaimIsUnique(tunnels[i], tr1.byID, stats, tr1.claims[i], tr2.claims[i]);
    }
  }

  lemma OrderFreeIsEnough(tunnels: seq<Tunnel>, stats: Stats, out1: seq<Tunnel>, tr1: Trace, out2: seq<Tunnel>, tr2: Trace)
    requires OrderFree(stats) && IsMerge(tunnels, stats, out1, tr1) && IsMerge(tunnels, stats, out2, tr2)
    ensures out1 == out2
  {
    ClaimsAreUnique(tunnels, stats, out1, tr1, out2, tr2);
    RestIsSorted(tunnels, stats, out1, tr1);
    RestIsSorted(tunnels, stats, out2, tr2);
    SameIds(Shown(stats), stats.Keys - Claimed(tr1.claims), tr1.rest, tr2.rest);
    forall i | 0 <= i < |out1| ensures out1[i] == out2[i] {
      if i >= |tunnels| {
        var j := i - |tunnels|;
        assert out1[|tunnels| + j] == ExternalRow(tr1.rest[j], stats[tr1.rest[j]]);
        assert out2[|tunnels| + j] == ExternalRow(tr2.rest[j], stats[tr2.rest[j]]);
        assert Shown(stats)[tr1.rest[j]] == Shown(stats)[tr2.rest[j]];
      }
    }
  }

  // ---------- every index leads to a merge ----------

  lemma ClaimExists(t: Tunnel, byID: map<string, string>, stats: Stats)
    requires Indexes(byID, stats)
    ensures exists key :: Claims(t, byID, stats, key) && (key.Some? ==> key.value in stats)
  {
    if t.id in byID {
      assert Claims(t, byID, stats, Some(byID[t.id]));
    } else if t.name in stats {
      assert Claims(t, byID, stats, Some(t.name));
    } else {
      var fits := set k | k in stats && HasSuffix(k, "." + t.name);
      if fits == {} {
        assert forall k | k in stats :: HasSuffix(k, "." + t.name) ==> k in fits;
        assert Claims(t, byID, stats, None);
      } else {
        LeastKeyExists(fits);
        var k :| k in fits && forall o | o in fits :: AtMost(k, o);
        assert Claims(t, byID, stats, Some(k));
      }
    }
  }

  ghost predicate AreClaims(tunnels: seq<Tunnel>, byID: map<string, string>, stats: Stats, claims: seq<Option<string>>) {
    && |claims| == |tunnels|
    && forall i | 0 <= i < |tunnels| ::
         Claims(tunnels[i], byID, stats, claims[i]) && (claims[i].Some? ==> claims[i].value in stats)
  }

  lemma {:induction false} ClaimsExist(tunnels: seq<Tunnel>, byID: map<string, string>, stats: Stats)
    requires Indexes(byID, stats)
    ensures exists claims :: AreClaims(tunnels, byID, stats, claims)
  {
    if tunnels == [] {
      assert AreClaims(tunnels, byID, stats, []);
    } else {
      var rest, last := tunnels[..|tunnels| - 1], tunnels[|tunnels| - 1];
      ClaimsExist(rest, byID, stats);
      var claims :| AreClaims(rest, byID, stats, claims);
      ClaimExists(last, byID, stats);
      var key :| Claims(last, byID, stats, key) && (key.Some? ==> key.value in stats);
      assert AreClaims(tunnels, byID, stats, claims + [key]);
    }
  }

  lemma {:induction false} SortedEnumerationExists(ids: map<string, string>, s: set<string>)
    requires s <= ids.Keys
    ensures exists a :: Enumerates(a, s) && SortedKeys(ids, a)
  {
    if s == {} {
      assert Enumerates([], s) && SortedKeys(ids, []);
    } else {
      LeastShown(ids, s);
      var k :| k in s && forall o | o in s :: AtMost(ids[k], ids[o]);
      SortedEnumerationExists(ids, s - {k});
      var a :| Enumerates(a, s - {k}) && SortedKeys(ids, a);
      assert forall i | 0 <= i < |a| :: a[i] in a;
      assert Enumerates([k] + a, s) && SortedKeys(ids, [k] + a);
    }
  }

  lemma LeastShown(ids: map<string, string>, s: set<string>)
    requires s != {} && s <= ids.Keys
    ensures exists k :: k in s && forall o | o in s :: AtMost(ids[k], ids[o])
  {
    var shown := set k | k in s :: ids[k];
    var any :| any in s;
    assert ids[any] in shown;
    LeastKeyExists(shown);
    var m :| m in shown && forall o | o in shown :: AtMost(m, o);
    var k :| k in s && ids[k] == m;
  }

  /** The rows that claims and an order of the rest amount to. */
  ghost function RowsOf(tunnels: seq<Tunnel>, stats: Stats, claims: seq<Option<string>>, rest: seq<string>): seq<Tunnel>
    requires |claims| == |tunnels| && (forall i | 0 <= i < |claims| :: claims[i].Some? ==> claims[i].value in stats)
    requires forall j | 0 <= j < |rest| :: rest[j] in stats
  {
    seq(|tunnels|, i requires 0 <= i < |tunnels| =>
      if claims[i].None? then tunnels[i] else Filled(tunnels[i], stats[claims[i].value]))
    + seq(|rest|, j requires 0 <= j < |rest| => ExternalRow(rest[j], stats[rest[j]]))
  }

  lemma RowsAreMerge(tunnels: seq<Tunnel>, stats: Stats, byID: map<string, string>, claims: seq<Option<string>>, rest: seq<string>)
    requires Indexes(byID, stats) && AreClaims(tunnels, byID, stats, claims)
    requires Enumerates(rest, stats.Keys - Claimed(claims)) && SortedKeys(Shown(stats), rest)
    ensures IsMerge(tunnels, stats, RowsOf(tunnels, stats, claims, rest), Trace(byID, claims, rest))
  {
    var out := RowsOf(tunnels, stats, claims, rest);
    forall i, j | 0 <= i < j < |rest| ensures AtMost(out[|tunnels|..][i].id, out[|tunnels|..][j].id) {
      assert out[|tunnels|..][i].id == IdOf(stats, rest[i]) && out[|tunnels|..][j].id == IdOf(stats, rest[j]);
    }
  }

  lemma MergeExists(tunnels: seq<Tunnel>, stats: Stats, byID: map<string, string>)
    requires Indexes(byID, stats)
    ensures exists out, tr :: IsMerge(tunnels, stats, out, tr) && tr.byID == byID
  {
    ClaimsExist(tunnels, byID, stats);
    var claims :| AreClaims(tunnels, byID, stats, claims);
    SortedEnumerationExists(Shown(stats), stats.Keys - Claimed(claims));
    var rest :| Enumerates(rest, stats.Keys - Claimed(claims)) && SortedKeys(Shown(stats), rest);
    RowsAreMerge(tunnels, stats, byID, claims, rest);
    assert Trace(byID, claims, rest).byID == byID;
  }

  ghost function IDs(stats: Stats): set<string> {
    set k | k in stats && stats[k].ycfrpID != "" :: stats[k].ycfrpID
  }

  ghost function SomeKey(stats: Stats, id: string): (k: string)
    requires id in IDs(stats)
    ensures k in stats && stats[k].ycfrpID == id
  {
    var k :| k in stats && stats[k].ycfrpID == id;
    k
  }

  /** Any proxy may be the one the index remembers for its metadata id. */
  lemma IndexExists(stats: Stats, x: string)
    requires x in stats && stats[x].ycfrpID != ""
    ensures exists byID :: Indexes(byID, stats) && stats[x].ycfrpID in byID && byID[stats[x].ycfrpID] == x
  {
    var byID := map id | id in IDs(stats) :: if id == stats[x].ycfrpID then x else SomeKey(stats, id);
    assert Indexes(byID, stats);
  }

  lemma SomeIndexExists(stats: Stats)
    ensures exists byID :: Indexes(byID, stats)
  {
    var byID := map id | id in IDs(stats) :: SomeKey(stats, id);
    assert Indexes(byID, stats);
  }

  // ---------- the condition is needed ----------

  /** One panel row with the shared id, one with the plain name of x. */
  ghost function Witness(stats: Stats, x: string): seq<Tunnel>
    requires x in stats
  {
    [BLANK_TUNNEL.(id := stats[x].ycfrpID), BLANK_TUNNEL.(name := x)]
  }

  /** How many rows the witness list leads to, when the index remembers z for the shared id. */
  lemma WitnessRows(stats: Stats, x: string, z: string, out: seq<Tunnel>, tr: Trace)
    requires x in stats && stats[x].ycfrpID != "" && IsMerge(Witness(stats, x), stats, out, tr)
    requires stats[x].ycfrpID in tr.byID && tr.byID[stats[x].ycfrpID] == z
    ensures z in stats && |out| == 2 + |stats.Keys - {x, z}|
  {
    assert "" !in tr.byID;
    assert tr.claims[0] == Some(z) && tr.claims[1] == Some(x);
    assert tr.claims == [Some(z), Some(x)];
    assert Claimed(tr.claims) == {x, z} by {
      assert tr.claims[0] in tr.claims && tr.claims[1] in tr.claims;
    }
    NothingIsLost(Witness(stats, x), stats, out, tr, x);
  }

  lemma WitnessMerge(stats: Stats, x: string, z: string)
    requires x in stats && z in stats && stats[x].ycfrpID == stats[z].ycfrpID != ""
    ensures exists out, tr :: IsMerge(Witness(stats, x), stats, out, tr) && |out| == 2 + |stats.Keys - {x, z}|
  {
    IndexExists(stats, z);
    var byID :| Indexes(byID, stats) && stats[z].ycfrpID in byID && byID[stats[z].ycfrpID] == z;
    MergeExists(Witness(stats, x), stats, byID);
    var out, tr :| IsMerge(Witness(stats, x), stats, out, tr) && tr.byID == byID;
    WitnessRows(stats, x, z, out, tr);
  }

  lemma SharedIdShows(stats: Stats, x: string, y: string)
    requires x in stats && y in stats && x != y && stats[x].ycfrpID == stats[y].ycfrpID != ""
    ensures !OrderNeverShows(stats)
  {
    var panel := Witness(stats, x);
    WitnessMerge(stats, x, x);
    WitnessMerge(stats, x, y);
    assert stats.Keys - {x, x} == (stats.Keys - {x, y}) + {y};
    var out1, tr1 :| IsMerge(panel, stats, out1, tr1) && |out1| == 2 + |stats.Keys - {x, x}|;
    var out2, tr2 :| IsMerge(panel, stats, out2, tr2) && |out2| == 2 + |stats.Keys - {x, y}|;
    DifferentMergesShow(panel, stats, out1, tr1, out2, tr2);
  }

  lemma SharedDisplayIdShows(stats: Stats, x: string, y: string)
    requires x in stats && y in stats && x != y && IdOf(stats, x) == IdOf(stats, y)
    requires ExternalRow(x, stats[x]) != ExternalRow(y, stats[y])
    ensures !OrderNeverShows(stats)
  {
    SomeIndexExists(stats);
    var byID :| Indexes(byID, stats);
    TwoOrders(Shown(stats), x, y);
    var a, b, i :| InTwoOrders(Shown(stats), x, y, a, b, i);
    UnclaimedRows(stats, byID, a, i);
    UnclaimedRows(stats, byID, b, i);
    var out1, tr1 :| IsMerge([], stats, out1, tr1) && |out1| == |a| && out1[i] == ExternalRow(x, stats[x]);
    var out2, tr2 :| IsMerge([], stats, out2, tr2) && |out2| == |b| && out2[i] == ExternalRow(y, stats[y]);
    DifferentMergesShow([], stats, out1, tr1, out2, tr2);
  }

  ghost predicate InTwoOrders(ids: map<string, string>, x: string, y: string, a: seq<string>, b: seq<string>, i: nat) {
    && Enumerates(a, ids.Keys) && SortedKeys(ids, a) && Enumerates(b, ids.Keys) && SortedKeys(ids, b)
    && i < |a| && i < |b| && a[i] == x && b[i] == y
  }

  /** Keys of one id may stand in either order. */
  lemma TwoOrders(ids: map<string, string>, x: string, y: string)
    requires x in ids && y in ids && x != y && ids[x] == ids[y]
    ensures exists a, b, i :: InTwoOrders(ids, x, y, a, b, i)
  {
    SortedEnumerationExists(ids, ids.Keys);
    var a :| Enumerates(a, ids.Keys) && SortedKeys(ids, a);
    assert x in a && y in a;
    var i :| 0 <= i < |a| && a[i] == x;
    var j :| 0 <= j < |a| && a[j] == y;
    Swapped(ids, ids.Keys, a, i, j);
    assert InTwoOrders(ids, x, y, a, a[i := y][j := x], i);
  }

  lemma DifferentMergesShow(tunnels: seq<Tunnel>, stats: Stats, out1: seq<Tunnel>, tr1: Trace, out2: seq<Tunnel>, tr2: Trace)
    requires IsMerge(tunnels, stats, out1, tr1) && IsMerge(tunnels, stats, out2, tr2) && out1 != out2
    ensures !OrderNeverShows(stats)
  {
  }

  /** An empty panel lists the proxies in the chosen order. */
  lemma UnclaimedRows(stats: Stats, byID: map<string, string>, a: seq<string>, i: nat)
    requires Indexes(byID, stats) && Enumerates(a, stats.Keys) && SortedKeys(Shown(stats), a) && i < |a|
    ensures a[i] in stats
    ensures exists out, tr :: IsMerge([], stats, out, tr) && |out| == |a| && out[i] == ExternalRow(a[i], stats[a[i]])
  {
    assert Claimed([]) == {} && stats.Keys - {} == stats.Keys;
    RowsAreMerge([], stats, byID, [], a);
    var out := RowsOf([], stats, [], a);
    assert out[i] == ExternalRow(a[i], stats[a[i]]);
  }

  /** Swapping two keys of one id leaves a sorted enumeration sorted. */
  lemma Swapped(ids: map<string, string>, s: set<string>, a: seq<string>, i: nat, j: nat)
    requires Enumerates(a, s) && SortedKeys(ids, a) && i < |a| && j < |a| && i != j && ids[a[i]] == ids[a[j]]
    ensures Enumerates(a[i := a[j]][j := a[i]], s) && SortedKeys(ids, a[i := a[j]][j := a[i]])
  {
    var b := a[i := a[j]][j := a[i]];
    assert forall k | 0 <= k < |a| :: b[k] in ids && ids[b[k]] == ids[a[k]];
    forall k | k in s ensures k in b {
      var n :| 0 <= n < |a| && a[n] == k;
      assert b[if n == i then j else if n == j then i else n] == k;
    }
    forall k | k in b ensures k in s {
      var n :| 0 <= n < |b| && b[n] == k;
      assert k in a;
    }
  }

  /** The merge hides the order of the maps for exactly these dashboards. */
  lemma OrderIsHiddenExactlyWhen(stats: Stats)
    ensures OrderNeverShows(stats) <==> OrderFree(stats)
  {
    if OrderFree(stats) {
      forall tunnels, out1, tr1, out2, tr2 | IsMerge(tunnels, stats, out1, tr1) && IsMerge(tunnels, stats, out2, tr2)
        ensures out1 == out2
      {
        OrderFreeIsEnough(tunnels, stats, out1, tr1, out2, tr2);
      }
    } else if !DistinctMetadata(stats) {
      var x, y :| x in stats && y in stats && x != y && stats[x].ycfrpID != "" && stats[x].ycfrpID == stats[y].ycfrpID;
      SharedIdShows(stats, x, y);
    } else {
      var x, y :| x in stats && y in stats && x != y && IdOf(stats, x) == IdOf(stats, y)
                  && ExternalRow(x, stats[x]) != ExternalRow(y, stats[y]);
      SharedDisplayIdShows(stats, x, y);
    }
  }
}
