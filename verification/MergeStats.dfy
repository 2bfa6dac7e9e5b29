/**
Merging dashboard proxies into the panel's tunnel list. Go iterates maps in an arbitrary order and
sort.Slice is not stable; the methods pick arbitrarily wherever Go may, so what they promise holds
of every order.
*/
module MergeStats {
  import opened Text
  import opened Model

  type Stats = map<string, ProxyStatus>

  // ---------- one row ----------

  function RemoteAddrOf(t: Tunnel, st: ProxyStatus): string {
    if Lower(t.kind) in ["tcp", "udp"] then
      var port := if t.remotePort == 0 then st.remotePort else t.remotePort;
      if port == 0 then "" else ":" + Itoa(port)
    else if t.customDomains != [] then t.customDomains[0] else t.subdomain
  }

  /** Values configured on the panel win over what the kernel echoes. */
  function ApplyConf(t: Tunnel, st: ProxyStatus): Tunnel {
    var u := t.(localIP := if t.localIP == "" then st.localIP else t.localIP,
                localPort := if t.localPort == 0 then st.localPort else t.localPort,
                remotePort := if t.remotePort == 0 then st.remotePort else t.remotePort,
                customDomains := if t.customDomains == [] then st.customDomains else t.customDomains,
                subdomain := if t.subdomain == "" then st.subdomain else t.subdomain);
    u.(remoteAddr := RemoteAddrOf(u, st))
  }

  function Filled(t: Tunnel, st: ProxyStatus): Tunnel {
    ApplyConf(t.(status := st.status, curConns := st.curConns, todayIn := st.todayIn, todayOut := st.todayOut), st)
  }

  function KernelID(name: string, st: ProxyStatus): string {
    if st.ycfrpID != "" then st.ycfrpID else "kernel:" + name
  }

  function StripUserPrefix(user: string, name: string): string {
    if user == "" then name else TrimPrefix(name, user + ".")
  }

  /** The read-only row of a proxy no panel tunnel claims. */
  function ExternalRow(name: string, st: ProxyStatus): Tunnel {
    Filled(BLANK_TUNNEL.(id := KernelID(name, st), name := StripUserPrefix(st.user, name),
                         kind := if st.kind != "" then st.kind else st.confKind,
                         enabled := true, external := true, note := st.note), st)
  }

  // ---------- which proxy belongs to a tunnel ----------

  /** For every metadata id one dashboard key carrying it. */
  ghost predicate Indexes(byID: map<string, string>, stats: Stats) {
    && (forall id | id in byID :: id != "" && byID[id] in stats && stats[byID[id]].ycfrpID == id)
    && (forall k | k in stats && stats[k].ycfrpID != "" :: stats[k].ycfrpID in byID)
  }

  ghost predicate LeastWithSuffix(stats: Stats, suffix: string, key: Option<string>) {
    if key.None? then forall k | k in stats :: !HasSuffix(k, suffix)
    else && key.value in stats && HasSuffix(key.value, suffix)
         && forall k | k in stats && HasSuffix(k, suffix) :: AtMost(key.value, k)
  }

  /** The metadata id decides; then the plain name; then the least "<user>.<name>". */
  ghost predicate Claims(t: Tunnel, byID: map<string, string>, stats: Stats, key: Option<string>) {
    if t.id in byID then key == Some(byID[t.id])
    else if t.name in stats then key == Some(t.name)
    else LeastWithSuffix(stats, "." + t.name, key)
  }

  method IndexStats(stats: Stats) returns (byID: map<string, string>)
    ensures Indexes(byID, stats)
  {
    byID := map[];
    var todo := stats.Keys;
    while todo != {}
      invariant todo <= stats.Keys
      invariant forall id | id in byID :: id != "" && byID[id] in stats && stats[byID[id]].ycfrpID == id
      invariant forall k | k in stats && k !in todo && stats[k].ycfrpID != "" :: stats[k].ycfrpID in byID
      decreases todo
    {
      var name :| name in todo;
      var id := stats[name].ycfrpID;
      if id != "" && id !in byID {
        byID := byID[id := name];
      }
      todo := todo - {name};
    }
  }

  method LookupProxy(byID: map<string, string>, stats: Stats, t: Tunnel) returns (key: Option<string>)
    ensures Claims(t, byID, stats, key)
  {
    if t.id in byID {
      return Some(byID[t.id]);
    }
    if t.name in stats {
      return Some(t.name);
    }
    var suffix := "." + t.name;
    key := None;
    var todo := stats.Keys;
    while todo != {}
      invariant todo <= stats.Keys
      invariant key.None? ==> forall k | k in stats && k !in todo :: !HasSuffix(k, suffix)
      invariant key.Some? ==> key.value in stats && HasSuffix(key.value, suffix)
      invariant key.Some? ==> forall k | k in stats && k !in todo && HasSuffix(k, suffix) :: AtMost(key.value, k)
      decreases todo
    {
      var k :| k in todo;
      if HasSuffix(k, suffix) {
        if key.None? || !AtMost(key.value, k) {
          if key.Some? {
            LesserStaysLeast(stats, suffix, todo, key.value, k);
          } else {
            AtMostTotal(k, k);
          }
          key := Some(k);
        }
      }
      todo := todo - {k};
    }
  }

  lemma LesserStaysLeast(stats: Stats, suffix: string, todo: set<string>, prior: string, next: string)
    requires !AtMost(prior, next)
    requires forall k | k in stats && k !in todo && HasSuffix(k, suffix) :: AtMost(prior, k)
    ensures AtMost(next, next)
    ensures forall k | k in stats && k !in todo && HasSuffix(k, suffix) :: AtMost(next, k)
  {
    AtMostTotal(next, next);
    AtMostTotal(prior, next);
    forall k | k in stats && k !in todo && HasSuffix(k, suffix) ensures AtMost(next, k) {
      AtMostTransitive(next, prior, k);
    }
  }

  // ---------- the whole merge ----------

  ghost predicate Enumerates(keys: seq<string>, s: set<string>) {
    && (forall k :: k in keys <==> k in s)
    && (forall i, j | 0 <= i < j < |keys| :: keys[i] != keys[j])
  }

  ghost predicate SortedById(rows: seq<Tunnel>) {
    forall i, j | 0 <= i < j < |rows| :: AtMost(rows[i].id, rows[j].id)
  }

  /** How a merge went: the key each panel row claimed, and the order of the remaining keys. */
  datatype Trace = Trace(byID: map<string, string>, claims: seq<Option<string>>, rest: seq<string>)

  ghost function Claimed(claims: seq<Option<string>>): set<string> {
    set c | c in claims && c.Some? :: c.value
  }

  ghost predicate IsMerge(tunnels: seq<Tunnel>, stats: Stats, out: seq<Tunnel>, tr: Trace) {
    && Indexes(tr.byID, stats)
    && |tr.claims| == |tunnels| && |out| == |tunnels| + |tr.rest|
    && (forall i | 0 <= i < |tunnels| ::
          && Claims(tunnels[i], tr.byID, stats, tr.claims[i])
          && (tr.claims[i].Some? ==> tr.claims[i].value in stats)
          && out[i] == if tr.claims[i].None? then tunnels[i] else Filled(tunnels[i], stats[tr.claims[i].value]))
    && Enumerates(tr.rest, stats.Keys - Claimed(tr.claims))
    && (forall j | 0 <= j < |tr.rest| ::
          tr.rest[j] in stats && out[|tunnels| + j] == ExternalRow(tr.rest[j], stats[tr.rest[j]]))
    && SortedById(out[|tunnels|..])
  }

  method Merge(tunnels: seq<Tunnel>, stats: Stats) returns (out: seq<Tunnel>, ghost tr: Trace)
    ensures IsMerge(tunnels, stats, out, tr)
  {
    var byID := IndexStats(stats);
    var panel: seq<Tunnel> := [];
    var matched: set<string> := {};
    ghost var claims: seq<Option<string>> := [];
    for i := 0 to |tunnels|
      invariant |panel| == |claims| == i
      invariant matched == Claimed(claims)
      invariant forall j | 0 <= j < i ::
          && Claims(tunnels[j], byID, stats, claims[j])
          && (claims[j].Some? ==> claims[j].value in stats)
          && panel[j] == if claims[j].None? then tunnels[j] else Filled(tunnels[j], stats[claims[j].value])
    {
      var key := LookupProxy(byID, stats, tunnels[i]);
      ClaimedGrows(claims, key);
      claims := claims + [key];
      if key.None? {
        panel := panel + [tunnels[i]];
      } else {
        panel := panel + [Filled(tunnels[i], stats[key.value])];
        matched := matched + {key.value};
      }
    }
    var external; ghost var rest;
    external, rest := Adopt(stats, matched);
    out, tr := panel + external, Trace(byID, claims, rest);
    assert out[|tunnels|..] == external;
  }

  lemma ClaimedGrows(claims: seq<Option<string>>, key: Option<string>)
    ensures Claimed(claims + [key]) == Claimed(claims) + if key.Some? then {key.value} else {}
  {
    forall k | k in Claimed(claims) ensures k in Claimed(claims + [key]) {
      assert Some(k) in claims + [key];
    }
    if key.Some? {
      assert (claims + [key])[|claims|] == key;
    }
  }

  /** The rows of the proxies nobody claimed, sorted by id: any sorted arrangement of them. */
  method Adopt(stats: Stats, matched: set<string>) returns (rows: seq<Tunnel>, ghost keys: seq<string>)
    ensures Enumerates(keys, stats.Keys - matched) && |rows| == |keys|
    ensures forall j | 0 <= j < |keys| :: keys[j] in stats && rows[j] == ExternalRow(keys[j], stats[keys[j]])
    ensures SortedById(rows)
  {
    rows, keys := [], [];
    var todo := stats.Keys - matched;
    while todo != {}
      invariant todo <= stats.Keys - matched
      invariant Enumerates(keys, stats.Keys - matched - todo) && |rows| == |keys|
      invariant forall j | 0 <= j < |keys| :: keys[j] in stats && rows[j] == ExternalRow(keys[j], stats[keys[j]])
      invariant SortedById(rows)
      invariant forall j, k | 0 <= j < |rows| && k in todo :: AtMost(rows[j].id, IdOf(stats, k))
      decreases todo
    {
      LeastIdExists(stats, todo);
      var k :| k in todo && forall o | o in todo :: AtMost(IdOf(stats, k), IdOf(stats, o));
      ExternalRowHasId(stats, k);
      OneMoreKey(keys, stats.Keys - matched, todo, k);
      OneMoreSorted(rows, ExternalRow(k, stats[k]));
      rows, keys := rows + [ExternalRow(k, stats[k])], keys + [k];
      todo := todo - {k};
    }
    assert stats.Keys - matched - todo == stats.Keys - matched;
  }

  lemma OneMoreKey(keys: seq<string>, all: set<string>, todo: set<string>, k: string)
    requires k in todo && todo <= all && Enumerates(keys, all - todo)
    ensures Enumerates(keys + [k], all - (todo - {k}))
  {
  }

  lemma OneMoreSorted(rows: seq<Tunnel>, row: Tunnel)
    requires SortedById(rows) && forall j | 0 <= j < |rows| :: AtMost(rows[j].id, row.id)
    ensures SortedById(rows + [row])
  {
    AtMostTotal(row.id, row.id);
  }

  function IdOf(stats: Stats, k: string): string
    requires k in stats
  {
    KernelID(k, stats[k])
  }

  lemma ExternalRowHasId(stats: Stats, k: string)
    requires k in stats
    ensures ExternalRow(k, stats[k]).id == IdOf(stats, k)
  {
  }

  lemma LeastIdExists(stats: Stats, s: set<string>)
    requires s != {} && s <= stats.Keys
    ensures exists k :: k in s && forall o | o in s :: AtMost(IdOf(stats, k), IdOf(stats, o))
  {
    var k :| k in s;
    AtMostTotal(IdOf(stats, k), IdOf(stats, k));
    if s == {k} {
    } else {
      LeastIdExists(stats, s - {k});
      var m :| m in s - {k} && forall o | o in s - {k} :: AtMost(IdOf(stats, m), IdOf(stats, o));
      var least := if AtMost(IdOf(stats, k), IdOf(stats, m)) then k else m;
      AtMostTotal(IdOf(stats, m), IdOf(stats, k));
      forall o | o in s ensures AtMost(IdOf(stats, least), IdOf(stats, o)) {
        if o != k { AtMostTransitive(IdOf(stats, least), IdOf(stats, m), IdOf(stats, o)); }
      }
    }
  }

  // ---------- nothing is lost ----------

  /** Every dashboard proxy is claimed by a panel row or is exactly one external row, never both. */
  lemma NothingIsLost(tunnels: seq<Tunnel>, stats: Stats, out: seq<Tunnel>, tr: Trace, k: string)
    requires IsMerge(tunnels, stats, out, tr) && k in stats
    ensures (exists i :: 0 <= i < |tunnels| && tr.claims[i] == Some(k)) <==> k !in tr.rest
    ensures k in tr.rest ==>
              exists j :: (&& 0 <= j < |tr.rest| && tr.rest[j] == k
                           && out[|tunnels| + j] == ExternalRow(k, stats[k])
                           && forall j' | 0 <= j' < |tr.rest| && tr.rest[j'] == k :: j' == j)
    ensures |out| == |tunnels| + |stats.Keys - Claimed(tr.claims)|
  {
    if k in Claimed(tr.claims) {
      assert Some(k) in tr.claims;
      var i :| 0 <= i < |tr.claims| && tr.claims[i] == Some(k);
    }
    EnumerationLength(tr.rest, stats.Keys - Claimed(tr.claims));
  }

  lemma EnumerationLength(keys: seq<string>, s: set<string>)
    requires Enumerates(keys, s)
    ensures |keys| == |s|
  {
    if keys != [] {
      var rest, last := keys[..|keys| - 1], keys[|keys| - 1];
      assert keys == rest + [last];
      assert Enumerates(rest, s - {last});
      EnumerationLength(rest, s - {last});
    } else {
      assert s == {};
    }
  }

  /** The panel's own rows keep their order, ids, names and owners. */
  lemma PanelRowsKeepTheirIdentity(tunnels: seq<Tunnel>, stats: Stats, out: seq<Tunnel>, tr: Trace, i: nat)
    requires IsMerge(tunnels, stats, out, tr) && i < |tunnels|
    ensures out[i].id == tunnels[i].id && out[i].name == tunnels[i].name
    ensures out[i].instanceID == tunnels[i].instanceID && out[i].enabled == tunnels[i].enabled
    ensures out[i].external == tunnels[i].external
  {
  }

  // ---------- the result does not depend on any order ----------

  /** No two proxies carry one metadata id. */
  ghost predicate DistinctMetadata(stats: Stats) {
    forall j, k | j in stats && k in stats && j != k && stats[j].ycfrpID != "" :: stats[j].ycfrpID != stats[k].ycfrpID
  }

  /** And none carries an id made up for another. */
  ghost predicate CleanMetadata(stats: Stats) {
    && DistinctMetadata(stats)
    && (forall k | k in stats :: !HasPrefix(stats[k].ycfrpID, "kernel:"))
  }

  lemma KernelIDsDiffer(stats: Stats, j: string, k: string)
    requires CleanMetadata(stats) && j in stats && k in stats && j != k
    ensures IdOf(stats, j) != IdOf(stats, k)
  {
    assert ("kernel:" + j)[7..] == j && ("kernel:" + k)[7..] == k;
    assert HasPrefix("kernel:" + j, "kernel:") && HasPrefix("kernel:" + k, "kernel:");
  }

  lemma ClaimIsUnique(t: Tunnel, byID: map<string, string>, stats: Stats, a: Option<string>, b: Option<string>)
    requires Claims(t, byID, stats, a) && Claims(t, byID, stats, b)
    ensures a == b
  {
    if t.id !in byID && t.name !in stats && a.Some? && b.Some? {
      AtMostAntisymmetric(a.value, b.value);
    }
  }

  lemma IndexIsUnique(a: map<string, string>, b: map<string, string>, stats: Stats)
    requires DistinctMetadata(stats) && Indexes(a, stats) && Indexes(b, stats)
    ensures a == b
  {
    forall id | id in a ensures id in b && a[id] == b[id] {
      assert stats[a[id]].ycfrpID == id;
    }
    forall id | id in b ensures id in a {
      assert stats[b[id]].ycfrpID == id;
    }
  }

  /** Two sorted enumerations of one set of keys are the same. */
  lemma {:induction false} SortedEnumerationIsUnique(stats: Stats, s: set<string>, a: seq<string>, b: seq<string>)
    requires CleanMetadata(stats) && s <= stats.Keys
    requires Enumerates(a, s) && Enumerates(b, s)
    requires forall i, j | 0 <= i < j < |a| :: a[i] in stats && a[j] in stats && AtMost(IdOf(stats, a[i]), IdOf(stats, a[j]))
    requires forall i, j | 0 <= i < j < |b| :: b[i] in stats && b[j] in stats && AtMost(IdOf(stats, b[i]), IdOf(stats, b[j]))
    ensures a == b
    decreases |a|
  {
    EnumerationLength(a, s);
    EnumerationLength(b, s);
    if a != [] {
      var x, y := a[0], b[0];
      if x != y {
        assert x in b && y in a;
        var i :| 0 <= i < |b| && b[i] == x;
        var j :| 0 <= j < |a| && a[j] == y;
        AtMostAntisymmetric(IdOf(stats, x), IdOf(stats, y));
        KernelIDsDiffer(stats, x, y);
      }
      assert a == [x] + a[1..] && b == [x] + b[1..];
      assert Enumerates(a[1..], s - {x}) && Enumerates(b[1..], s - {x});
      SortedEnumerationIsUnique(stats, s - {x}, a[1..], b[1..]);
    }
  }

  /** Whatever orders the maps are walked in, and however ties are sorted, the outcome is one and the same. */
  lemma MergeIgnoresMapOrder(tunnels: seq<Tunnel>, stats: Stats,
                             out1: seq<Tunnel>, tr1: Trace, out2: seq<Tunnel>, tr2: Trace)
    requires CleanMetadata(stats)
    requires IsMerge(tunnels, stats, out1, tr1) && IsMerge(tunnels, stats, out2, tr2)
    ensures out1 == out2 && tr1 == tr2
  {
    IndexIsUnique(tr1.byID, tr2.byID, stats);
    forall i | 0 <= i < |tunnels| ensures tr1.claims[i] == tr2.claims[i] {
      ClaimIsUnique(tunnels[i], tr1.byID, stats, tr1.claims[i], tr2.claims[i]);
    }
    assert tr1.claims == tr2.claims;
    RestIsSorted(tunnels, stats, out1, tr1);
    RestIsSorted(tunnels, stats, out2, tr2);
    SortedEnumerationIsUnique(stats, stats.Keys - Claimed(tr1.claims), tr1.rest, tr2.rest);
    forall i | 0 <= i < |out1| ensures out1[i] == out2[i] {
      if i >= |tunnels| {
        assert out1[|tunnels| + (i - |tunnels|)] == ExternalRow(tr1.rest[i - |tunnels|], stats[tr1.rest[i - |tunnels|]]);
        assert out2[|tunnels| + (i - |tunnels|)] == ExternalRow(tr2.rest[i - |tunnels|], stats[tr2.rest[i - |tunnels|]]);
      }
    }
  }

  lemma RestIsSorted(tunnels: seq<Tunnel>, stats: Stats, out: seq<Tunnel>, tr: Trace)
    requires IsMerge(tunnels, stats, out, tr)
    ensures forall i, j | 0 <= i < j < |tr.rest| :: tr.rest[i] in stats && tr.rest[j] in stats
              && AtMost(IdOf(stats, tr.rest[i]), IdOf(stats, tr.rest[j]))
  {
    forall i, j | 0 <= i < j < |tr.rest|
      ensures tr.rest[i] in stats && tr.rest[j] in stats && AtMost(IdOf(stats, tr.rest[i]), IdOf(stats, tr.rest[j]))
    {
      RestRow(tunnels, stats, out, tr, i);
      RestRow(tunnels, stats, out, tr, j);
      assert AtMost(out[|tunnels|..][i].id, out[|tunnels|..][j].id);
    }
  }

  lemma RestRow(tunnels: seq<Tunnel>, stats: Stats, out: seq<Tunnel>, tr: Trace, j: nat)
    requires IsMerge(tunnels, stats, out, tr) && j < |tr.rest|
    ensures tr.rest[j] in stats && |tunnels| + j < |out| && out[|tunnels|..][j].id == IdOf(stats, tr.rest[j])
  {
    assert out[|tunnels|..][j] == out[|tunnels| + j];
    assert out[|tunnels| + j] == ExternalRow(tr.rest[j], stats[tr.rest[j]]);
  }

  // ---------- ids stay distinct ----------

  ghost predicate DistinctIds(rows: seq<Tunnel>) {
    forall i, j | 0 <= i < j < |rows| :: rows[i].id != rows[j].id
  }

  /** The proxy whose metadata names a panel row belongs to that row. */
  lemma OwnProxyIsClaimed(tunnels: seq<Tunnel>, stats: Stats, out: seq<Tunnel>, tr: Trace, i: nat, k: string)
    requires IsMerge(tunnels, stats, out, tr) && CleanMetadata(stats)
    requires i < |tunnels| && k in stats && stats[k].ycfrpID == tunnels[i].id != ""
    ensures tr.claims[i] == Some(k) && out[i] == Filled(tunnels[i], stats[k])
    ensures k !in tr.rest
  {
    assert stats[tr.byID[tunnels[i].id]].ycfrpID == stats[k].ycfrpID;
    assert tr.claims[i] in tr.claims;
  }

  lemma ResultIdsAreDistinct(tunnels: seq<Tunnel>, stats: Stats, out: seq<Tunnel>, tr: Trace)
    requires IsMerge(tunnels, stats, out, tr)
    requires CleanMetadata(stats) && DistinctIds(tunnels)
    requires forall t | t in tunnels :: !HasPrefix(t.id, "kernel:")
    ensures DistinctIds(out)
  {
    var n := |tunnels|;
    forall i, j | 0 <= i < j < |out| ensures out[i].id != out[j].id {
      if j < n {
        PanelRowsKeepTheirIdentity(tunnels, stats, out, tr, i);
        PanelRowsKeepTheirIdentity(tunnels, stats, out, tr, j);
      } else if i < n {
        PanelRowsKeepTheirIdentity(tunnels, stats, out, tr, i);
        var k := tr.rest[j - n];
        assert out[n + (j - n)] == ExternalRow(k, stats[k]);
        assert tunnels[i] in tunnels;
        if stats[k].ycfrpID == "" {
          assert HasPrefix("kernel:" + k, "kernel:");
        } else if stats[k].ycfrpID == tunnels[i].id {
          OwnProxyIsClaimed(tunnels, stats, out, tr, i, k);
        }
      } else {
        var a, b := tr.rest[i - n], tr.rest[j - n];
        assert out[n + (i - n)] == ExternalRow(a, stats[a]) && out[n + (j - n)] == ExternalRow(b, stats[b]);
        KernelIDsDiffer(stats, a, b);
      }
    }
  }

  lemma EitherMayBeClaimed(t: Tunnel, stats: Stats, x: string, y: string)
    requires t.id != "" && x != y && stats.Keys == {x, y}
    requires stats[x].ycfrpID == t.id && stats[y].ycfrpID == t.id
    ensures IsMerge([t], stats, [Filled(t, stats[x]), ExternalRow(y, stats[y])],
                    Trace(map[t.id := x], [Some(x)], [y]))
  {
    var claims := [Some(x)];
    assert Claimed(claims) == {x} by { assert claims[0] == Some(x); }
    assert Enumerates([y], stats.Keys - {x});
  }

  /** With one metadata id on two proxies, the order of the map does show in the result. */
  lemma SharedMetadataShowsTheOrder(t: Tunnel, st: ProxyStatus)
    requires t.id != "" && st.ycfrpID == t.id
    ensures var stats := map["a" := st.(status := "online"), "b" := st.(status := "offline")];
            exists out1: seq<Tunnel>, tr1, out2: seq<Tunnel>, tr2 ::
              IsMerge([t], stats, out1, tr1) && IsMerge([t], stats, out2, tr2) && out1[0].status != out2[0].status
  {
    var stats := map["a" := st.(status := "online"), "b" := st.(status := "offline")];
    EitherMayBeClaimed(t, stats, "a", "b");
    EitherMayBeClaimed(t, stats, "b", "a");
  }
}
