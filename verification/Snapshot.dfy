/** The consolidated status: dashboards of all servers folded, merged, then filled in by the clients. */
module Snapshot {
  import opened Text
  import opened Model
  import opened MergeStats

  // ---------- several servers, one table ----------

  function Rank(p: ProxyStatus): nat {
    (if p.status == "online" then 2 else 0) + (if p.ycfrpID != "" then 1 else 0)
  }

  predicate PreferProxy(candidate: ProxyStatus, current: ProxyStatus) {
    Rank(candidate) > Rank(current)
  }

  /** Dashboard `i` holds the record of `name` to keep: no other ranks higher, no earlier one as high. */
  ghost predicate FirstBest(dashboards: seq<Stats>, name: string, i: int) {
    && 0 <= i < |dashboards| && name in dashboards[i]
    && forall j | 0 <= j < |dashboards| && name in dashboards[j] ::
         Rank(dashboards[j][name]) <= Rank(dashboards[i][name])
         && (j < i ==> Rank(dashboards[j][name]) < Rank(dashboards[i][name]))
  }

  ghost predicate IsFold(dashboards: seq<Stats>, stats: Stats) {
    && (forall name | name in stats :: exists i :: FirstBest(dashboards, name, i) && stats[name] == dashboards[i][name])
    && (forall i, name | 0 <= i < |dashboards| && name in dashboards[i] :: name in stats)
  }

  method FoldDashboards(dashboards: seq<Stats>) returns (stats: Stats)
    ensures IsFold(dashboards, stats)
  {
    stats := map[];
    for n := 0 to |dashboards|
      invariant IsFold(dashboards[..n], stats)
    {
      stats := FoldOne(dashboards[..n], dashboards[n], stats);
      assert dashboards[..n] + [dashboards[n]] == dashboards[..n + 1];
    }
    assert dashboards[..|dashboards|] == dashboards;
  }

  method FoldOne(ghost before: seq<Stats>, dash: Stats, stats0: Stats) returns (stats: Stats)
    requires IsFold(before, stats0)
    ensures IsFold(before + [dash], stats)
  {
    stats := stats0;
    var todo := dash.Keys;
    while todo != {}
      invariant todo <= dash.Keys
      invariant forall k :: k in stats <==> k in stats0 || (k in dash && k !in todo)
      invariant forall k | k in stats :: stats[k] == if k in todo then stats0[k] else Better(stats0, dash, k)
      decreases todo
    {
      var k :| k in todo;
      if !(k in stats && !PreferProxy(dash[k], stats[k])) {
        stats := stats[k := dash[k]];
      }
      todo := todo - {k};
    }
    FoldStep(before, dash, stats0, stats);
  }

  function Better(stats: Stats, dash: Stats, k: string): ProxyStatus
    requires k in stats || k in dash
  {
    if k in dash && (k !in stats || PreferProxy(dash[k], stats[k])) then dash[k] else stats[k]
  }

  lemma FoldStep(before: seq<Stats>, dash: Stats, stats0: Stats, stats: Stats)
    requires IsFold(before, stats0)
    requires forall k :: k in stats <==> k in stats0 || k in dash
    requires forall k | k in stats :: stats[k] == Better(stats0, dash, k)
    ensures IsFold(before + [dash], stats)
  {
    var all := before + [dash];
    forall k | k in stats ensures exists i :: FirstBest(all, k, i) && stats[k] == all[i][k] {
      if k in stats0 {
        var i :| FirstBest(before, k, i) && stats0[k] == before[i][k];
        assert all[i] == before[i];
        assert FirstBest(all, k, if stats[k] == stats0[k] && !(k in dash && PreferProxy(dash[k], stats0[k])) then i else |before|);
      } else {
        assert FirstBest(all, k, |before|);
      }
    }
  }

  /** A stale offline record never hides an online one, wherever the two servers stand. */
  lemma OnlineIsNeverHidden(dashboards: seq<Stats>, stats: Stats, j: nat, name: string)
    requires IsFold(dashboards, stats)
    requires j < |dashboards| && name in dashboards[j] && dashboards[j][name].status == "online"
    ensures name in stats && stats[name].status == "online"
    ensures dashboards[j][name].ycfrpID != "" ==> stats[name].ycfrpID != ""
  {
    var i :| FirstBest(dashboards, name, i) && stats[name] == dashboards[i][name];
    assert Rank(dashboards[j][name]) <= Rank(dashboards[i][name]);
  }

  /** The order of the servers decides neither which names appear nor how good a record each one gets. */
  lemma RankIgnoresServerOrder(a: seq<Stats>, b: seq<Stats>, sa: Stats, sb: Stats)
    requires IsFold(a, sa) && IsFold(b, sb)
    requires forall d :: d in a <==> d in b
    ensures sa.Keys == sb.Keys
    ensures forall name | name in sa :: Rank(sa[name]) == Rank(sb[name])
  {
    forall name | name in sa ensures name in sb && Rank(sa[name]) <= Rank(sb[name]) {
      RankIsReached(a, b, sa, sb, name);
    }
    forall name | name in sb ensures name in sa && Rank(sb[name]) <= Rank(sa[name]) {
      RankIsReached(b, a, sb, sa, name);
    }
  }

  lemma RankIsReached(a: seq<Stats>, b: seq<Stats>, sa: Stats, sb: Stats, name: string)
    requires IsFold(a, sa) && IsFold(b, sb) && name in sa
    requires forall d | d in a :: d in b
    ensures name in sb && Rank(sa[name]) <= Rank(sb[name])
  {
    var i :| FirstBest(a, name, i) && sa[name] == a[i][name];
    assert a[i] in b;
    var j :| 0 <= j < |b| && b[j] == a[i];
    assert name in sb;
    var k :| FirstBest(b, name, k) && sb[name] == b[k][name];
  }

  // ---------- what the clients report ----------

  datatype Report = Report(phase: string, err: string, remoteAddr: string)

  /** A running client's own view, by proxy name. */
  datatype Client = Client(instanceID: string, reports: map<string, Report>)

  function ClientPhase(phase: string): string {
    var p := Lower(Trim(phase));
    if p == "running" then "online" else
    if p == "" then "" else
    if p in ["start error", "check failed"] then p else phase
  }

  function FillRow(t: Tunnel, c: Client): Tunnel {
    if t.instanceID != c.instanceID || t.name !in c.reports then t else
      var st := c.reports[t.name];
      var u := if st.err != "" then
                 t.(err := st.err, status := if t.status == "online" then t.status else "start error")
               else if t.status == "" then t.(status := ClientPhase(st.phase)) else t;
      if u.remoteAddr == "" then u.(remoteAddr := st.remoteAddr) else u
  }

  method FillClientStatus(c: Client, rows: array<Tunnel>)
    modifies rows
    ensures forall i | 0 <= i < rows.Length :: rows[i] == FillRow(old(rows[i]), c)
  {
    for i := 0 to rows.Length
      invariant forall k | 0 <= k < rows.Length :: rows[k] == if k < i then FillRow(old(rows[k]), c) else old(rows[k])
    {
      if rows[i].instanceID == c.instanceID && rows[i].name in c.reports {
        var st := c.reports[rows[i].name];
        if st.err != "" {
          rows[i] := rows[i].(err := st.err);
          if rows[i].status != "online" {
            rows[i] := rows[i].(status := "start error");
          }
        } else if rows[i].status == "" {
          rows[i] := rows[i].(status := ClientPhase(st.phase));
        }
        if rows[i].remoteAddr == "" {
          rows[i] := rows[i].(remoteAddr := st.remoteAddr);
        }
      }
    }
  }

  function FillAll(t: Tunnel, clients: seq<Client>): Tunnel {
    if clients == [] then t else FillRow(FillAll(t, clients[..|clients| - 1]), clients[|clients| - 1])
  }

  function Labelled(t: Tunnel): Tunnel {
    if t.status != "" then t else t.(status := if !t.external && !t.enabled then "not running" else "offline")
  }

  function FinalRow(t: Tunnel, clients: seq<Client>): Tunnel {
    Labelled(FillAll(t, clients))
  }

  /** The tunnel part of Engine.Snapshot. */
  method SnapshotTunnels(tunnels: seq<Tunnel>, dashboards: seq<Stats>, clients: seq<Client>)
    returns (rows: array<Tunnel>, ghost stats: Stats, ghost merged: seq<Tunnel>, ghost tr: Trace)
    ensures fresh(rows) && IsFold(dashboards, stats)
    ensures if stats == map[] then merged == tunnels else IsMerge(tunnels, stats, merged, tr)
    ensures rows.Length == |merged|
    ensures forall i | 0 <= i < |merged| :: rows[i] == FinalRow(merged[i], clients)
  {
    var table := FoldDashboards(dashboards);
    stats := table;
    var list := tunnels;
    tr := Trace(map[], [], []);
    if table != map[] {
      list, tr := Merge(tunnels, table);
    }
    merged := list;
    rows := new Tunnel[|list|](i requires 0 <= i < |list| => list[i]);
    for n := 0 to |clients|
      invariant forall i | 0 <= i < |merged| :: rows[i] == FillAll(merged[i], clients[..n])
    {
      assert clients[..n + 1][..n] == clients[..n];
      FillClientStatus(clients[n], rows);
    }
    assert clients[..|clients|] == clients;
    for i := 0 to rows.Length
      invariant forall k | 0 <= k < |merged| ::
                  rows[k] == if k < i then FinalRow(merged[k], clients) else FillAll(merged[k], clients)
    {
      if rows[i].status == "" {
        if rows[i].external {
          rows[i] := rows[i].(status := "offline");
        } else if !rows[i].enabled {
          rows[i] := rows[i].(status := "not running");
        } else {
          rows[i] := rows[i].(status := "offline");
        }
      }
    }
  }

  /** Filling in never touches what a row is, never takes "online" back, and drops no other status but on an error. */
  ghost predicate SoundlyFilled(t: Tunnel, u: Tunnel) {
    && u.id == t.id && u.name == t.name && u.instanceID == t.instanceID
    && u.enabled == t.enabled && u.external == t.external
    && u.todayIn == t.todayIn && u.todayOut == t.todayOut && u.curConns == t.curConns
    && (t.status == "online" ==> u.status == "online")
    && (t.status != "" && u.status != t.status ==> u.status == "start error" && u.err != "")
    && (t.err != "" ==> u.err != "")
    && (t.remoteAddr != "" ==> u.remoteAddr == t.remoteAddr)
  }

  lemma OneFillIsSound(t: Tunnel, c: Client)
    ensures SoundlyFilled(t, FillRow(t, c))
  {
  }

  lemma {:induction false} FillingIsSound(t: Tunnel, clients: seq<Client>)
    ensures SoundlyFilled(t, FillAll(t, clients))
  {
    if clients != [] {
      FillingIsSound(t, clients[..|clients| - 1]);
      OneFillIsSound(FillAll(t, clients[..|clients| - 1]), clients[|clients| - 1]);
    }
  }

  lemma EveryRowEndsWithAStatus(t: Tunnel, clients: seq<Client>)
    ensures FinalRow(t, clients).status != ""
    ensures t.status == "online" ==> FinalRow(t, clients).status == "online"
    ensures FinalRow(t, clients).id == t.id
  {
    FillingIsSound(t, clients);
  }

  /** A tunnel one of the servers reports online under its own metadata is shown online. */
  lemma OnlineReachesThePanel(tunnels: seq<Tunnel>, dashboards: seq<Stats>, clients: seq<Client>,
                              stats: Stats, merged: seq<Tunnel>, tr: Trace, i: nat, j: nat, name: string)
    requires IsFold(dashboards, stats) && IsMerge(tunnels, stats, merged, tr) && CleanMetadata(stats)
    requires i < |tunnels| && j < |dashboards| && name in dashboards[j]
    requires dashboards[j][name].status == "online" && dashboards[j][name].ycfrpID == tunnels[i].id != ""
    requires forall d: Stats | d in dashboards && name in d :: d[name].ycfrpID in ["", tunnels[i].id]
    ensures FinalRow(merged[i], clients).status == "online"
  {
    OnlineIsNeverHidden(dashboards, stats, j, name);
    var b :| FirstBest(dashboards, name, b) && stats[name] == dashboards[b][name];
    assert dashboards[b] in dashboards;
    OwnProxyIsClaimed(tunnels, stats, merged, tr, i, name);
    EveryRowEndsWithAStatus(merged[i], clients);
  }

  // ---------- the panel's own list on top ----------

  method IndexLive(live: seq<Tunnel>) returns (byID: map<string, Tunnel>)
    ensures byID == Indexed(live, |live|)
  {
    byID := map[];
    for i := 0 to |live|
      invariant byID == Indexed(live, i)
    {
      byID := byID[live[i].id := live[i]];
    }
  }

  ghost function Indexed(live: seq<Tunnel>, n: nat): map<string, Tunnel>
    requires n <= |live|
  {
    if n == 0 then map[] else Indexed(live, n - 1)[live[n - 1].id := live[n - 1]]
  }

  /** The last of the first n rows that carry the id. */
  function LastRow(rows: seq<Tunnel>, n: nat, id: string): (r: Option<Tunnel>)
    requires n <= |rows|
    ensures r.Some? ==> r.value.id == id
  {
    if n == 0 then None else if rows[n - 1].id == id then Some(rows[n - 1]) else LastRow(rows, n - 1, id)
  }

  lemma {:induction false} IndexedIsLast(live: seq<Tunnel>, n: nat, id: string)
    requires n <= |live|
    ensures if id in Indexed(live, n) then LastRow(live, n, id) == Some(Indexed(live, n)[id]) else LastRow(live, n, id).None?
  {
    if n != 0 {
      IndexedIsLast(live, n - 1, id);
    }
  }

  /** What is left of the live rows, in the arbitrary order of the map. */
  method Leftovers(byID: map<string, Tunnel>) returns (rest: seq<Tunnel>)
    requires forall id | id in byID :: byID[id].id == id
    ensures forall t | t in rest :: t.id in byID && byID[t.id] == t
    ensures forall id | id in byID :: byID[id] in rest
    ensures DistinctIds(rest)
  {
    rest := [];
    var todo := byID.Keys;
    while todo != {}
      invariant todo <= byID.Keys
      invariant forall t | t in rest :: t.id in byID && t.id !in todo && byID[t.id] == t
      invariant forall id | id in byID && id !in todo :: byID[id] in rest
      invariant DistinctIds(rest)
      decreases todo
    {
      var id :| id in todo;
      rest := rest + [byID[id]];
      todo := todo - {id};
    }
  }

  /** One of the first n rows carries the id. */
  predicate Among(rows: seq<Tunnel>, n: nat, id: string)
    requires n <= |rows|
  {
    n != 0 && (rows[n - 1].id == id || Among(rows, n - 1, id))
  }

  lemma {:induction false} AmongAt(rows: seq<Tunnel>, n: nat, i: nat)
    requires i < n <= |rows|
    ensures Among(rows, n, rows[i].id)
  {
    if i < n - 1 {
      AmongAt(rows, n - 1, i);
    }
  }

  lemma {:induction false} NotAmong(rows: seq<Tunnel>, n: nat, i: nat, id: string)
    requires i < n <= |rows| && !Among(rows, n, id)
    ensures rows[i].id != id
  {
    if i < n - 1 {
      NotAmong(rows, n - 1, i, id);
    }
  }

  /** The i-th stored row as it is shown: the last live row of its id, unless an earlier stored row took that one. */
  function Shown(live: seq<Tunnel>, stored: seq<Tunnel>, i: nat): (t: Tunnel)
    requires i < |stored|
    ensures t.id == stored[i].id
  {
    var row := LastRow(live, |live|, stored[i].id);
    if row.Some? && !Among(stored, i, stored[i].id) then row.value else stored[i]
  }

  /** App.Snapshot: every stored tunnel once, live where a live row carries its id, then the live rows nobody stored. */
  method MergeStored(live: seq<Tunnel>, stored: seq<Tunnel>) returns (merged: seq<Tunnel>)
    ensures |stored| <= |merged|
    ensures forall i | 0 <= i < |stored| :: merged[i] == Shown(live, stored, i)
    ensures forall t | t in merged[|stored|..] :: LastRow(live, |live|, t.id) == Some(t) && !Among(stored, |stored|, t.id)
    ensures forall i | 0 <= i < |live| && !Among(stored, |stored|, live[i].id) ::
              LastRow(live, |live|, live[i].id).Some? && LastRow(live, |live|, live[i].id).value in merged[|stored|..]
    ensures DistinctIds(merged[|stored|..])
  {
    var all := IndexLive(live);
    var head, left := Overlay(live, all, stored);
    forall id | id in left ensures left[id].id == id { LeftIs(live, stored, |stored|, id); }
    var rest := Leftovers(left);
    merged := head + rest;
    assert merged[|stored|..] == rest;
    forall t | t in rest ensures LastRow(live, |live|, t.id) == Some(t) && !Among(stored, |stored|, t.id) {
      LeftIs(live, stored, |stored|, t.id);
    }
    forall i | 0 <= i < |live| && !Among(stored, |stored|, live[i].id)
      ensures LastRow(live, |live|, live[i].id).Some? && LastRow(live, |live|, live[i].id).value in rest
    {
      IndexedHas(live, |live|, i);
      LeftIs(live, stored, |stored|, live[i].id);
    }
  }

  lemma {:induction false} IndexedHas(live: seq<Tunnel>, n: nat, i: nat)
    requires i < n <= |live|
    ensures LastRow(live, n, live[i].id).Some?
  {
    if i < n - 1 {
      IndexedHas(live, n - 1, i);
    }
  }

  /** The live rows that the first n stored ones have not taken. */
  ghost function Left(all: map<string, Tunnel>, stored: seq<Tunnel>, n: nat): map<string, Tunnel>
    requires n <= |stored|
  {
    if n == 0 then all else Left(all, stored, n - 1) - {stored[n - 1].id}
  }

  lemma {:induction false} LeftKeeps(all: map<string, Tunnel>, stored: seq<Tunnel>, n: nat, id: string)
    requires n <= |stored|
    ensures id in Left(all, stored, n) <==> id in all && !Among(stored, n, id)
    ensures id in Left(all, stored, n) ==> Left(all, stored, n)[id] == all[id]
  {
    if n != 0 {
      LeftKeeps(all, stored, n - 1, id);
    }
  }

  lemma LeftIs(live: seq<Tunnel>, stored: seq<Tunnel>, n: nat, id: string)
    requires n <= |stored|
    ensures var left := Left(Indexed(live, |live|), stored, n);
      && (id in left <==> LastRow(live, |live|, id).Some? && !Among(stored, n, id))
      && (id in left ==> LastRow(live, |live|, id) == Some(left[id]) && left[id].id == id)
  {
    LeftKeeps(Indexed(live, |live|), stored, n, id);
    IndexedIsLast(live, |live|, id);
  }

  method Overlay(ghost live: seq<Tunnel>, all: map<string, Tunnel>, stored: seq<Tunnel>)
    returns (head: seq<Tunnel>, left: map<string, Tunnel>)
    requires all == Indexed(live, |live|)
    ensures |head| == |stored| && forall k | 0 <= k < |stored| :: head[k] == Shown(live, stored, k)
    ensures left == Left(all, stored, |stored|)
  {
    head, left := [], all;
    for i := 0 to |stored|
      invariant |head| == i && forall k | 0 <= k < i :: head[k] == Shown(live, stored, k)
      invariant left == Left(all, stored, i)
    {
      LeftIs(live, stored, i, stored[i].id);
      if stored[i].id in left {
        head := head + [left[stored[i].id]];
        left := left - {stored[i].id};
      } else {
        head := head + [stored[i]];
        NothingTaken(left, stored[i].id);
      }
    }
  }

  lemma NothingTaken<K, V>(m: map<K, V>, k: K)
    requires k !in m
    ensures m - {k} == m
  {
  }

  lemma StoredAndLeftDiffer(stored: seq<Tunnel>, merged: seq<Tunnel>, i: nat, j: nat)
    requires i < |stored| <= j < |merged| && merged[i].id == stored[i].id
    requires forall t | t in merged[|stored|..] :: !Among(stored, |stored|, t.id)
    ensures merged[i].id != merged[j].id
  {
    assert merged[|stored|..][j - |stored|] == merged[j];
    NotAmong(stored, |stored|, i, merged[j].id);
  }

  lemma LeftDiffer(merged: seq<Tunnel>, n: nat, i: nat, j: nat)
    requires n <= i < j < |merged| && DistinctIds(merged[n..])
    ensures merged[i].id != merged[j].id
  {
    assert merged[n..][i - n] == merged[i] && merged[n..][j - n] == merged[j];
  }

  /** With distinct stored ids the merged list has distinct ids. */
  lemma MergedIdsAreDistinct(stored: seq<Tunnel>, merged: seq<Tunnel>)
    requires DistinctIds(stored) && |stored| <= |merged| && DistinctIds(merged[|stored|..])
    requires forall i | 0 <= i < |stored| :: merged[i].id == stored[i].id
    requires forall t | t in merged[|stored|..] :: !Among(stored, |stored|, t.id)
    ensures DistinctIds(merged)
  {
    forall i, j | 0 <= i < j < |merged| ensures merged[i].id != merged[j].id {
      if i >= |stored| {
        LeftDiffer(merged, |stored|, i, j);
      } else if j >= |stored| {
        StoredAndLeftDiffer(stored, merged, i, j);
      } else {
        assert stored[i].id != stored[j].id;
      }
    }
  }

  /** The last row of an id is the one no later row shares the id with. */
  lemma {:induction false} LastRowIs(rows: seq<Tunnel>, n: nat, i: nat)
    requires i < n <= |rows| && forall j | i < j < n :: rows[j].id != rows[i].id
    ensures LastRow(rows, n, rows[i].id) == Some(rows[i])
  {
    if i < n - 1 {
      LastRowIs(rows, n - 1, i);
    }
  }

  lemma {:induction false} NoLastRow(rows: seq<Tunnel>, n: nat, id: string)
    requires n <= |rows| && forall j | 0 <= j < n :: rows[j].id != id
    ensures LastRow(rows, n, id) == None && !Among(rows, n, id)
  {
    if n != 0 {
      NoLastRow(rows, n - 1, id);
    }
  }

  /** A stored tunnel shows the last live row of its id; without one, or when an earlier stored tunnel has its id, it shows itself. */
  lemma StoredRowShows(live: seq<Tunnel>, stored: seq<Tunnel>, i: nat)
    requires i < |stored|
    ensures (forall k | 0 <= k < |live| :: live[k].id != stored[i].id) ==> Shown(live, stored, i) == stored[i]
    ensures (exists j :: 0 <= j < i && stored[j].id == stored[i].id) ==> Shown(live, stored, i) == stored[i]
    ensures forall k | 0 <= k < |live| && live[k].id == stored[i].id
              && (forall l | k < l < |live| :: live[l].id != live[k].id)
              && (forall j | 0 <= j < i :: stored[j].id != stored[i].id) :: Shown(live, stored, i) == live[k]
  {
    if forall k | 0 <= k < |live| :: live[k].id != stored[i].id {
      NoLastRow(live, |live|, stored[i].id);
    }
    if j :| 0 <= j < i && stored[j].id == stored[i].id {
      AmongAt(stored, i, j);
    }
    forall k | 0 <= k < |live| && live[k].id == stored[i].id
               && (forall l | k < l < |live| :: live[l].id != live[k].id)
               && (forall j | 0 <= j < i :: stored[j].id != stored[i].id)
      ensures Shown(live, stored, i) == live[k]
    {
      LastRowIs(live, |live|, k);
      NoLastRow(stored, i, stored[i].id);
    }
  }
}
