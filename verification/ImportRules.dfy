/** What an import adds to the tunnels, and how the client instance it may create gets its name. */
module ImportRules {
  import opened Text
  import opened Model
  import opened Store
  import opened InstanceRules
  import opened Counting

  // ---------- the parsed configuration ----------

  /** The connection settings of a pasted client configuration. */
  datatype ParsedCommon = ParsedCommon(
    serverAddr: string,
    serverPort: int,
    token: string,
    user: string,
    tls: bool,
    protocol: string,
    logLevel: string)

  /** adoptClientCommon: the settings that are there replace those of a client; whether TLS is used always does. */
  function WithCommon(c: ClientConfig, common: ParsedCommon): ClientConfig {
    c.(serverAddr := if Trim(common.serverAddr) != "" then common.serverAddr else c.serverAddr,
       serverPort := if common.serverPort > 0 then common.serverPort else c.serverPort,
       token := if common.token != "" then common.token else c.token,
       user := if common.user != "" then common.user else c.user,
       transportTLS := common.tls,
       transportProto := if common.protocol != "" then common.protocol else c.transportProto,
       logLevel := if common.logLevel != "" then common.logLevel else c.logLevel)
  }

  function Adoption(common: ParsedCommon): Edit {
    EditClient((c: ClientConfig) => WithCommon(c, common))
  }

  const BY_NAME: Entity<Tunnel> := Entity(
    (t: Tunnel) => t.name, (t: Tunnel) => t.createdAt,
    (t: Tunnel, name: string, created: int, updated: int) => t.(name := name, createdAt := if created != 0 then created else t.createdAt))

  /** The supported proxies: of those with one name the first, by name. */
  ghost predicate IsParsed(proxies: seq<Option<Tunnel>>, tunnels: seq<Tunnel>) {
    && (forall i, j | 0 <= i < j < |tunnels| :: Below(tunnels[i].name, tunnels[j].name))
    && (forall i | 0 <= i < |tunnels| :: IsKept(proxies, tunnels[i]))
    && (forall k | 0 <= k < |proxies| && proxies[k].Some? :: exists i :: 0 <= i < |tunnels| && tunnels[i].name == proxies[k].value.name)
  }

  /** A supported proxy, the first of its name. */
  ghost predicate IsKept(proxies: seq<Option<Tunnel>>, t: Tunnel) {
    exists k :: IsFirst(proxies, k, t)
  }

  ghost predicate IsFirst(proxies: seq<Option<Tunnel>>, k: int, t: Tunnel) {
    && 0 <= k < |proxies| && proxies[k] == Some(t)
    && forall j | 0 <= j < k && proxies[j].Some? :: proxies[j].value.name != t.name
  }

  /** The first supported proxy of each name. */
  ghost function FirstOfEach(proxies: seq<Option<Tunnel>>): map<string, Tunnel> {
    if proxies == [] then map[] else
      var n := |proxies| - 1;
      var kept := FirstOfEach(proxies[..n]);
      if proxies[n].None? || proxies[n].value.name in kept then kept else kept[proxies[n].value.name := proxies[n].value]
  }

  lemma {:induction false} FirstOfEachIsKept(proxies: seq<Option<Tunnel>>)
    ensures var kept := FirstOfEach(proxies);
      && (forall name | name in kept :: kept[name].name == name && IsKept(proxies, kept[name]))
      && (forall k | 0 <= k < |proxies| && proxies[k].Some? :: proxies[k].value.name in kept)
  {
    if proxies != [] {
      var n := |proxies| - 1;
      var rest, kept := proxies[..n], FirstOfEach(proxies);
      FirstOfEachIsKept(rest);
      forall name | name in kept ensures kept[name].name == name && IsKept(proxies, kept[name]) {
        if name in FirstOfEach(rest) {
          var k :| IsFirst(rest, k, kept[name]);
          assert IsFirst(proxies, k, kept[name]);
        } else {
          assert forall j | 0 <= j < n && proxies[j].Some? :: rest[j].value.name in FirstOfEach(rest);
          assert IsFirst(proxies, n, kept[name]);
        }
      }
    }
  }

  /** The duplicate filter of ParseClientConfigText and the sort behind it; the rest ends up among the warnings. */
  method KeepFirst(proxies: seq<Option<Tunnel>>) returns (tunnels: seq<Tunnel>, warnings: nat)
    ensures IsParsed(proxies, tunnels) && |tunnels| + warnings == |proxies|
  {
    var kept: map<string, Tunnel> := map[];
    warnings := 0;
    for i := 0 to |proxies|
      invariant kept == FirstOfEach(proxies[..i]) && |kept| + warnings == i
    {
      assert proxies[..i + 1][..i] == proxies[..i];
      if proxies[i].None? || proxies[i].value.name in kept {
        warnings := warnings + 1;
      } else {
        NewKey(kept, proxies[i].value.name, proxies[i].value);
        kept := kept[proxies[i].value.name := proxies[i].value];
      }
    }
    assert proxies[..|proxies|] == proxies;
    FirstOfEachIsKept(proxies);
    tunnels := Sorted(BY_NAME, kept);
    ListingLength(BY_NAME, kept, tunnels);
    KeptAreParsed(proxies, kept, tunnels);
  }

  lemma KeptAreParsed(proxies: seq<Option<Tunnel>>, kept: map<string, Tunnel>, tunnels: seq<Tunnel>)
    requires IsListing(BY_NAME, kept, tunnels)
    requires forall name | name in kept :: IsKept(proxies, kept[name])
    requires forall k | 0 <= k < |proxies| && proxies[k].Some? :: proxies[k].value.name in kept
    ensures IsParsed(proxies, tunnels)
  {
    forall i | 0 <= i < |tunnels| ensures IsKept(proxies, tunnels[i]) {
      assert BY_NAME.id(tunnels[i]) == tunnels[i].name;
      assert tunnels[i].name in kept && tunnels[i] == kept[tunnels[i].name];
    }
    forall k | 0 <= k < |proxies| && proxies[k].Some?
      ensures exists i :: 0 <= i < |tunnels| && tunnels[i].name == proxies[k].value.name
    {
      var i :| 0 <= i < |tunnels| && BY_NAME.id(tunnels[i]) == proxies[k].value.name;
    }
    forall i, j | 0 <= i < j < |tunnels| ensures Below(tunnels[i].name, tunnels[j].name) {
      Earlier(BY_NAME, kept, tunnels, i, j);
    }
  }

  lemma ParsedNamesDiffer(proxies: seq<Option<Tunnel>>, tunnels: seq<Tunnel>)
    requires IsParsed(proxies, tunnels)
    ensures PairwiseNames(tunnels)
  {
  }

  // ---------- the import loop ----------

  ghost predicate PairwiseNames(list: seq<Tunnel>) {
    forall i, j | 0 <= i < j < |list| :: list[i].name != list[j].name
  }

  ghost function ExistingNames(tunnels: Tunnels, target: string): set<string> {
    set id | id in tunnels && tunnels[id].instanceID == target :: tunnels[id].name
  }

  /** Those of the first n parsed tunnels that the loop does not skip for their name. */
  ghost function Accepted(parsed: seq<Tunnel>, n: nat, existing: set<string>, overwrite: bool): seq<Tunnel>
    requires n <= |parsed|
  {
    if n == 0 then [] else
      Accepted(parsed, n - 1, existing, overwrite)
      + if parsed[n - 1].name in existing && !overwrite then [] else [parsed[n - 1]]
  }

  lemma AcceptedNext(parsed: seq<Tunnel>, n: nat, existing: set<string>, overwrite: bool)
    requires n < |parsed|
    ensures Accepted(parsed, n + 1, existing, overwrite) ==
            if parsed[n].name in existing && !overwrite then Accepted(parsed, n, existing, overwrite)
            else Accepted(parsed, n, existing, overwrite) + [parsed[n]]
  {
  }

  lemma {:induction false} AcceptedAre(parsed: seq<Tunnel>, n: nat, existing: set<string>, overwrite: bool)
    requires n <= |parsed|
    ensures var acc := Accepted(parsed, n, existing, overwrite);
      && |acc| <= n
      && (forall i | 0 <= i < |acc| :: acc[i] in parsed[..n] && (overwrite || acc[i].name !in existing))
      && (PairwiseNames(parsed) ==> PairwiseNames(acc))
  {
    if n != 0 {
      AcceptedAre(parsed, n - 1, existing, overwrite);
      assert parsed[..n] == parsed[..n - 1] + [parsed[n - 1]];
    }
  }

  ghost predicate NoneBlank(ids: nat -> string) {
    forall n :: ids(n) != ""
  }

  /** Identifiers no record has yet, each handed out once. */
  ghost predicate FreshIds(ids: nat -> string, tunnels: Tunnels) {
    && (forall n :: ids(n) != "" && ids(n) !in tunnels)
    && (forall a, b | a != b :: ids(a) != ids(b))
  }

  /** The times at which the store is asked for the n-th record, and at which it stamps it. */
  datatype Clock = Clock(now: nat -> int, later: nat -> int)

  /** The record the store makes of the n-th accepted tunnel. */
  function Row(m: Tunnels, t: Tunnel, target: string, n: nat, ids: nat -> string, clock: Clock): Tunnel {
    TUNNELS.stamp(t.(id := ids(n), instanceID := target), ids(n),
                  if ids(n) in m then m[ids(n)].createdAt else clock.now(n), clock.later(n))
  }

  ghost function WithRow(m: Tunnels, t: Tunnel, target: string, n: nat, ids: nat -> string, clock: Clock): Tunnels {
    m[ids(n) := Row(m, t, target, n, ids, clock)]
  }

  /** The tunnels after the accepted ones went in. */
  ghost function Imports(before: Tunnels, acc: seq<Tunnel>, target: string, ids: nat -> string, clock: Clock): Tunnels {
    if acc == [] then before else
      var n := |acc| - 1;
      WithRow(Imports(before, acc[..n], target, ids, clock), acc[n], target, n, ids, clock)
  }

  /** An import adds one row per accepted tunnel, under the target, and touches nothing else. */
  lemma {:induction false} ImportsAddRows(before: Tunnels, acc: seq<Tunnel>, target: string, ids: nat -> string, clock: Clock)
    requires FreshIds(ids, before)
    ensures var after := Imports(before, acc, target, ids, clock);
      && after.Keys == before.Keys + (set n | 0 <= n < |acc| :: ids(n))
      && (forall id | id in before :: after[id] == before[id])
      && (forall n | 0 <= n < |acc| :: after[ids(n)] == Row(before, acc[n], target, n, ids, clock))
  {
    if acc != [] {
      var n := |acc| - 1;
      ImportsAddRows(before, acc[..n], target, ids, clock);
      assert (set k | 0 <= k < |acc| :: ids(k)) == (set k | 0 <= k < n :: ids(k)) + {ids(n)};
    }
  }

  lemma ImportsNext(before: Tunnels, acc: seq<Tunnel>, t: Tunnel, target: string, ids: nat -> string, clock: Clock)
    ensures Imports(before, acc + [t], target, ids, clock) ==
            WithRow(Imports(before, acc, target, ids, clock), t, target, |acc|, ids, clock)
  {
    assert (acc + [t])[..|acc|] == acc;
  }

  /** How many of n successive writes of a file go through. */
  ghost function Written(writable: nat -> bool, first: nat, n: nat): (w: nat)
    ensures w <= n
    ensures (forall k | first <= k < first + n :: Goes(writable, k)) ==> w == n
  {
    if n == 0 then 0 else Written(writable, first, n - 1) + if Goes(writable, first + n - 1) then 1 else 0
  }

  lemma WrittenNext(writable: nat -> bool, first: nat, n: nat, at: nat)
    requires at == first + n
    ensures Written(writable, first, n + 1) == Written(writable, first, n) + if Goes(writable, at) then 1 else 0
  {
  }

  /** Some proxy gets past the check for names in use. */
  ghost predicate Adds(proxies: seq<Option<Tunnel>>, existing: set<string>, overwrite: bool) {
    exists k :: 0 <= k < |proxies| && proxies[k].Some? && (overwrite || proxies[k].value.name !in existing)
  }

  lemma {:induction false} NoneAccepted(parsed: seq<Tunnel>, n: nat, existing: set<string>, overwrite: bool, i: nat)
    requires i < n <= |parsed| && (overwrite || parsed[i].name !in existing)
    ensures |Accepted(parsed, n, existing, overwrite)| > 0
  {
    if i < n - 1 {
      NoneAccepted(parsed, n - 1, existing, overwrite, i);
    }
  }

  /** Something is accepted exactly when some proxy gets past the check. */
  lemma AcceptedWhenAdded(proxies: seq<Option<Tunnel>>, parsed: seq<Tunnel>, existing: set<string>, overwrite: bool)
    requires IsParsed(proxies, parsed)
    ensures |Accepted(parsed, |parsed|, existing, overwrite)| > 0 <==> Adds(proxies, existing, overwrite)
  {
    var acc := Accepted(parsed, |parsed|, existing, overwrite);
    if Adds(proxies, existing, overwrite) {
      var k :| 0 <= k < |proxies| && proxies[k].Some? && (overwrite || proxies[k].value.name !in existing);
      var i :| 0 <= i < |parsed| && parsed[i].name == proxies[k].value.name;
      NoneAccepted(parsed, |parsed|, existing, overwrite, i);
    }
    if |acc| > 0 {
      AcceptedAre(parsed, |parsed|, existing, overwrite);
      assert acc[0] in parsed[..|parsed|];
      var i :| 0 <= i < |parsed| && parsed[i] == acc[0];
      var k :| IsFirst(proxies, k, parsed[i]);
      assert proxies[k].Some? && (overwrite || proxies[k].value.name !in existing);
    }
  }

  /** Names stay distinct exactly when no accepted name was already in use under the target. */
  lemma ImportKeepsNames(before: Tunnels, acc: seq<Tunnel>, target: string, ids: nat -> string, clock: Clock)
    requires NamesDistinct(before) && FreshIds(ids, before) && PairwiseNames(acc)
    ensures NamesDistinct(Imports(before, acc, target, ids, clock)) <==>
            forall n | 0 <= n < |acc| :: acc[n].name !in ExistingNames(before, target)
  {
    var after := Imports(before, acc, target, ids, clock);
    ImportsAddRows(before, acc, target, ids, clock);
    if n :| 0 <= n < |acc| && acc[n].name in ExistingNames(before, target) {
      var id :| id in before && before[id].instanceID == target && before[id].name == acc[n].name;
      assert after[id].name == after[ids(n)].name && id != ids(n) && ids(n) in after;
    } else {
      forall a, b | a in after && b in after && a != b && after[a].instanceID == after[b].instanceID
        ensures after[a].name != after[b].name
      {
        if a in before && b !in before { RowClashes(before, acc, target, ids, clock, a, b); }
        if b in before && a !in before { RowClashes(before, acc, target, ids, clock, b, a); }
        if a !in before && b !in before { RowsDiffer(before, acc, target, ids, clock, a, b); }
      }
    }
  }

  lemma RowClashes(before: Tunnels, acc: seq<Tunnel>, target: string, ids: nat -> string, clock: Clock, a: string, b: string)
    requires FreshIds(ids, before) && a in before && b !in before && b in Imports(before, acc, target, ids, clock)
    ensures var row := Imports(before, acc, target, ids, clock)[b];
      row.instanceID == target && exists n :: 0 <= n < |acc| && row.name == acc[n].name
  {
    ImportsAddRows(before, acc, target, ids, clock);
    var n :| 0 <= n < |acc| && ids(n) == b;
  }

  lemma RowsDiffer(before: Tunnels, acc: seq<Tunnel>, target: string, ids: nat -> string, clock: Clock, a: string, b: string)
    requires FreshIds(ids, before) && PairwiseNames(acc) && a != b
    requires var after := Imports(before, acc, target, ids, clock); a in after && b in after && a !in before && b !in before
    ensures var after := Imports(before, acc, target, ids, clock); after[a].name != after[b].name
  {
    ImportsAddRows(before, acc, target, ids, clock);
    var n :| 0 <= n < |acc| && ids(n) == a;
    var k :| 0 <= k < |acc| && ids(k) == b;
    assert n < k ==> acc[n].name != acc[k].name;
  }

  /** Ownership survives exactly when the target exists, or nothing went in. */
  lemma ImportKeepsOwners(m: Instances, before: Tunnels, acc: seq<Tunnel>, target: string, ids: nat -> string, clock: Clock)
    requires OwnersExist(m, before) && FreshIds(ids, before) && target != ""
    ensures OwnersExist(m, Imports(before, acc, target, ids, clock)) <==> acc == [] || target in m
  {
    var after := Imports(before, acc, target, ids, clock);
    ImportsAddRows(before, acc, target, ids, clock);
    if acc != [] {
      assert after[ids(0)].instanceID == target && ids(0) in after;
    }
  }

  lemma CountingIdsAreFresh()
    ensures FreshIds((n: nat) => Decimal(n), map[])
  {
    forall a: nat, b: nat | a != b ensures Decimal(a) != Decimal(b) {
      if Decimal(a) == Decimal(b) { DecimalInjective(a, b); }
    }
  }

  /** One tunnel imported into an instance that is not there has no owner. */
  lemma ImportLosesAnOwner(t: Tunnel, target: string, clock: Clock) returns (m: Instances, before: Tunnels, ids: nat -> string)
    requires target != ""
    ensures OwnersExist(m, before) && FreshIds(ids, before) && !OwnersExist(m, Imports(before, [t], target, ids, clock))
  {
    m, before, ids := map[], map[], (n: nat) => Decimal(n);
    CountingIdsAreFresh();
    ImportKeepsOwners(m, before, [t], target, ids, clock);
  }

  /** A plain import, one that overwrites nothing, keeps names distinct, whatever identifiers it is given. */
  lemma PlainImportKeepsNames(before: Tunnels, parsed: seq<Tunnel>, target: string, ids: nat -> string, clock: Clock)
    requires NamesDistinct(before) && PairwiseNames(parsed) && forall n :: ids(n) != ""
    ensures NamesDistinct(Imports(before, Accepted(parsed, |parsed|, ExistingNames(before, target), false), target, ids, clock))
  {
    AcceptedAre(parsed, |parsed|, ExistingNames(before, target), false);
    NewNamesStayDistinct(before, Accepted(parsed, |parsed|, ExistingNames(before, target), false), target, ids, clock);
  }

  lemma {:induction false} NewNamesStayDistinct(
      before: Tunnels, acc: seq<Tunnel>, target: string, ids: nat -> string, clock: Clock)
    requires NamesDistinct(before) && PairwiseNames(acc) && forall n :: ids(n) != ""
    requires forall i | 0 <= i < |acc| :: acc[i].name !in ExistingNames(before, target)
    ensures var after := Imports(before, acc, target, ids, clock);
      && NamesDistinct(after)
      && ExistingNames(after, target) <= ExistingNames(before, target) + NamesOf(acc)
  {
    if acc != [] {
      var n := |acc| - 1;
      NewNamesStayDistinct(before, acc[..n], target, ids, clock);
      var m := Imports(before, acc[..n], target, ids, clock);
      var row := Row(m, acc[n], target, n, ids, clock);
      assert row.name !in ExistingNames(m, target);
      assert !NameTaken(m, row, row.id);
      StoringKeepsNamesDistinct(m, row);
    }
  }

  ghost function NamesOf(list: seq<Tunnel>): set<string> {
    set i | 0 <= i < |list| :: list[i].name
  }

  /** An import into an existing instance loses no owner, whatever identifiers it is given. */
  lemma {:induction false} ImportIntoExistingKeepsOwners(
      m: Instances, before: Tunnels, acc: seq<Tunnel>, target: string, ids: nat -> string, clock: Clock)
    requires OwnersExist(m, before) && target in m
    ensures OwnersExist(m, Imports(before, acc, target, ids, clock))
  {
    if acc != [] {
      ImportIntoExistingKeepsOwners(m, before, acc[..|acc| - 1], target, ids, clock);
    }
  }

  // ---------- a free name ----------

  const IS_CLIENT: Instance -> bool := (i: Instance) => !i.IsServer()

  ghost function Clients(m: Instances): Instances {
    map id | id in m && !m[id].IsServer() :: m[id]
  }

  ghost predicate ClientNameTaken(m: Instances, name: string) {
    exists id :: IsClient(m, id) && GoesBy(m[id], name)
  }

  predicate GoesBy(i: Instance, name: string) {
    EqualFold(Trim(i.name), name)
  }

  /** The names tried: the base itself, then base-2, base-3 and so on. */
  function Candidate(base: string, i: nat): string {
    if i <= 1 then base else base + "-" + Itoa(i)
  }

  lemma LowerOfDecimal(base: string, n: nat)
    ensures Lower(base + "-" + Itoa(n)) == Lower(base) + "-" + Decimal(n)
  {
    var s := base + "-" + Itoa(n);
    forall i | 0 <= i < |s| ensures LowerChar(s[i]) == (Lower(base) + "-" + Decimal(n))[i] {
      if i > |base| { assert IsDigit(Decimal(n)[i - |base| - 1]); }
    }
  }

  /** Whatever the base, no two candidates are equal under case folding. */
  lemma CandidatesDiffer(base: string, i: nat, j: nat)
    requires 1 <= i < j
    ensures Lower(Candidate(base, i)) != Lower(Candidate(base, j))
  {
    LowerOfDecimal(base, j);
    if i > 1 {
      LowerOfDecimal(base, i);
      var a, b := Lower(base) + "-" + Decimal(i), Lower(base) + "-" + Decimal(j);
      if a == b {
        assert a[|base| + 1..] == Decimal(i) && b[|base| + 1..] == Decimal(j);
        DecimalInjective(i, j);
      }
    }
  }

  ghost function Tried(base: string, n: nat): set<string> {
    set k | 1 <= k <= n :: Lower(Candidate(base, k))
  }

  lemma {:induction false} TriedCount(base: string, n: nat)
    ensures |Tried(base, n)| == n
  {
    if n == 0 {
      assert Tried(base, 0) == {};
    } else {
      TriedCount(base, n - 1);
      var last := Lower(Candidate(base, n));
      assert Tried(base, n) == Tried(base, n - 1) + {last};
      if last in Tried(base, n - 1) {
        var k :| 1 <= k <= n - 1 && Lower(Candidate(base, k)) == last;
        CandidatesDiffer(base, k, n);
      }
    }
  }

  ghost function Folds(m: Instances): map<string, string> {
    map id | id in m :: Lower(Trim(m[id].name))
  }

  lemma TakenIsFold(m: Instances, name: string)
    requires ClientNameTaken(m, name)
    ensures Lower(name) in Folds(Clients(m)).Values
  {
    var id :| IsClient(m, id) && GoesBy(m[id], name);
    assert id in Clients(m) && Clients(m)[id] == m[id];
    assert Folds(Clients(m))[id] == Lower(name);
  }

  lemma FoldsCount(m: Instances)
    ensures |Folds(m).Values| <= |m|
  {
    ValuesCount(Folds(m));
    assert Folds(m).Keys == m.Keys;
    assert |Folds(m)| == |Folds(m).Keys| && |m| == |m.Keys|;
  }

  /** The first n candidates are all taken. */
  ghost predicate TakenUpTo(m: Instances, base: string, n: nat) {
    forall k | 1 <= k <= n :: ClientNameTaken(m, Candidate(base, k))
  }

  lemma TakenOneFurther(m: Instances, base: string, n: nat)
    requires TakenUpTo(m, base, n) && ClientNameTaken(m, Candidate(base, n + 1))
    ensures TakenUpTo(m, base, n + 1)
  {
  }

  lemma TriedAreFolds(m: Instances, base: string, n: nat)
    requires TakenUpTo(m, base, n)
    ensures Tried(base, n) <= Folds(Clients(m)).Values
  {
    forall k | 1 <= k <= n ensures Lower(Candidate(base, k)) in Folds(Clients(m)).Values {
      TakenIsFold(m, Candidate(base, k));
    }
  }

  /** With n clients, at most n candidates are taken before a free one turns up. */
  lemma FreeNameSoon(m: Instances, base: string, n: nat)
    requires TakenUpTo(m, base, n)
    ensures n <= |Clients(m)|
  {
    TriedAreFolds(m, base, n);
    TriedCount(base, n);
    FoldsCount(Clients(m));
    SubsetCount(Tried(base, n), Folds(Clients(m)).Values);
  }

  // ---------- trimmed names ----------

  lemma DigitIsNoSpace(c: char)
    requires IsDigit(c) || c == ':'
    ensures !IsSpace(c)
  {
  }

  /** The name a pasted configuration suggests. */
  function Base(common: ParsedCommon): string {
    var addr := Trim(common.serverAddr);
    var base := if common.serverPort > 0 then addr + ":" + Itoa(common.serverPort) else addr;
    if base == "" then IMPORTED_CLIENT else base
  }

  const IMPORTED_CLIENT := "导入的客户端"

  ghost predicate Tight(s: string) {
    s != "" && !IsSpace(s[0]) && !IsSpace(s[|s| - 1])
  }

  /** A character and a number behind a tight string leave it tight. */
  lemma NumberedIsTight(s: string, c: char, n: nat)
    requires Tight(s) || (s == "" && c == ':')
    ensures Tight(s + [c] + Itoa(n))
  {
    var d, r := Decimal(n), s + [c] + Itoa(n);
    DigitIsNoSpace(d[|d| - 1]);
    if s == "" { DigitIsNoSpace(c); }
    assert r[|r| - 1] == d[|d| - 1] && r[0] == if s == "" then c else s[0];
  }

  lemma ImportedClientIsTight()
    ensures Tight(IMPORTED_CLIENT)
  {
  }

  lemma CandidatesAreTrimmed(common: ParsedCommon, i: nat)
    ensures Trim(Candidate(Base(common), i)) == Candidate(Base(common), i) != ""
  {
    var addr, base, name := Trim(common.serverAddr), Base(common), Candidate(Base(common), i);
    assert Tight(base) by {
      if common.serverPort > 0 {
        NumberedIsTight(addr, ':', common.serverPort);
      } else if addr == "" {
        ImportedClientIsTight();
      }
    }
    if i > 1 {
      NumberedIsTight(base, '-', i);
    }
    TrimFixes(name);
  }
}
