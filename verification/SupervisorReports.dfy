/** For which lists of instances Apply's failures tell the truth: none exactly when every enabled instance is up. */
module SupervisorReports {
  import opened Text
  import opened Model
  import opened Store
  import opened InstanceRules
  import opened SupervisorSpec
  import opened SupervisorSafety
  import opened SupervisorConvergence

  const REFUSAL := "refused"

  /** An enabled instance that gets as far as the library: a client must have names for all its tunnels. */
  ghost predicate Startable(inst: Instance, tunnels: seq<Tunnel>) {
    inst.Enabled() && (inst.IsServer() || AllNamed(TunnelsFor(tunnels, inst.id)))
  }

  /** Some id occurs twice in the list, and the instance wanted under it can be started. */
  ghost predicate RepeatsStartable(desired: seq<Instance>, tunnels: seq<Tunnel>) {
    var ids, want := OrderOf(desired), Wanted(desired);
    exists i, j :: 0 <= i < j < |ids| && ids[i] == ids[j] && ids[i] in want && Startable(want[ids[i]], tunnels)
  }

  ghost predicate Truth(s: State, fate: Fate) {
    ApplyWork(s, fate).failures == [] <==> AllUp(AfterApply(s, fate).units, OrderOf(s.desired), Wanted(s.desired))
  }

  // ---------- reading the failures of a round ----------

  lemma FailuresNext(r: Round, n: nat, m: nat)
    requires r.Valid() && n < |r.ids| && m == n + 1
    ensures |r.Failures(m)| == |r.Failures(n)| + if r.IsRefused(n) then 1 else 0
  {
  }

  lemma {:induction false} NothingRefused(r: Round, n: nat, i: nat)
    requires r.Valid() && i < n <= |r.ids| && r.Failures(n) == []
    ensures !r.IsRefused(i)
  {
    FailuresNext(r, n - 1, n);
    if i < n - 1 {
      NothingRefused(r, n - 1, i);
    }
  }

  lemma {:induction false} SomeRefused(r: Round, n: nat) returns (i: nat)
    requires r.Valid() && n <= |r.ids| && r.Failures(n) != []
    ensures i < n && r.IsRefused(i)
  {
    i := n - 1;
    FailuresNext(r, i, n);
    if !r.IsRefused(i) {
      i := SomeRefused(r, i);
    }
  }

  /** After Apply an enabled instance is up exactly when it was not to be launched, or a launch of it succeeded. */
  lemma UpExactlyWhen(s: State, fate: Fate, id: Id)
    requires Safe(s) && id in Wanted(s.desired) && Wanted(s.desired)[id].Enabled()
    ensures var r := ApplyRound(s, fate);
      && r.Valid() && id in AfterApply(s, fate).units
      && (AfterApply(s, fate).units[id].up <==> id !in r.needs || r.Succeeded(|r.ids|, id))
  {
    var r := ApplyRound(s, fate);
    ApplyConverges(s, fate);
    assert r.Settled(s.units, AfterApply(s, fate).units, |r.ids|, id);
    LastTryDecides(r, |r.ids|, id);
  }

  lemma {:induction false} SucceededSomewhere(r: Round, n: nat, id: Id) returns (i: nat)
    requires r.Valid() && n <= |r.ids| && r.Succeeded(n, id)
    ensures i < n && r.ids[i] == id && r.Tries(i) && r.Outcome(i).Accepted?
  {
    if r.Succeeded(n - 1, id) {
      i := SucceededSomewhere(r, n - 1, id);
    } else {
      i := n - 1;
    }
  }

  /** No failure means that every enabled instance is up, whatever the list. */
  lemma SilenceMeansAllUp(s: State, fate: Fate)
    requires Safe(s) && ApplyWork(s, fate).failures == []
    ensures AllUp(AfterApply(s, fate).units, OrderOf(s.desired), Wanted(s.desired))
  {
    var r := ApplyRound(s, fate);
    ApplyConverges(s, fate);
    assert r.ids[..|r.ids|] == r.ids;
    forall id | id in r.ids && id in r.want && r.want[id].Enabled()
      ensures id in AfterApply(s, fate).units && AfterApply(s, fate).units[id].up
    {
      UpExactlyWhen(s, fate, id);
      LastTryDecides(r, |r.ids|, id);
      if id in r.needs { NothingRefused(r, |r.ids|, r.LastTry(|r.ids|, id).value); }
    }
  }

  lemma AcceptedIsStartable(r: Round, j: nat)
    requires r.Valid() && j < |r.ids| && r.ids[j] in r.want && r.want[r.ids[j]].id == r.ids[j]
    requires r.want[r.ids[j]].Enabled() && r.Outcome(j).Accepted?
    ensures Startable(r.want[r.ids[j]], r.tunnels)
  {
  }

  /** An id both refused and accepted stands at two places, and can be started. */
  lemma RefusedAndAccepted(r: Round, desired: seq<Instance>, i: nat, j: nat)
    requires r.ids == OrderOf(desired) && r.want == Wanted(desired) && r.Valid() && i < |r.ids| && j < |r.ids| && i != j
    requires r.ids[i] == r.ids[j] && r.ids[j] in r.want && Startable(r.want[r.ids[j]], r.tunnels)
    ensures RepeatsStartable(desired, r.tunnels)
  {
    var a, b := if i < j then i else j, if i < j then j else i;
    assert a < b && r.ids[a] == r.ids[b];
  }

  /** When no startable instance is repeated, a failure means that some enabled instance is down. */
  lemma FailureMeansNotAllUp(s: State, fate: Fate)
    requires Safe(s) && !RepeatsStartable(s.desired, s.tunnels) && ApplyWork(s, fate).failures != []
    ensures !AllUp(AfterApply(s, fate).units, OrderOf(s.desired), Wanted(s.desired))
  {
    var r := ApplyRound(s, fate);
    ApplyConverges(s, fate);
    var i := SomeRefused(r, |r.ids|);
    var id := r.ids[i];
    assert id in r.ids;
    UpExactlyWhen(s, fate, id);
    if r.Succeeded(|r.ids|, id) {
      var j := SucceededSomewhere(r, |r.ids|, id);
      assert i != j;
      AcceptedIsStartable(r, j);
      RefusedAndAccepted(r, s.desired, i, j);
    }
  }

  // ---------- a list that misreports ----------

  /** The list without the instances of one id. */
  function Dropping(desired: seq<Instance>, x: Id): seq<Instance> {
    if desired == [] then [] else
      Dropping(desired[..|desired| - 1], x) + if desired[|desired| - 1].id == x then [] else [desired[|desired| - 1]]
  }

  lemma WantedNext(desired: seq<Instance>, last: Instance)
    ensures Wanted(desired + [last])
            == if last.id == "" then Wanted(desired) else Wanted(desired)[last.id := last.Normalize()]
  {
    assert (desired + [last])[..|desired|] == desired;
  }

  lemma MinusNext(m: map<Id, Instance>, id: Id, inst: Instance, x: Id)
    ensures m[id := inst] - {x} == if id == x then m - {x} else (m - {x})[id := inst]
  {
  }

  lemma {:induction false} DroppingDrops(desired: seq<Instance>, x: Id)
    ensures Wanted(Dropping(desired, x)) == Wanted(desired) - {x}
  {
    if desired == [] {
      assert Wanted(desired) == map[];
    } else {
      var rest, last := desired[..|desired| - 1], desired[|desired| - 1];
      assert desired == rest + [last];
      DroppingDrops(rest, x);
      WantedNext(rest, last);
      WantedNext(Dropping(rest, x), last);
      MinusNext(Wanted(rest), last.id, last.Normalize(), x);
      assert last.id == x ==> Dropping(desired, x) == Dropping(rest, x);
    }
  }

  lemma {:induction false} NoTunnelsForAnyone(id: Id)
    ensures TunnelsFor([], id) == []
  {
  }

  /** With a library that accepts everything and no tunnels, nothing fails. */
  lemma EverythingStarts(s: State, fate: Fate)
    requires Safe(s) && s.tunnels == [] && (forall n :: fate(n) == Accepted)
    ensures ApplyWork(s, fate).failures == []
  {
    var r := ApplyRound(s, fate);
    ApplyConverges(s, fate);
    if ApplyWork(s, fate).failures != [] {
      var i := SomeRefused(r, |r.ids|);
      NoTunnelsForAnyone(r.ids[i]);
    }
  }

  const ACCEPTING: Fate := n => Accepted

  /** Everything but x has been started. */
  ghost function WithoutOne(desired: seq<Instance>, x: Id): State {
    AfterApply(INITIAL.(desired := Dropping(desired, x)), ACCEPTING)
  }

  lemma StartedAndCurrent(s: State, id: Id)
    requires Safe(s) && s.tunnels == [] && id in Wanted(s.desired) && Wanted(s.desired)[id].Enabled()
    ensures Current(AfterApply(s, ACCEPTING).units, Wanted(s.desired)[id])
  {
    EverythingStarts(s, ACCEPTING);
    SilenceMeansAllUp(s, ACCEPTING);
    ApplyConverges(s, ACCEPTING);
    assert id in OrderOf(s.desired);
    assert ApplyRound(s, ACCEPTING).Settled(s.units, AfterApply(s, ACCEPTING).units, |OrderOf(s.desired)|, id);
  }

  lemma OthersStay<K, V>(m: map<K, V>, x: K, k: K)
    requires k in m && k != x
    ensures k in m - {x} && (m - {x})[k] == m[k]
  {
  }

  lemma OthersAreUp(desired: seq<Instance>, x: Id, id: Id)
    requires id in Wanted(desired) && id != x && Wanted(desired)[id].Enabled()
    ensures Current(WithoutOne(desired, x).units, Wanted(desired)[id])
  {
    DroppingDrops(desired, x);
    OthersStay(Wanted(desired), x, id);
    StartedAndCurrent(INITIAL.(desired := Dropping(desired, x)), id);
  }

  lemma OneIsDown(desired: seq<Instance>, x: Id)
    ensures x !in WithoutOne(desired, x).units
  {
    DroppingDrops(desired, x);
    ApplyConverges(INITIAL.(desired := Dropping(desired, x)), ACCEPTING);
  }

  /** Configure without x, Apply, Configure with x. */
  function AddingOne(desired: seq<Instance>, tunnels: seq<Tunnel>, x: Id): seq<Call> {
    [Configure(Dropping(desired, x), []), Apply, Configure(desired, tunnels)]
  }

  lemma AddingOneRuns(desired: seq<Instance>, tunnels: seq<Tunnel>, x: Id)
    ensures Run(AddingOne(desired, tunnels, x), ACCEPTING) == WithoutOne(desired, x).(desired := desired, tunnels := tunnels)
  {
    var calls := AddingOne(desired, tunnels, x);
    assert calls[..2][..1] == calls[..1] && calls[..1][..0] == [];
    assert Run(calls[..1], ACCEPTING) == INITIAL.(desired := Dropping(desired, x));
    assert Run(calls[..2], ACCEPTING) == WithoutOne(desired, x);
  }

  /** After these calls x alone has to be launched. */
  lemma AllButOneUp(desired: seq<Instance>, tunnels: seq<Tunnel>, x: Id) returns (s: State)
    requires x in Wanted(desired) && Wanted(desired)[x].Enabled()
    ensures s == Run(AddingOne(desired, tunnels, x), ACCEPTING)
    ensures Safe(s) && s.desired == desired && s.tunnels == tunnels && Needy(s.units, Wanted(desired)) == {x}
  {
    s := Run(AddingOne(desired, tunnels, x), ACCEPTING);
    RunIsSafe(AddingOne(desired, tunnels, x), ACCEPTING);
    AddingOneRuns(desired, tunnels, x);
    OneIsDown(desired, x);
    forall id | id in Wanted(desired) && id != x && Wanted(desired)[id].Enabled()
      ensures Current(s.units, Wanted(desired)[id])
    {
      OthersAreUp(desired, x, id);
    }
  }

  /** How often x occurs among the first n places. */
  ghost function Occurs(ids: seq<Id>, n: nat, x: Id): nat
    requires n <= |ids|
  {
    if n == 0 then 0 else Occurs(ids, n - 1, x) + if ids[n - 1] == x then 1 else 0
  }

  lemma {:induction false} OccursOnce(ids: seq<Id>, n: nat, i: nat)
    requires i < n <= |ids|
    ensures Occurs(ids, n, ids[i]) >= 1 && Occurs(ids, n, ids[i]) > Occurs(ids, i, ids[i])
  {
    if i < n - 1 {
      OccursOnce(ids, n - 1, i);
    }
  }

  ghost predicate Startled(r: Round, x: Id) {
    && r.Valid() && r.needs == {x} && x in r.want && r.want[x].id == x && Startable(r.want[x], r.tunnels)
    && r.fate(r.first) == Refused(REFUSAL) && forall n | n > r.first :: r.fate(n) == Accepted
  }

  /** Only x makes requests: the first is refused, the second, if there is one, accepted. */
  lemma {:induction false} TwoTries(r: Round, x: Id, n: nat)
    requires Startled(r, x) && n <= |r.ids|
    ensures var c := Occurs(r.ids, n, x);
      r.Tried(n) == (if c < 2 then c else 2) && (r.Succeeded(n, x) <==> c >= 2) && (c >= 1 ==> r.Failures(n) != [])
  {
    if n != 0 {
      var i := n - 1;
      TwoTries(r, x, i);
      if r.ids[i] == x && Occurs(r.ids, i, x) == 0 {
        assert r.Outcome(i) == Refused(REFUSAL);
        assert r.FailureAt(i) != [];
      } else if r.ids[i] == x && Occurs(r.ids, i, x) == 1 {
        assert r.Outcome(i) == Accepted;
      }
    }
  }

  /** The two launches of x: one failure, and x up. */
  lemma TwoLaunches(s: State, fate: Fate, x: Id, i: nat, j: nat)
    requires Safe(s) && ApplyRound(s, fate).Valid() && Startled(ApplyRound(s, fate), x)
    requires i < j < |OrderOf(s.desired)| && OrderOf(s.desired)[i] == x == OrderOf(s.desired)[j]
    ensures ApplyWork(s, fate).failures != []
    ensures AllUp(AfterApply(s, fate).units, OrderOf(s.desired), Wanted(s.desired))
  {
    var r := ApplyRound(s, fate);
    ApplyConverges(s, fate);
    OccursOnce(r.ids, j, i);
    OccursOnce(r.ids, |r.ids|, j);
    TwoTries(r, x, |r.ids|);
    forall id | id in r.ids && id in r.want && r.want[id].Enabled()
      ensures id in AfterApply(s, fate).units && AfterApply(s, fate).units[id].up
    {
      UpExactlyWhen(s, fate, id);
    }
  }

  /** The library refuses one request and accepts every other. */
  function RefusingOnly(first: nat): Fate {
    n => if n == first then Refused(REFUSAL) else Accepted
  }

  /** A list that repeats a startable instance misreports after a run: a failure, although everything is up. */
  lemma RepeatMisreports(desired: seq<Instance>, tunnels: seq<Tunnel>) returns (x: Id, s: State, fate: Fate)
    requires RepeatsStartable(desired, tunnels)
    ensures s == Run(AddingOne(desired, tunnels, x), ACCEPTING) && Safe(s) && s.desired == desired && s.tunnels == tunnels
    ensures ApplyWork(s, fate).failures != []
    ensures AllUp(AfterApply(s, fate).units, OrderOf(s.desired), Wanted(s.desired))
  {
    var ids, want := OrderOf(desired), Wanted(desired);
    var i, j :| 0 <= i < j < |ids| && ids[i] == ids[j] && ids[i] in want && Startable(want[ids[i]], tunnels);
    x := ids[i];
    s := AllButOneUp(desired, tunnels, x);
    fate := RefusingOnly(s.lib.requests);
    assert Startled(ApplyRound(s, fate), x);
    TwoLaunches(s, fate, x, i, j);
  }

  // ---------- the condition ----------

  /** From every state with these lists, and whatever the library answers, no failure is reported exactly when all is up. */
  ghost predicate ReportsTruly(desired: seq<Instance>, tunnels: seq<Tunnel>) {
    forall s: State, fate: Fate | Safe(s) && s.desired == desired && s.tunnels == tunnels :: Truth(s, fate)
  }

  /** The lists whose failures can be trusted are exactly those that repeat no startable instance. */
  lemma ReportsTrulyExactlyWhen(desired: seq<Instance>, tunnels: seq<Tunnel>)
    ensures ReportsTruly(desired, tunnels) <==> !RepeatsStartable(desired, tunnels)
  {
    if RepeatsStartable(desired, tunnels) {
      var _, s, fate := RepeatMisreports(desired, tunnels);
      assert !Truth(s, fate);
    } else {
      forall s: State, fate: Fate | Safe(s) && s.desired == desired && s.tunnels == tunnels ensures Truth(s, fate) {
        if ApplyWork(s, fate).failures == [] {
          SilenceMeansAllUp(s, fate);
        } else {
          FailureMeansNotAllUp(s, fate);
        }
      }
    }
  }

  // ---------- what the panel passes ----------

  lemma DistinctNext(ids: seq<Id>, id: Id)
    requires Distinct(ids) && id !in ids
    ensures Distinct(ids + [id])
  {
  }

  lemma {:induction false} OrderedIds(desired: seq<Instance>, n: nat)
    requires n <= |desired|
    requires forall i, j | 0 <= i < j < |desired| :: Below(desired[i].id, desired[j].id)
    ensures Distinct(OrderOf(desired[..n]))
    ensures forall id | id in OrderOf(desired[..n]) :: exists i :: 0 <= i < n && desired[i].id == id
  {
    if n != 0 {
      var m := n - 1;
      assert desired[..n][..m] == desired[..m] && desired[..n][m] == desired[m];
      OrderedIds(desired, m);
      forall id | id in OrderOf(desired[..m]) ensures id != desired[m].id {
        var i :| 0 <= i < m && desired[i].id == id;
        assert Below(desired[i].id, desired[m].id);
      }
      DistinctNext(OrderOf(desired[..m]), desired[m].id);
      assert OrderOf(desired[..m]) + [] == OrderOf(desired[..m]);
      forall id | id in OrderOf(desired[..n]) ensures exists i :: 0 <= i < n && desired[i].id == id {
        if id in OrderOf(desired[..m]) {
          var i :| 0 <= i < m && desired[i].id == id;
          assert 0 <= i < n;
        } else {
          assert desired[m].id == id;
        }
      }
    }
  }

  /** The panel passes the listing of its collection, which repeats no id: its failures can be trusted. */
  lemma StoredListReportsTruly(items: Instances, desired: seq<Instance>, tunnels: seq<Tunnel>)
    requires IsListing(INSTANCES, items, desired)
    ensures ReportsTruly(desired, tunnels)
  {
    forall i, j | 0 <= i < j < |desired| ensures Below(desired[i].id, desired[j].id) {
      Earlier(INSTANCES, items, desired, i, j);
    }
    OrderedIds(desired, |desired|);
    assert desired[..|desired|] == desired;
    ReportsTrulyExactlyWhen(desired, tunnels);
  }
}
