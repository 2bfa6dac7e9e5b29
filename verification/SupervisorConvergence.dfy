/** Apply brings every instance to its desired state and disturbs no kernel it need not disturb. */
module SupervisorConvergence {
  import opened Sequences
  import opened Text
  import opened Model
  import opened SupervisorSpec
  import opened SupervisorSafety

  /** The unit already runs what is wanted. */
  predicate Current(units: Units, inst: Instance) {
    && inst.id in units && units[inst.id].up
    && inst.Enabled() && SameConfig(units[inst.id].inst, inst)
  }

  // ---------- which request is whose ----------

  /** The enabled instances that do not already run what is wanted: they have to be launched. */
  ghost function Needy(units: Units, want: map<Id, Instance>): set<Id> {
    set id | id in want && want[id].Enabled() && !Current(units, want[id])
  }

  /** One round of Apply over the wanted instances: its first request, who needs a launch, and what it has to go by. */
  datatype Round = Round(
    first: nat, needs: set<Id>, ids: seq<Id>, want: map<Id, Instance>, tunnels: seq<Tunnel>, fate: Fate)
  {
    ghost predicate Valid() {
      forall id | id in ids :: id in want && want[id].id == id
    }

    /** The i-th place makes a launch, unless the same id was launched with success before. */
    ghost predicate Tries(i: nat)
      requires Valid() && i < |ids|
      decreases i, 1
    {
      ids[i] in needs && !Succeeded(i, ids[i])
    }

    /** How many launches the first n places make. */
    ghost function Tried(n: nat): nat
      requires Valid() && n <= |ids|
      decreases n, 0
    {
      if n == 0 then 0 else Tried(n - 1) + if Tries(n - 1) then 1 else 0
    }

    /** The number of the request the i-th place makes, and how it ends. */
    ghost function Request(i: nat): nat
      requires Valid() && i < |ids|
      decreases i, 1
    {
      first + Tried(i)
    }

    ghost function Outcome(i: nat): Verdict
      requires Valid() && i < |ids|
      decreases i, 2
    {
      VerdictOn(Request(i), want[ids[i]].IsServer(), TunnelsFor(tunnels, ids[i]), fate)
    }

    /** One of the first n places launched the id with success. */
    ghost predicate Succeeded(n: nat, id: Id)
      requires Valid() && n <= |ids|
      decreases n, 0
    {
      n != 0 && (Succeeded(n - 1, id) || (ids[n - 1] == id && Tries(n - 1) && Outcome(n - 1).Accepted?))
    }

    /** The last of the first n places that launched the id. */
    ghost function LastTry(n: nat, id: Id): (k: Option<nat>)
      requires Valid() && n <= |ids|
      ensures k.Some? ==> k.value < n && ids[k.value] == id && Tries(k.value)
    {
      if n == 0 then None else if ids[n - 1] == id && Tries(n - 1) then Some(n - 1) else LastTry(n - 1, id)
    }

    ghost predicate IsRefused(i: nat)
      requires Valid() && i < |ids|
    {
      Tries(i) && Outcome(i).Refused?
    }

    /** The failure of the i-th place, if its launch was refused. */
    ghost function FailureAt(i: nat): seq<Failure>
      requires Valid() && i < |ids|
    {
      if IsRefused(i) then [Failure(want[ids[i]].name, want[ids[i]].kind, Outcome(i).reason)] else []
    }

    /** One failure for each refused launch of the first n places, in order. */
    ghost function Failures(n: nat): seq<Failure>
      requires Valid() && n <= |ids|
    {
      if n == 0 then [] else Failures(n - 1) + FailureAt(n - 1)
    }

    // ---------- what the round owes ----------

    /**
     * After the first n places an instance is down, its record kept, if it is disabled; as it was, apart from its description, if
     * it already ran what is wanted; and otherwise what its own last launch made of it.
     */
    ghost predicate Settled(before: Units, after: Units, n: nat, id: Id)
      requires Valid() && n <= |ids|
    {
      && id in want && id in after && after[id].inst == want[id]
      && if !want[id].Enabled() then !after[id].up && SameRecord(before, after[id], id)
         else if id !in needs then id in before && after[id] == before[id].(inst := want[id])
         else LastTry(n, id).Some? && LeftBy(after[id], LastTry(n, id).value)
    }

    /** The unit as the i-th place left it: up, without an error, under the handle of its request; or down with the reason. */
    ghost predicate LeftBy(u: Unit, i: nat)
      requires Valid() && i < |ids|
    {
      && u.tunnels == TunnelsFor(tunnels, ids[i]) && u.tunnelCount == |u.tunnels| && u.dash == DashFor(want[ids[i]])
      && (u.up <==> Outcome(i).Accepted?)
      && (if u.up then u.err == "" && u.cancel == Some(Request(i)) else u.err == Outcome(i).reason && u.cancel.None?)
    }

    /** The units after the first n places. */
    ghost predicate SeenTo(before: Units, now: Units, n: nat)
      requires Valid() && n <= |ids|
    {
      && (forall id | id in ids[..n] :: Settled(before, now, n, id))
      && (forall id | id !in ids[..n] :: Untouched(before, now, id))
    }

    /** The work after the first n places. */
    ghost predicate Reached(w: Work, now: Work, n: nat)
      requires Valid() && n <= |ids|
    {
      && SeenTo(w.units, now.units, n)
      && now.lib.requests == first + Tried(n)
      && now.failures == w.failures + Failures(n)
    }
  }

  /** What is remembered of a unit: its last error, its tunnels and its dashboard. A new one has nothing to remember. */
  ghost predicate SameRecord(before: Units, u: Unit, id: Id) {
    if id in before then u.err == before[id].err && u.tunnels == before[id].tunnels && u.dash == before[id].dash
    else u.err == "" && u.tunnels == [] && u.dash == DashFor(u.inst)
  }

  /** The round that a piece of work is about to make. */
  ghost function RoundOf(w: Work, ids: seq<Id>, want: map<Id, Instance>, tunnels: seq<Tunnel>, fate: Fate): Round {
    Round(w.lib.requests, Needy(w.units, want), ids, want, tunnels, fate)
  }

  ghost predicate Untouched(before: Units, after: Units, id: Id) {
    (id in after <==> id in before) && (id in before ==> after[id] == before[id])
  }

  /** No kernel is closed but one whose instance is switched off or reconfigured. */
  ghost predicate ClosedForAReason(before: Work, want: map<Id, Instance>, ids: seq<Id>, h: Handle) {
    exists id :: id in ids && id in want && id in before.units && before.units[id].up
                 && before.units[id].cancel == Some(h) && !Current(before.units, want[id])
  }

  /** Kernels that were there stay what they were told to be; requests are only added. */
  ghost predicate Extends(before: Library, after: Library) {
    && before.requests <= after.requests
    && before.closed <= after.closed
    && forall h | h in before.launched :: h in after.launched && after.launched[h] == before.launched[h]
  }

  ghost predicate AllUp(units: Units, ids: seq<Id>, want: map<Id, Instance>) {
    forall id | id in ids && id in want && want[id].Enabled() :: id in units && units[id].up
  }

  ghost predicate Distinct(ids: seq<Id>) {
    forall i, j | 0 <= i < j < |ids| :: ids[i] != ids[j]
  }

  // ---------- one instance ----------

  /** Settling one instance touches no other, and launches it unless it need not be. */
  lemma SettleOne(w: Work, inst: Instance, tunnels: seq<Tunnel>, fate: Fate)
    ensures var w' := Settle(w, inst, tunnels, fate);
      && (forall id | id != inst.id :: Untouched(w.units, w'.units, id))
      && inst.id in w'.units && w'.units[inst.id].inst == inst
      && (inst.Enabled() && !Current(w.units, inst) ==>
            w'.lib.requests == w.lib.requests + 1 && LaunchedAs(w, w', inst, tunnels, fate))
      && (!inst.Enabled() || Current(w.units, inst) ==>
            w'.lib.requests == w.lib.requests && w'.failures == w.failures)
      && (!inst.Enabled() ==> !w'.units[inst.id].up && SameRecord(w.units, w'.units[inst.id], inst.id))
      && (Current(w.units, inst) ==> w'.units[inst.id] == w.units[inst.id].(inst := inst))
  {
  }

  ghost predicate LaunchedAs(w: Work, after: Work, inst: Instance, tunnels: seq<Tunnel>, fate: Fate) {
    && inst.id in after.units
    && var u, v := after.units[inst.id], VerdictOn(w.lib.requests, inst.IsServer(), TunnelsFor(tunnels, inst.id), fate);
    && u.tunnels == TunnelsFor(tunnels, inst.id) && u.tunnelCount == |u.tunnels| && u.dash == DashFor(inst)
    && (u.up <==> v.Accepted?)
    && (if u.up then u.err == "" && u.cancel == Some(w.lib.requests) else u.err == v.reason && u.cancel.None?)
    && after.failures == w.failures + if v.Accepted? then [] else [Failure(inst.name, inst.kind, v.reason)]
  }

  lemma SettleOnlyAdds(w: Work, inst: Instance, tunnels: seq<Tunnel>, fate: Fate)
    ensures w.lib.requests <= Settle(w, inst, tunnels, fate).lib.requests
    ensures w.failures <= Settle(w, inst, tunnels, fate).failures
  {
  }

  lemma SettleExtends(w: Work, inst: Instance, tunnels: seq<Tunnel>, fate: Fate)
    requires Tidy(w.lib)
    ensures Extends(w.lib, Settle(w, inst, tunnels, fate).lib)
  {
    assert w.lib.requests !in w.lib.launched;
  }

  /** A unit has no kernel but the one its context belongs to. */
  ghost predicate Tied(units: Units) {
    forall id | id in units && (units[id].serverSvc.Some? || units[id].clientSvc.Some?) ::
      && units[id].up
      && (units[id].serverSvc.Some? ==> units[id].serverSvc == units[id].cancel)
      && (units[id].clientSvc.Some? ==> units[id].clientSvc == units[id].cancel)
  }

  lemma SettleKeepsTied(w: Work, inst: Instance, tunnels: seq<Tunnel>, fate: Fate)
    requires Tied(w.units)
    ensures Tied(Settle(w, inst, tunnels, fate).units)
  {
  }

  lemma SettleClosesForAReason(w: Work, inst: Instance, tunnels: seq<Tunnel>, fate: Fate, h: Handle)
    requires Tied(w.units)
    requires h in Settle(w, inst, tunnels, fate).lib.closed && h !in w.lib.closed
    ensures inst.id in w.units && w.units[inst.id].up && w.units[inst.id].cancel == Some(h) && !Current(w.units, inst)
  {
  }

  // ---------- all of them ----------

  lemma {:induction false} SettleAllOnlyAdds(w: Work, ids: seq<Id>, want: map<Id, Instance>,
                                             tunnels: seq<Tunnel>, fate: Fate)
    requires forall id | id in ids :: id in want
    ensures w.lib.requests <= SettleAll(w, ids, want, tunnels, fate).lib.requests
    ensures w.failures <= SettleAll(w, ids, want, tunnels, fate).failures
  {
    if ids != [] {
      SettleAllOnlyAdds(w, ids[..|ids| - 1], want, tunnels, fate);
      SettleOnlyAdds(SettleAll(w, ids[..|ids| - 1], want, tunnels, fate), want[ids[|ids| - 1]], tunnels, fate);
    }
  }

  lemma {:induction false} SettleAllExtends(w: Work, ids: seq<Id>, want: map<Id, Instance>,
                                            tunnels: seq<Tunnel>, fate: Fate)
    requires Balanced(w.units, w.lib)
    requires forall id | id in ids :: id in want && want[id].id == id
    ensures Extends(w.lib, SettleAll(w, ids, want, tunnels, fate).lib)
  {
    if ids != [] {
      var rest := ids[..|ids| - 1];
      SettleAllExtends(w, rest, want, tunnels, fate);
      SettleAllStaysBalanced(w, rest, want, tunnels, fate);
      SettleExtends(SettleAll(w, rest, want, tunnels, fate), want[ids[|ids| - 1]], tunnels, fate);
    }
  }

  /** A last launch that succeeded is one that succeeded; only launches that are needed are made. */
  lemma {:induction false} LastTryDecides(r: Round, n: nat, id: Id)
    requires r.Valid() && n <= |r.ids|
    ensures r.Succeeded(n, id) <==> r.LastTry(n, id).Some? && r.Outcome(r.LastTry(n, id).value).Accepted?
    ensures r.LastTry(n, id).Some? <==> id in r.needs && id in r.ids[..n]
  {
    if n != 0 {
      LastTryDecides(r, n - 1, id);
      assert r.ids[..n] == r.ids[..n - 1] + [r.ids[n - 1]];
    }
  }

  /** An enabled instance runs what is wanted if it did before the round, or was launched with success in it. */
  lemma CurrentInRound(r: Round, before: Units, now: Units, n: nat, id: Id)
    requires r.Valid() && r.needs == Needy(before, r.want) && n <= |r.ids| && r.SeenTo(before, now, n)
    requires id in r.want && r.want[id].id == id && r.want[id].Enabled()
    ensures Current(now, r.want[id]) <==> id !in r.needs || r.Succeeded(n, id)
  {
    LastTryDecides(r, n, id);
    if id in r.ids[..n] {
      assert r.Settled(before, now, n, id);
    } else {
      assert Untouched(before, now, id);
    }
  }

  /** The next place makes a launch exactly when its instance does not run what is wanted by then. */
  lemma TriesWhenNotCurrent(r: Round, before: Units, now: Units, n: nat)
    requires r.Valid() && r.needs == Needy(before, r.want) && n < |r.ids| && r.SeenTo(before, now, n)
    ensures r.ids[n] in r.want && r.want[r.ids[n]].id == r.ids[n]
    ensures r.Tries(n) <==> r.want[r.ids[n]].Enabled() && !Current(now, r.want[r.ids[n]])
  {
    assert r.ids[n] in r.ids;
    if r.want[r.ids[n]].Enabled() {
      CurrentInRound(r, before, now, n, r.ids[n]);
    }
  }

  lemma SettledByLaunch(r: Round, before: Units, now: Work, after: Work, n: nat, m: nat)
    requires r.Valid() && n < |r.ids| && m == n + 1 && r.ids[n] in r.want && r.want[r.ids[n]].id == r.ids[n]
    requires r.want[r.ids[n]].Enabled() && r.Tries(n) && now.lib.requests == r.Request(n)
    requires LaunchedAs(now, after, r.want[r.ids[n]], r.tunnels, r.fate) && after.units[r.ids[n]].inst == r.want[r.ids[n]]
    ensures r.Settled(before, after.units, m, r.ids[n])
  {
    assert r.LastTry(m, r.ids[n]) == Some(n);
    assert r.LeftBy(after.units[r.ids[n]], n);
  }

  lemma SettledAlready(r: Round, before: Units, now: Units, after: Units, n: nat, m: nat)
    requires r.Valid() && r.needs == Needy(before, r.want) && n < |r.ids| && m == n + 1 && r.SeenTo(before, now, n)
    requires r.ids[n] in r.want && r.want[r.ids[n]].id == r.ids[n] && r.want[r.ids[n]].Enabled() && !r.Tries(n)
    requires r.ids[n] in now && r.ids[n] in after && after[r.ids[n]] == now[r.ids[n]].(inst := r.want[r.ids[n]])
    ensures r.Settled(before, after, m, r.ids[n])
  {
    var id := r.ids[n];
    LastTryDecides(r, n, id);
    assert r.LastTry(m, id) == r.LastTry(n, id);
    if id in r.ids[..n] {
      assert r.Settled(before, now, n, id);
    } else {
      assert Untouched(before, now, id);
    }
  }

  lemma SettledOff(r: Round, before: Units, now: Units, after: Units, n: nat, m: nat)
    requires r.Valid() && n < |r.ids| && m == n + 1 && r.SeenTo(before, now, n)
    requires r.ids[n] in r.want && !r.want[r.ids[n]].Enabled()
    requires r.ids[n] in after && after[r.ids[n]].inst == r.want[r.ids[n]] && !after[r.ids[n]].up
    requires SameRecord(now, after[r.ids[n]], r.ids[n])
    ensures r.Settled(before, after, m, r.ids[n])
  {
    var id := r.ids[n];
    if id in r.ids[..n] {
      assert r.Settled(before, now, n, id);
    } else {
      assert Untouched(before, now, id);
    }
  }

  lemma SettledNow(r: Round, w: Work, now: Work, n: nat, m: nat)
    requires r.Valid() && r.needs == Needy(w.units, r.want) && n < |r.ids| && m == n + 1 && r.Reached(w, now, n)
    requires r.ids[n] in r.want
    ensures r.Settled(w.units, Settle(now, r.want[r.ids[n]], r.tunnels, r.fate).units, m, r.ids[n])
  {
    var inst := r.want[r.ids[n]];
    var after := Settle(now, inst, r.tunnels, r.fate);
    TriesWhenNotCurrent(r, w.units, now.units, n);
    SettleOne(now, inst, r.tunnels, r.fate);
    if r.Tries(n) {
      SettledByLaunch(r, w.units, now, after, n, m);
    } else if inst.Enabled() {
      SettledAlready(r, w.units, now.units, after.units, n, m);
    } else {
      SettledOff(r, w.units, now.units, after.units, n, m);
    }
  }

  lemma FailureOfLaunch(r: Round, now: Work, after: Work, n: nat)
    requires r.Valid() && n < |r.ids| && r.ids[n] in r.want && r.want[r.ids[n]].id == r.ids[n]
    requires r.Tries(n) && now.lib.requests == r.Request(n)
    requires LaunchedAs(now, after, r.want[r.ids[n]], r.tunnels, r.fate)
    ensures after.failures == now.failures + r.FailureAt(n)
  {
    assert r.Outcome(n) == VerdictOn(now.lib.requests, r.want[r.ids[n]].IsServer(), TunnelsFor(r.tunnels, r.ids[n]), r.fate);
  }

  /** The next place adds the failure of its launch, if that is refused, and one request, if it launches at all. */
  lemma BooksOfOne(r: Round, w: Work, now: Work, n: nat)
    requires r.Valid() && r.needs == Needy(w.units, r.want) && n < |r.ids| && r.Reached(w, now, n)
    requires r.ids[n] in r.want
    ensures var after := Settle(now, r.want[r.ids[n]], r.tunnels, r.fate);
      && after.lib.requests == now.lib.requests + (if r.Tries(n) then 1 else 0)
      && after.failures == now.failures + r.FailureAt(n)
  {
    TriesWhenNotCurrent(r, w.units, now.units, n);
    SettleOne(now, r.want[r.ids[n]], r.tunnels, r.fate);
    if r.Tries(n) {
      FailureOfLaunch(r, now, Settle(now, r.want[r.ids[n]], r.tunnels, r.fate), n);
    } else {
      assert now.failures + r.FailureAt(n) == now.failures;
    }
  }

  lemma BooksNext(r: Round, w: Work, now: Work, n: nat, m: nat)
    requires r.Valid() && r.needs == Needy(w.units, r.want) && n < |r.ids| && m == n + 1 && r.Reached(w, now, n)
    requires r.ids[n] in r.want
    ensures var after := Settle(now, r.want[r.ids[n]], r.tunnels, r.fate);
      && after.lib.requests == r.first + r.Tried(m)
      && after.failures == w.failures + r.Failures(m)
  {
    BooksOfOne(r, w, now, n);
    Associate(w.failures, r.Failures(n), r.FailureAt(n));
  }

  lemma OthersStaySettled(r: Round, before: Units, now: Units, after: Units, n: nat, m: nat, id: Id)
    requires r.Valid() && n < |r.ids| && m == n + 1 && id != r.ids[n]
    requires r.Settled(before, now, n, id) && Untouched(now, after, id)
    ensures r.Settled(before, after, m, id)
  {
    assert r.LastTry(m, id) == r.LastTry(n, id);
  }

  lemma SeenToNext(r: Round, before: Units, now: Units, after: Units, n: nat, m: nat)
    requires r.Valid() && n < |r.ids| && m == n + 1 && r.SeenTo(before, now, n)
    requires r.Settled(before, after, m, r.ids[n])
    requires forall id | id != r.ids[n] :: Untouched(now, after, id)
    ensures r.SeenTo(before, after, m)
  {
    assert r.ids[..m] == r.ids[..n] + [r.ids[n]];
    forall id | id in r.ids[..m] ensures r.Settled(before, after, m, id) {
      if id != r.ids[n] {
        OthersStaySettled(r, before, now, after, n, m, id);
      }
    }
    forall id | id !in r.ids[..m] ensures Untouched(before, after, id) {
      assert Untouched(before, now, id) && Untouched(now, after, id);
    }
  }

  lemma ReachedNext(r: Round, w: Work, now: Work, n: nat, m: nat)
    requires r.Valid() && r.needs == Needy(w.units, r.want) && n < |r.ids| && m == n + 1 && r.Reached(w, now, n)
    ensures r.ids[n] in r.want && r.Reached(w, Settle(now, r.want[r.ids[n]], r.tunnels, r.fate), m)
  {
    TriesWhenNotCurrent(r, w.units, now.units, n);
    var inst := r.want[r.ids[n]];
    SettleOne(now, inst, r.tunnels, r.fate);
    SettledNow(r, w, now, n, m);
    BooksNext(r, w, now, n, m);
    SeenToNext(r, w.units, now.units, Settle(now, inst, r.tunnels, r.fate).units, n, m);
  }

  lemma {:induction false} SettleAllSettles(r: Round, w: Work, n: nat)
    requires r.Valid() && r == RoundOf(w, r.ids, r.want, r.tunnels, r.fate) && n <= |r.ids|
    ensures r.Reached(w, SettleAll(w, r.ids[..n], r.want, r.tunnels, r.fate), n)
  {
    if n != 0 {
      assert r.ids[..n][..n - 1] == r.ids[..n - 1] && r.ids[..n][n - 1] == r.ids[n - 1];
      SettleAllSettles(r, w, n - 1);
      ReachedNext(r, w, SettleAll(w, r.ids[..n - 1], r.want, r.tunnels, r.fate), n - 1, n);
    }
  }

  lemma {:induction false} SettleAllKeepsTied(w: Work, ids: seq<Id>, want: map<Id, Instance>,
                                              tunnels: seq<Tunnel>, fate: Fate)
    requires Tied(w.units)
    requires forall id | id in ids :: id in want
    ensures Tied(SettleAll(w, ids, want, tunnels, fate).units)
  {
    if ids != [] {
      SettleAllKeepsTied(w, ids[..|ids| - 1], want, tunnels, fate);
      SettleKeepsTied(SettleAll(w, ids[..|ids| - 1], want, tunnels, fate), want[ids[|ids| - 1]], tunnels, fate);
    }
  }

  /** An instance that was seen to and is up runs what is wanted; one that was not seen to is untouched. */
  lemma UpMeansCurrent(w: Work, ids: seq<Id>, n: nat, want: map<Id, Instance>, tunnels: seq<Tunnel>, fate: Fate, id: Id)
    requires n <= |ids| && (forall id | id in ids :: id in want && want[id].id == id) && id in want
    ensures var now := SettleAll(w, ids[..n], want, tunnels, fate).units;
      if id in ids[..n] then id in now && (now[id].up ==> Current(now, want[id])) else Untouched(w.units, now, id)
  {
    var now, r := SettleAll(w, ids[..n], want, tunnels, fate), RoundOf(w, ids, want, tunnels, fate);
    SettleAllSettles(r, w, n);
    if id in ids[..n] {
      assert r.Settled(w.units, now.units, n, id);
    } else {
      assert Untouched(w.units, now.units, id);
    }
  }

  lemma {:induction false} SettleAllClosesForAReason(w: Work, ids: seq<Id>, want: map<Id, Instance>,
                                                     tunnels: seq<Tunnel>, fate: Fate, h: Handle)
    requires Tied(w.units)
    requires forall id | id in ids :: id in want && want[id].id == id
    requires h in SettleAll(w, ids, want, tunnels, fate).lib.closed && h !in w.lib.closed
    ensures ClosedForAReason(w, want, ids, h)
  {
    if ids != [] {
      var rest, last := ids[..|ids| - 1], ids[|ids| - 1];
      var mid := SettleAll(w, rest, want, tunnels, fate);
      SettleAllKeepsTied(w, rest, want, tunnels, fate);
      assert ids == rest + [last];
      if h in mid.lib.closed {
        SettleAllClosesForAReason(w, rest, want, tunnels, fate, h);
        var id :| id in rest && id in want && id in w.units && w.units[id].up
                  && w.units[id].cancel == Some(h) && !Current(w.units, want[id]);
        assert id in ids;
      } else {
        SettleClosesForAReason(mid, want[last], tunnels, fate, h);
        UpMeansCurrent(w, ids, |rest|, want, tunnels, fate, last);
        assert last in ids && !Current(mid.units, want[last]) && mid.units[last].up;
      }
    }
  }

  // ---------- the result of Apply ----------

  /** Every unit already is what it should be. */
  ghost predicate AtRest(units: Units, ids: seq<Id>, want: map<Id, Instance>) {
    forall id | id in ids && id in want ::
      id in units && units[id].inst == want[id] && units[id].up == want[id].Enabled()
  }

  lemma {:induction false} AtRestStaysAtRest(w: Work, ids: seq<Id>, want: map<Id, Instance>,
                                             tunnels: seq<Tunnel>, fate: Fate)
    requires forall id | id in ids :: id in want && want[id].id == id
    requires AtRest(w.units, ids, want)
    ensures SettleAll(w, ids, want, tunnels, fate) == w
  {
    if ids != [] {
      var rest, last := ids[..|ids| - 1], ids[|ids| - 1];
      assert ids == rest + [last];
      AtRestStaysAtRest(w, rest, want, tunnels, fate);
      assert last in ids;
      assert w.units[last := w.units[last].(inst := want[last])] == w.units;
    }
  }

  lemma {:induction false} UnrestMakesRequests(w: Work, ids: seq<Id>, want: map<Id, Instance>,
                                               tunnels: seq<Tunnel>, fate: Fate)
    requires forall id | id in ids :: id in want && want[id].id == id
    requires forall id | id in ids :: id in w.units && w.units[id].inst == want[id] && (w.units[id].up ==> want[id].Enabled())
    requires !AtRest(w.units, ids, want)
    ensures SettleAll(w, ids, want, tunnels, fate).lib.requests > w.lib.requests
  {
    var rest, last := ids[..|ids| - 1], ids[|ids| - 1];
    assert ids == rest + [last];
    if AtRest(w.units, rest, want) {
      AtRestStaysAtRest(w, rest, want, tunnels, fate);
    } else {
      UnrestMakesRequests(w, rest, want, tunnels, fate);
      SettleOnlyAdds(SettleAll(w, rest, want, tunnels, fate), want[last], tunnels, fate);
    }
  }

  ghost function Before(s: State): Work { Work(s.units, s.lib, []) }

  lemma PruneKeepsWanted(s: State)
    requires Safe(s)
    ensures Balanced(Pruned(s).units, Pruned(s).lib)
    ensures forall id | id in Wanted(s.desired) :: Untouched(s.units, Pruned(s).units, id)
    ensures Extends(s.lib, Pruned(s).lib) && Pruned(s).lib.requests == s.lib.requests
    ensures Tied(Pruned(s).units)
  {
    ClosingManyStaysBalanced(s.units, s.units.Keys - Wanted(s.desired).Keys, s.lib);
  }

  /** The round an Apply makes. */
  ghost function ApplyRound(s: State, fate: Fate): Round {
    RoundOf(Before(s), OrderOf(s.desired), Wanted(s.desired), s.tunnels, fate)
  }

  /**
   * After Apply there is a unit for each desired instance and no other; each is settled by its own launches;
   * the failures are the refused launches; and the books are balanced, so a unit that is up runs a kernel
   * launched from an equal configuration.
   */
  lemma ApplyConverges(s: State, fate: Fate)
    requires Safe(s)
    ensures Safe(AfterApply(s, fate)) && AfterApply(s, fate).units.Keys == Wanted(s.desired).Keys
    ensures var r := ApplyRound(s, fate);
      && r.Valid()
      && (forall id | id in r.want :: r.Settled(s.units, AfterApply(s, fate).units, |r.ids|, id))
      && ApplyWork(s, fate).failures == r.Failures(|r.ids|)
      && AfterApply(s, fate).lib.requests == s.lib.requests + r.Tried(|r.ids|)
  {
    var r, p := ApplyRound(s, fate), Pruned(s);
    ApplyKeepsSafe(s, fate);
    PruneKeepsWanted(s);
    PruneKeepsNeeds(s);
    assert r.ids[..|r.ids|] == r.ids;
    SettleAllSettles(r, p, |r.ids|);
    assert [] + r.Failures(|r.ids|) == r.Failures(|r.ids|);
    forall id | id in r.want ensures r.Settled(s.units, ApplyWork(s, fate).units, |r.ids|, id) {
      assert r.Settled(p.units, ApplyWork(s, fate).units, |r.ids|, id) && Untouched(s.units, p.units, id);
    }
  }

  lemma PruneKeepsNeeds(s: State)
    requires forall id | id in Wanted(s.desired) :: Untouched(s.units, Pruned(s).units, id)
    ensures Needy(Pruned(s).units, Wanted(s.desired)) == Needy(s.units, Wanted(s.desired))
  {
    forall id | id in Wanted(s.desired)
      ensures Current(Pruned(s).units, Wanted(s.desired)[id]) == Current(s.units, Wanted(s.desired)[id])
    {
      assert Untouched(s.units, Pruned(s).units, id);
    }
  }

  /** Apply reloads no kernel: what was launched before it still runs what it was told to run. */
  lemma ApplyReloadsNothing(s: State, fate: Fate)
    requires Safe(s)
    ensures Extends(s.lib, AfterApply(s, fate).lib)
  {
    PruneKeepsWanted(s);
    SettleAllExtends(Pruned(s), OrderOf(s.desired), Wanted(s.desired), s.tunnels, fate);
  }

  /** A kernel Apply closes belonged to an instance that is gone, switched off or reconfigured. */
  lemma ApplyDisturbsLeast(s: State, fate: Fate, h: Handle)
    requires Safe(s)
    requires h in AfterApply(s, fate).lib.closed && h !in s.lib.closed
    ensures exists id :: id in s.units && s.units[id].up && s.units[id].cancel == Some(h)
              && (id in Wanted(s.desired) ==> !Current(s.units, Wanted(s.desired)[id]))
  {
    var want, p := Wanted(s.desired), Pruned(s);
    var gone := s.units.Keys - want.Keys;
    PruneKeepsWanted(s);
    if h in p.lib.closed {
      CloseAllReturnsTheirHandles(s.units, gone, s.lib);
      assert h in Held(Without(s.units, s.units.Keys - gone));
      var id :| id in Without(s.units, s.units.Keys - gone) && s.units[id].up && s.units[id].cancel == Some(h);
      assert id !in want;
    } else {
      SettleAllClosesForAReason(p, OrderOf(s.desired), want, s.tunnels, fate, h);
      var id :| id in OrderOf(s.desired) && id in want && id in p.units && p.units[id].up
                && p.units[id].cancel == Some(h) && !Current(p.units, want[id]);
      assert Untouched(s.units, p.units, id);
    }
  }

  /** A second Apply changes nothing at all, exactly when the first brought every enabled instance up. */
  lemma ApplyIsIdempotent(s: State, fate: Fate)
    requires Safe(s)
    ensures AfterApply(AfterApply(s, fate), fate) == AfterApply(s, fate)
            <==> AllUp(AfterApply(s, fate).units, OrderOf(s.desired), Wanted(s.desired))
  {
    var s', want, ids := AfterApply(s, fate), Wanted(s.desired), OrderOf(s.desired);
    ApplyKeepsSafe(s, fate);
    ApplyConverges(s, fate);
    PruneOfConverged(s');
    forall id | id in ids ensures id in s'.units && s'.units[id].inst == want[id]
                                  && (s'.units[id].up ==> want[id].Enabled()) {
      assert ApplyRound(s, fate).Settled(s.units, s'.units, |ids|, id);
    }
    if AllUp(s'.units, ids, want) {
      AtRestStaysAtRest(Before(s'), ids, want, s.tunnels, fate);
    } else {
      UnrestMakesRequests(Before(s'), ids, want, s.tunnels, fate);
    }
  }

  lemma CloseNone(units: Units, lib: Library)
    ensures CloseAll(units, {}, lib) == lib
  {
  }

  lemma PruneOfConverged(s: State)
    requires s.units.Keys == Wanted(s.desired).Keys
    ensures Pruned(s) == Before(s)
  {
    var gone := s.units.Keys - Wanted(s.desired).Keys;
    assert gone == {};
    CloseNone(s.units, s.lib);
    assert Without(s.units, {}) == s.units;
  }
}
