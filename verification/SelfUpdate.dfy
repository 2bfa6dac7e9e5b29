/** The self-update helper: swap two binaries by renames, roll back if that fails, restart. */
module SelfUpdate {

  type Path = string
  type Files<Binary> = map<Path, Binary>

  /** What the helper does to the outside world, in the order in which it does it. */
  datatype Event =
    | Look(alive: bool)
    | Removal(path: Path, done: bool)
    | Renaming(source: Path, destination: Path, done: bool)

  /**
  The helper's machine: a directory in which removing and renaming are atomic, and the table of processes.
  It remembers every state the directory has been in, and every event.
  */
  class Machine<Binary(==)> {
    var files: Files<Binary>
    var operations: nat
    var looks: nat
    ghost var history: seq<Files<Binary>>
    ghost var log: seq<Event>
    const works: nat -> bool  // whether the operating system carries out operation n
    const alive: nat -> bool  // what the n-th look at the parent process shows

    ghost predicate Valid()
      reads this
    {
      history != [] && history[|history| - 1] == files
    }

    ghost predicate Untouched()
      reads this
    {
      history == [files] && log == [] && looks == 0
    }

    constructor (files: Files<Binary>, works: nat -> bool, alive: nat -> bool)
      ensures Valid() && Untouched() && this.files == files && this.works == works && this.alive == alive
    {
      this.files, this.works, this.alive, operations, looks := files, works, alive, 0, 0;
      history, log := [files], [];
    }

    method LookAtParent() returns (there: bool)
      modifies this`looks, this`log
      ensures there == alive(old(looks)) && looks == old(looks) + 1 && log == old(log) + [Look(there)]
    {
      there := alive(looks);
      looks := looks + 1;
      log := log + [Look(there)];
    }

    method Remove(path: Path) returns (ok: bool)
      requires Valid()
      modifies this`files, this`operations, this`history, this`log
      ensures Valid() && history == old(history) + [files] && operations == old(operations) + 1
      ensures log == old(log) + [Removal(path, ok)]
      ensures ok <==> works(old(operations)) && path in old(files)
      ensures files == if ok then old(files) - {path} else old(files)
    {
      ok := works(operations) && path in files;
      operations := operations + 1;
      if ok {
        files := files - {path};
      }
      history, log := history + [files], log + [Removal(path, ok)];
    }

    method Rename(source: Path, destination: Path) returns (ok: bool)
      requires Valid()
      modifies this`files, this`operations, this`history, this`log
      ensures Valid() && history == old(history) + [files] && operations == old(operations) + 1
      ensures log == old(log) + [Renaming(source, destination, ok)]
      ensures ok <==> works(old(operations)) && source in old(files)
      ensures files == if ok then (old(files) - {source})[destination := old(files)[source]] else old(files)
    {
      ok := works(operations) && source in files;
      operations := operations + 1;
      if ok {
        files := (files - {source})[destination := files[source]];
      }
      history, log := history + [files], log + [Renaming(source, destination, ok)];
    }
  }

  datatype Request = Request(target: Path, staged: Path, parent: int)

  function Backup(target: Path): Path { target + ".bak" }

  // ---------- safety of one state ----------

  /** Something the panel can be started from is at hand: a whole binary at the target, or the old one beside it. */
  ghost predicate Startable<Binary>(before: Files<Binary>, now: Files<Binary>, r: Request) {
    r.target in before ==>
      var bak := Backup(r.target);
      || (r.target in now && (now[r.target] == before[r.target] || (r.staged in before && now[r.target] == before[r.staged])))
      || (r.target !in now && bak in now && now[bak] == before[r.target])
  }

  /** The old binary still exists, at the target or beside it. */
  ghost predicate Recoverable<Binary>(before: Files<Binary>, now: Files<Binary>, r: Request) {
    r.target in before ==>
      var bak := Backup(r.target);
      (r.target in now && now[r.target] == before[r.target]) || (bak in now && now[bak] == before[r.target])
  }

  /** In every state so far. */
  ghost predicate Unharmed<Binary>(before: Files<Binary>, history: seq<Files<Binary>>, r: Request) {
    forall i | 0 <= i < |history| :: Startable(before, history[i], r) && Recoverable(before, history[i], r)
  }

  ghost predicate Elsewhere<Binary>(before: Files<Binary>, now: Files<Binary>, r: Request) {
    forall p | p != r.target && p != r.staged && p != Backup(r.target) ::
      (p in now <==> p in before) && (p in now ==> now[p] == before[p])
  }

  // ---------- the run ----------

  datatype Outcome = Outcome(code: nat, rollbackFailed: bool)

  /** The look that decides: the one after the first that finds the parent gone, or after the last there is time for. */
  function LastLook(alive: nat -> bool, patience: nat, from: nat): nat
    decreases patience - from
  {
    if from >= patience then from else if !alive(from) then from + 1 else LastLook(alive, patience, from + 1)
  }

  /** Up to the look that finds the parent gone it was there; it is never looked for longer than there is time. */
  lemma {:induction false} LastLookIs(alive: nat -> bool, patience: nat, from: nat)
    requires from <= patience
    ensures var k := LastLook(alive, patience, from);
      && from <= k <= patience
      && (if exists i :: from <= i < patience && !alive(i) then k > from && !alive(k - 1) && forall i | from <= i < k - 1 :: alive(i)
          else k == patience)
    decreases patience - from
  {
    if from < patience && alive(from) {
      LastLookIs(alive, patience, from + 1);
    }
  }

  /** Was the parent, if one is given, seen dead at the end of the wait? */
  predicate SeenDead(r: Request, alive: nat -> bool, patience: nat) {
    r.parent <= 0 || !alive(LastLook(alive, patience, 0))
  }

  /** Nothing but looks, of which the last one shows the parent gone. */
  ghost predicate EndsDead(r: Request, log: seq<Event>) {
    && (forall i | 0 <= i < |log| :: log[i].Look?)
    && (r.parent > 0 ==> log != [] && log[|log| - 1] == Look(false))
  }

  /** The looks come first, and anything after them only after the last one showed the parent gone. */
  ghost predicate DeadFirst(r: Request, log: seq<Event>, looks: nat) {
    && looks <= |log| && (forall i | 0 <= i < |log| :: log[i].Look? <==> i < looks)
    && (looks < |log| ==> EndsDead(r, log[..looks]))
  }

  /** Waits for the parent, looking at it until it is gone or time runs out, and once more at the end. */
  method WaitForParent<Binary(==)>(r: Request, patience: nat, m: Machine<Binary>) returns (gone: bool)
    requires m.log == [] && m.looks == 0
    modifies m`looks, m`log
    ensures gone <==> SeenDead(r, m.alive, patience)
    ensures m.looks == (if r.parent <= 0 then 0 else LastLook(m.alive, patience, 0) + 1) && |m.log| == m.looks
    ensures forall i | 0 <= i < |m.log| :: m.log[i] == Look(m.alive(i))
    ensures gone ==> EndsDead(r, m.log)
  {
    if r.parent <= 0 {
      return true;
    }
    var there := true;
    while m.looks < patience && there
      invariant |m.log| == m.looks && forall i | 0 <= i < m.looks :: m.log[i] == Look(m.alive(i))
      invariant if there then LastLook(m.alive, patience, 0) == LastLook(m.alive, patience, m.looks)
                else LastLook(m.alive, patience, 0) == m.looks
      invariant m.looks <= patience
      decreases patience - m.looks
    {
      there := m.LookAtParent();
    }
    there := m.LookAtParent();
    gone := !there;
  }

  /** The removal of an old backup and the two renames, the second undone if it fails. */
  method Swap<Binary(==)>(r: Request, m: Machine<Binary>) returns (swapped: bool, rollbackFailed: bool)
    requires m.Valid() && m.history == [m.files] && r.staged in m.files
    modifies m`files, m`operations, m`history, m`log
    ensures m.Valid() && m.history[0] == old(m.files)
    ensures Unharmed(old(m.files), m.history, r) && Elsewhere(old(m.files), m.files, r)
    ensures |old(m.log)| <= |m.log| && m.log[..|old(m.log)|] == old(m.log)
    ensures forall i | |old(m.log)| <= i < |m.log| :: !m.log[i].Look?
    ensures swapped <==> && r.target in old(m.files) && r.staged != r.target
                         && m.works(old(m.operations) + 1) && m.works(old(m.operations) + 2)
    ensures swapped ==> r.target in m.files
    ensures swapped && r.staged != Backup(r.target) ==>
              m.files[r.target] == old(m.files)[r.staged]
              && Backup(r.target) in m.files && m.files[Backup(r.target)] == old(m.files)[r.target]
    ensures swapped && r.staged == Backup(r.target) ==> m.files[r.target] == old(m.files)[r.target]
    ensures !swapped && r.target in old(m.files) && !rollbackFailed ==>
              r.target in m.files && m.files[r.target] == old(m.files)[r.target]
    ensures rollbackFailed <==> && !swapped && r.target in old(m.files)
                                && m.works(old(m.operations) + 1) && !m.works(old(m.operations) + 3)
    ensures rollbackFailed ==>
              && |m.log| == |old(m.log)| + 4
              && m.log[|old(m.log)| + 1..] == [Renaming(r.target, Backup(r.target), true), Renaming(r.staged, r.target, false),
                                               Renaming(Backup(r.target), r.target, false)]
  {
    swapped, rollbackFailed := false, false;
    var bak := Backup(r.target);
    var removed := m.Remove(bak);
    var ok := m.Rename(r.target, bak);
    if !ok {
      return;
    }
    ok := m.Rename(r.staged, r.target);
    if !ok {
      ok := m.Rename(bak, r.target);
      rollbackFailed := !ok;
      return;
    }
    swapped := true;
  }

  method RunApply<Binary(==)>(r: Request, patience: nat, verifies: bool, restarts: bool, m: Machine<Binary>) returns (o: Outcome)
    requires m.Valid() && m.Untouched()
    modifies m
    ensures m.Valid() && m.history[0] == old(m.files)
    // cut at any point, the panel can be started; and the old binary is given up at the very end only
    ensures forall i | 0 <= i < |m.history| :: Startable(old(m.files), m.history[i], r)
    ensures Unharmed(old(m.files), m.history[..|m.history| - 1], r)
    ensures o.code != 0 ==> Unharmed(old(m.files), m.history, r)
    // success
    ensures o.code == 0 <==>
            && SeenDead(r, m.alive, patience) && verifies && restarts
            && r.staged in old(m.files) && r.target in old(m.files) && r.staged != r.target
            && m.works(old(m.operations) + 1) && m.works(old(m.operations) + 2)
    ensures o.code == 0 ==>
              r.target in m.files && m.files[r.target] == old(m.files)[if r.staged == Backup(r.target) then r.target else r.staged]
    // failure
    ensures r.target in old(m.files) && r.target !in m.files ==> o.rollbackFailed && o.code != 0
    ensures o.rollbackFailed ==>
              !m.works(old(m.operations) + 3) && m.log != [] && m.log[|m.log| - 1] == Renaming(Backup(r.target), r.target, false)
    // nothing moves before the parent was seen dead, and nothing else moves at all
    ensures DeadFirst(r, m.log, m.looks)
    ensures Elsewhere(old(m.files), m.files, r)
  {
    var gone := WaitForParent(r, patience, m);
    if !gone {
      return Outcome(1, false);
    }
    if !(verifies && r.staged in m.files) {
      return Outcome(1, false);
    }
    ghost var looked := m.log;
    var swapped, rollbackFailed := Swap(r, m);
    assert m.log[..m.looks] == looked && DeadFirst(r, m.log, m.looks);
    if !swapped {
      return Outcome(1, rollbackFailed);
    }
    if !restarts {
      return Outcome(1, false);
    }
    ghost var before := m.history;
    var removed := m.Remove(Backup(r.target));
    assert m.history[..|m.history| - 1] == before;
    assert m.log[..m.looks] == looked;
    o := Outcome(0, false);
  }

  /** A staged file on the backup's own path: the helper reports success, and the old binary is where it was. */
  method RunApplyFromBackup<Binary(==)>(r: Request, patience: nat, m: Machine<Binary>) returns (o: Outcome)
    requires m.Valid() && m.Untouched() && r.staged == Backup(r.target)
    requires r.staged in m.files && r.target in m.files && SeenDead(r, m.alive, patience) && forall n :: m.works(n)
    modifies m
    ensures o.code == 0 && r.target in m.files && m.files[r.target] == old(m.files)[r.target]
  {
    o := RunApply(r, patience, true, true, m);
  }
}
