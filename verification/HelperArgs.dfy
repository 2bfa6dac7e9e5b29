/** The command line by which the panel tells its update helper what to do. */
module HelperArgs {
  import opened Text

  const APPLY := "--ycfrp-apply-update"
  const TARGET := "--ycfrp-target"
  const STAGED := "--ycfrp-staged"
  const PARENT := "--ycfrp-parent-pid"
  const DATA := "--ycfrp-data-dir"
  const PORT := "--ycfrp-port"

  datatype ApplyRequest = ApplyRequest(target: string, staged: string, parent: int, dataDir: string, port: int)

  // ---------- writing and reading ----------

  /** The arguments LaunchHelper passes. */
  function Arguments(r: ApplyRequest): seq<string> {
    [APPLY, TARGET, r.target, STAGED, r.staged, PARENT, Itoa(r.parent), DATA, r.dataDir, PORT, Itoa(r.port)]
  }

  predicate AllDigits(s: string) {
    s != "" && forall i | 0 <= i < |s| :: IsDigit(s[i])
  }

  /** strconv.Atoi with its error dropped: a sign may stand before the digits, and anything that is no number reads as 0. */
  function Atoi(s: string): int {
    if AllDigits(s) then DigitsValue(s)
    else if s != "" && (s[0] == '-' || s[0] == '+') && AllDigits(s[1..]) then
      if s[0] == '-' then -(DigitsValue(s[1..]) as int) else DigitsValue(s[1..])
    else 0
  }

  lemma AtoiReadsBack(n: int)
    ensures Atoi(Itoa(n)) == n
  {
    if n < 0 {
      assert Itoa(n)[1..] == Decimal(-n) && Itoa(n)[0] == '-';
      DecimalReadsBack(-n);
    } else {
      DecimalReadsBack(n);
    }
  }

  /** What follows the first occurrence of the flag from position i on; an occurrence at the very end is passed over. */
  function Following(args: seq<string>, flag: string, i: nat): string
    decreases |args| - i
  {
    if i + 1 >= |args| then "" else if args[i] == flag then args[i + 1] else Following(args, flag, i + 1)
  }

  method Get(args: seq<string>, flag: string) returns (value: string)
    ensures value == Following(args, flag, 0)
  {
    for i := 0 to |args|
      invariant Following(args, flag, 0) == Following(args, flag, i)
    {
      if args[i] == flag && i + 1 < |args| {
        return args[i + 1];
      }
    }
    value := "";
  }

  function Read(args: seq<string>): ApplyRequest {
    ApplyRequest(Following(args, TARGET, 0), Following(args, STAGED, 0), Atoi(Following(args, PARENT, 0)),
                 Following(args, DATA, 0), Atoi(Following(args, PORT, 0)))
  }

  method ParseApplyRequest(args: seq<string>) returns (r: Option<ApplyRequest>)
    ensures r == if Read(args).target == "" || Read(args).staged == "" then None else Some(Read(args))
  {
    var target := Get(args, TARGET);
    var staged := Get(args, STAGED);
    var dataDir := Get(args, DATA);
    var parent, port := 0, 0;
    var v := Get(args, PARENT);
    if v != "" {
      parent := Atoi(v);
    }
    v := Get(args, PORT);
    if v != "" {
      port := Atoi(v);
    }
    if target == "" || staged == "" {
      return None;
    }
    r := Some(ApplyRequest(target, staged, parent, dataDir, port));
  }

  // ---------- when the helper is told what was meant ----------

  /** No path is mistaken for a flag; or where one is, the mistake happens to read what was meant. */
  predicate Unmistakable(r: ApplyRequest) {
    && (r.target == STAGED ==> r.staged == STAGED)
    && (r.target == PARENT || r.staged == PARENT ==> r.parent == 0)
    && (if r.target == DATA then r.dataDir == STAGED else r.staged == DATA ==> r.dataDir == PARENT)
    && (r.target == PORT || r.staged == PORT || r.dataDir == PORT ==> r.port == 0)
  }

  lemma FlagsDiffer()
    ensures APPLY != TARGET && APPLY != STAGED && APPLY != PARENT && APPLY != DATA && APPLY != PORT
    ensures TARGET != STAGED && TARGET != PARENT && TARGET != DATA && TARGET != PORT
    ensures STAGED != PARENT && STAGED != DATA && STAGED != PORT
    ensures PARENT != DATA && PARENT != PORT && DATA != PORT
  {
    assert TARGET[8] != STAGED[8];
  }

  /** A flag is no number. */
  predicate IsFlag(f: string) {
    |f| > 2 && f[0] == '-' && f[1] == '-'
  }

  lemma FlagsAreFlags()
    ensures IsFlag(TARGET) && IsFlag(STAGED) && IsFlag(PARENT) && IsFlag(DATA) && IsFlag(PORT)
  {
  }

  lemma FlagIsNoNumber(f: string, n: int)
    requires IsFlag(f)
    ensures Atoi(f) == 0 && f != Itoa(n)
  {
    if n < 0 { assert Itoa(n)[1..] == Decimal(-n); }
    assert f[1..][0] == '-';
  }

  /** The first place where the flag stands decides. */
  lemma {:induction false} FirstDecides(args: seq<string>, flag: string, at: nat, i: nat)
    requires i <= at && at + 1 < |args| && args[at] == flag && forall j | i <= j < at :: args[j] != flag
    ensures Following(args, flag, i) == args[at + 1]
    decreases at - i
  {
    if i < at {
      FirstDecides(args, flag, at, i + 1);
    }
  }

  /** Where the two paths stand before the flag that is looked for, they are found first. */
  lemma LookupBehindPaths(args: seq<string>, r: ApplyRequest, flag: string, at: nat)
    requires args == Arguments(r) && (at == 5 || at == 7) && args[at] == flag
    requires flag != APPLY && flag != TARGET && flag != STAGED && (at == 7 ==> flag != PARENT && flag != Itoa(r.parent))
    ensures Following(args, flag, 0) == if r.target == flag then STAGED else if r.staged == flag then PARENT else args[at + 1]
  {
    FirstDecides(args, flag, if r.target == flag then 2 else if r.staged == flag then 4 else at, 0);
  }

  lemma LookupPort(args: seq<string>, r: ApplyRequest, flag: string)
    requires args == Arguments(r) && args[9] == flag
    requires flag != APPLY && flag != TARGET && flag != STAGED && flag != PARENT && flag != DATA && flag != Itoa(r.parent)
    ensures Following(args, flag, 0) ==
            if r.target == flag then STAGED else if r.staged == flag then PARENT
            else if r.dataDir == flag then flag else Itoa(r.port)
  {
    FirstDecides(args, flag, if r.target == flag then 2 else if r.staged == flag then 4 else if r.dataDir == flag then 8 else 9, 0);
  }

  lemma LookupPaths(args: seq<string>, r: ApplyRequest)
    requires args == Arguments(r)
    ensures Following(args, TARGET, 0) == r.target
    ensures Following(args, STAGED, 0) == if r.target == STAGED then STAGED else r.staged
  {
    FlagsDiffer();
    FirstDecides(args, TARGET, 1, 0);
    FirstDecides(args, STAGED, if r.target == STAGED then 2 else 3, 0);
  }

  lemma ParentRead(args: seq<string>, r: ApplyRequest)
    requires args == Arguments(r)
    ensures Atoi(Following(args, PARENT, 0)) == if r.target == PARENT || r.staged == PARENT then 0 else r.parent
  {
    FlagsDiffer();
    FlagsAreFlags();
    FlagIsNoNumber(STAGED, 0);
    FlagIsNoNumber(PARENT, 0);
    LookupBehindPaths(args, r, PARENT, 5);
    AtoiReadsBack(r.parent);
  }

  lemma PortRead(args: seq<string>, r: ApplyRequest)
    requires args == Arguments(r)
    ensures Atoi(Following(args, PORT, 0)) ==
            if r.target == PORT || r.staged == PORT || r.dataDir == PORT then 0 else r.port
  {
    FlagsDiffer();
    FlagsAreFlags();
    FlagIsNoNumber(STAGED, 0);
    FlagIsNoNumber(PARENT, 0);
    FlagIsNoNumber(PORT, r.parent);
    LookupPort(args, r, PORT);
    AtoiReadsBack(r.port);
  }

  lemma DataRead(args: seq<string>, r: ApplyRequest)
    requires args == Arguments(r)
    ensures Following(args, DATA, 0) == if r.target == DATA then STAGED else if r.staged == DATA then PARENT else r.dataDir
  {
    FlagsDiffer();
    FlagsAreFlags();
    FlagIsNoNumber(DATA, r.parent);
    LookupBehindPaths(args, r, DATA, 7);
  }

  /** The helper reads exactly what the panel wrote, for exactly these requests. */
  lemma HelperIsToldWhatWasMeant(args: seq<string>, r: ApplyRequest)
    requires args == Arguments(r)
    ensures Read(args) == r <==> Unmistakable(r)
  {
    LookupPaths(args, r);
    DataRead(args, r);
    ParentRead(args, r);
    PortRead(args, r);
  }
}
