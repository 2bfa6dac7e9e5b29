/** The order of release numbers such as s2609.003. */
module Versions {
  import opened Text

  // ---------- 64-bit arithmetic ----------

  const TWO_64 := 0x1_0000_0000_0000_0000
  const TWO_63 := 0x8000_0000_0000_0000

  /** Go's int64 wraps around. */
  function Wrap(n: int): (r: int)
    ensures -TWO_63 <= r < TWO_63
    ensures -TWO_63 <= n < TWO_63 ==> r == n
  {
    var m := n % TWO_64;
    if m >= TWO_63 then m - TWO_64 else m
  }

  predicate AllDigits(s: string) {
    forall i | 0 <= i < |s| :: IsDigit(s[i])
  }

  /** The number the digits spell, as far as 64 bits can tell. */
  function Accumulated(s: string): int
    requires AllDigits(s)
  {
    if s == "" then 0 else
      assert IsDigit(s[|s| - 1]);
      Wrap(Wrap(Accumulated(s[..|s| - 1]) * 10) + (s[|s| - 1] - '0') as int)
  }

  lemma {:induction false} SmallNumbersAreExact(s: string)
    requires AllDigits(s) && DigitsValue(s) < TWO_63
    ensures Accumulated(s) == DigitsValue(s)
  {
    if s != "" {
      SmallNumbersAreExact(s[..|s| - 1]);
    }
  }

  // ---------- parsing ----------

  /** The position of the first dot, or the length. */
  function Dot(s: string): (k: nat)
    ensures k <= |s| && (k < |s| ==> s[k] == '.') && forall j | 0 <= j < k :: s[j] != '.'
  {
    if s == "" || s[0] == '.' then 0 else 1 + Dot(s[1..])
  }

  function Stripped(v: string): string {
    Trim(TrimPrefix(Trim(v), "s"))
  }

  /** Year and month, a dot, a revision: two non-empty runs of digits. */
  predicate IsRelease(s: string) {
    var k := Dot(s);
    0 < k < |s| - 1 && AllDigits(s[..k]) && AllDigits(s[k + 1..])
  }

  function Number(s: string): int
    requires IsRelease(s)
  {
    var k := Dot(s);
    Wrap(Wrap(Accumulated(s[..k]) * 10000) + Accumulated(s[k + 1..]))
  }

  function Parsed(v: string): Option<int> {
    if IsRelease(Stripped(v)) then Some(Number(Stripped(v))) else None
  }

  /** One of the two digit loops. */
  method ParseDigits(s: string) returns (n: Option<int>)
    ensures n == if AllDigits(s) then Some(Accumulated(s)) else None
  {
    var num := 0;
    for i := 0 to |s|
      invariant AllDigits(s[..i]) && num == Accumulated(s[..i])
    {
      if s[i] < '0' || s[i] > '9' {
        return None;
      }
      assert s[..i + 1][..i] == s[..i] && s[..i + 1][i] == s[i];
      num := Wrap(Wrap(num * 10) + (s[i] - '0') as int);
    }
    assert s[..|s|] == s;
    n := Some(num);
  }

  method ParseVersion(v: string) returns (n: Option<int>)
    ensures n == Parsed(v)
  {
    var s := Stripped(v);
    var k := Dot(s);
    if s == "" || k == |s| || k == 0 || k + 1 == |s| {
      return None;
    }
    n := ParseRuns(s, k);
  }

  method ParseRuns(s: string, dot: nat) returns (n: Option<int>)
    requires 0 < dot < |s| - 1 && dot == Dot(s)
    ensures n == if IsRelease(s) then Some(Number(s)) else None
  {
    var ym := ParseDigits(s[..dot]);
    if ym.None? {
      return None;
    }
    var rev := ParseDigits(s[dot + 1..]);
    if rev.None? {
      return None;
    }
    n := Some(Wrap(Wrap(ym.value * 10000) + rev.value));
  }

  // ---------- comparing ----------

  function Sign(a: int, b: int): int {
    if a > b then 1 else if a < b then -1 else 0
  }

  /** strings.Compare. */
  function CompareStrings(a: string, b: string): int {
    if a == b then 0 else if AtMost(a, b) then -1 else 1
  }

  function CompareVersions(a: string, b: string): int {
    if Parsed(a).Some? && Parsed(b).Some? then Sign(Parsed(a).value, Parsed(b).value)
    else CompareStrings(Trim(a), Trim(b))
  }

  /** Swapping the arguments flips the sign, for all strings. */
  lemma CompareFlips(a: string, b: string)
    ensures CompareVersions(a, b) == -CompareVersions(b, a)
  {
    AtMostTotal(Trim(a), Trim(b));
    if AtMost(Trim(a), Trim(b)) && AtMost(Trim(b), Trim(a)) {
      AtMostAntisymmetric(Trim(a), Trim(b));
    }
  }

  /** A release whose number 64 bits can hold. */
  predicate Fits(s: string) {
    IsRelease(s) && Month(s) * 10000 + Revision(s) < TWO_63
  }

  function Month(s: string): nat
    requires IsRelease(s)
  {
    DigitsValue(s[..Dot(s)])
  }

  function Revision(s: string): nat
    requires IsRelease(s)
  {
    DigitsValue(s[Dot(s) + 1..])
  }

  lemma NumberIsExact(s: string)
    requires Fits(s)
    ensures Number(s) == Month(s) * 10000 + Revision(s)
  {
    var k := Dot(s);
    SmallNumbersAreExact(s[..k]);
    SmallNumbersAreExact(s[k + 1..]);
  }

  /** With four-digit revisions releases are ordered by month, then by revision, however many digits are written. */
  lemma CompareIsLexicographic(a: string, b: string)
    requires Fits(Stripped(a)) && Fits(Stripped(b))
    requires Revision(Stripped(a)) < 10000 && Revision(Stripped(b)) < 10000
    ensures CompareVersions(a, b) ==
            if Month(Stripped(a)) != Month(Stripped(b)) then Sign(Month(Stripped(a)), Month(Stripped(b)))
            else Sign(Revision(Stripped(a)), Revision(Stripped(b)))
  {
    NumberIsExact(Stripped(a));
    NumberIsExact(Stripped(b));
  }

  /** Beyond four digits a large revision can outweigh a later month; this says exactly when it does not. */
  lemma LaterMonthWins(a: string, b: string)
    requires Fits(Stripped(a)) && Fits(Stripped(b)) && Month(Stripped(a)) < Month(Stripped(b))
    ensures CompareVersions(a, b) == -1 <==>
            Revision(Stripped(a)) - Revision(Stripped(b)) < 10000 * (Month(Stripped(b)) - Month(Stripped(a)))
  {
    NumberIsExact(Stripped(a));
    NumberIsExact(Stripped(b));
  }

  // ---------- when the order is transitive ----------

  ghost predicate TransitiveOn(S: iset<string>) {
    forall a, b, c | a in S && b in S && c in S && CompareVersions(a, b) <= 0 && CompareVersions(b, c) <= 0 ::
      CompareVersions(a, c) <= 0
  }

  /** Two releases, in order by number, with a string that is no release between them the other way round. */
  ghost predicate Torn(a: string, b: string, c: string) {
    && Parsed(a).Some? && Parsed(b).Some? && Parsed(c).None?
    && Parsed(a).value <= Parsed(b).value
    && Below(Trim(b), Trim(c)) && Below(Trim(c), Trim(a))
  }

  /** Not above: by number between releases, by text otherwise. */
  lemma NotAbove(a: string, b: string)
    ensures CompareVersions(a, b) <= 0 <==>
            if Parsed(a).Some? && Parsed(b).Some? then Parsed(a).value <= Parsed(b).value else AtMost(Trim(a), Trim(b))
  {
    AtMostTotal(Trim(a), Trim(a));
  }

  /** Whether a string is a release shows in its trimmed text. */
  lemma ReleaseShows(a: string, b: string)
    requires Parsed(a).Some? && Parsed(b).None?
    ensures Trim(a) != Trim(b)
  {
  }

  lemma TornBreaks(a: string, b: string, c: string)
    requires Torn(a, b, c)
    ensures CompareVersions(a, b) <= 0 && CompareVersions(b, c) <= 0 && CompareVersions(a, c) > 0
  {
    NotAbove(a, b);
    NotAbove(b, c);
    NotAbove(a, c);
    if AtMost(Trim(a), Trim(c)) { AtMostAntisymmetric(Trim(a), Trim(c)); }
  }

  /** A step that breaks transitivity comes from a torn triple among its strings. */
  lemma BreaksAreTorn(a: string, b: string, c: string)
    requires CompareVersions(a, b) <= 0 && CompareVersions(b, c) <= 0 && CompareVersions(a, c) > 0
    ensures Torn(a, b, c) || Torn(c, a, b) || Torn(b, c, a)
  {
    NotAbove(a, b);
    NotAbove(b, c);
    NotAbove(a, c);
    Above(a, c);
    if Parsed(a).Some? && Parsed(b).Some? && Parsed(c).None? {
      StrictlyBelow(b, c);
    } else if Parsed(a).Some? && Parsed(b).None? && Parsed(c).Some? {
      StrictlyBelow(a, b);
      StrictlyBelow(b, c);
    } else if Parsed(a).None? && Parsed(b).Some? && Parsed(c).Some? {
      StrictlyBelow(a, b);
    } else if !(Parsed(a).Some? && Parsed(b).Some? && Parsed(c).Some?) {
      AtMostTransitive(Trim(a), Trim(b), Trim(c));
    }
  }

  lemma Above(a: string, b: string)
    requires CompareVersions(a, b) > 0
    ensures if Parsed(a).Some? && Parsed(b).Some? then Parsed(a).value > Parsed(b).value else Below(Trim(b), Trim(a))
  {
    AtMostTotal(Trim(a), Trim(b));
  }

  /** Of a release and another string neither above the other has the other's text. */
  lemma StrictlyBelow(a: string, b: string)
    requires CompareVersions(a, b) <= 0 && Parsed(a).Some? != Parsed(b).Some?
    ensures Below(Trim(a), Trim(b))
  {
    NotAbove(a, b);
    if Parsed(a).Some? { ReleaseShows(a, b); } else { ReleaseShows(b, a); }
  }

  /** On a set of strings the order is transitive exactly when the set holds no torn triple. */
  lemma TransitiveExactlyWhen(S: iset<string>)
    ensures TransitiveOn(S) <==> forall a, b, c | a in S && b in S && c in S :: !Torn(a, b, c)
  {
    if TransitiveOn(S) {
      forall a, b, c | a in S && b in S && c in S ensures !Torn(a, b, c) {
        if Torn(a, b, c) { TornBreaks(a, b, c); }
      }
    } else {
      var a, b, c :| a in S && b in S && c in S
                     && CompareVersions(a, b) <= 0 && CompareVersions(b, c) <= 0 && CompareVersions(a, c) > 0;
      BreaksAreTorn(a, b, c);
    }
  }

  /** Releases alone are ordered transitively. */
  lemma ReleasesAreTransitive(S: iset<string>)
    requires forall v | v in S :: Parsed(v).Some?
    ensures TransitiveOn(S)
  {
    TransitiveExactlyWhen(S);
  }

  // ---------- a torn triple ----------

  lemma NoSpace(c: char)
    requires 'a' <= c <= 'z' || IsDigit(c)
    ensures !IsSpace(c)
  {
  }

  /** One figure, a dot, a nought. */
  lemma OneFigure(s: string)
    requires |s| == 3 && IsDigit(s[0]) && s[1] == '.' && s[2] == '0'
    ensures IsRelease(s) && Number(s) == (s[0] - '0') as int * 10000
  {
    assert Dot(s) == 1;
    OneDigit(s[..1]);
    OneDigit(s[2..]);
  }

  lemma OneDigit(s: string)
    requires |s| == 1 && IsDigit(s[0])
    ensures AllDigits(s) && Accumulated(s) == (s[0] - '0') as int
  {
    assert s[..0] == "";
  }

  lemma WithPrefix(v: string)
    requires |v| == 4 && v[0] == 's' && v[1] == '1' && v[2] == '.' && v[3] == '0'
    ensures Trim(v) == v && Parsed(v) == Some(10000)
  {
    NoSpace('s'); NoSpace('1'); NoSpace('0');
    TrimFixes(v);
    TrimFixes(v[1..]);
    assert "s" <= v && TrimPrefix(v, "s") == v[1..];
    OneFigure(v[1..]);
  }

  lemma WithoutPrefix(v: string)
    requires |v| == 3 && v[0] == '2' && v[1] == '.' && v[2] == '0'
    ensures Trim(v) == v && Parsed(v) == Some(20000)
  {
    NoSpace('2'); NoSpace('0');
    TrimFixes(v);
    OneFigure(v);
  }

  lemma NoRelease(v: string)
    requires |v| == 1 && v[0] == 'a'
    ensures Trim(v) == v && Parsed(v) == None
  {
    NoSpace('a');
    TrimFixes(v);
  }

  /** s1.0 before 2.0 before a before s1.0. */
  lemma MixedOrderHasACycle(a: string, b: string, c: string)
    requires a == ['s', '1', '.', '0'] && b == ['2', '.', '0'] && c == ['a']
    ensures Torn(a, b, c)
    ensures CompareVersions(a, b) == CompareVersions(b, c) == CompareVersions(c, a) == -1
  {
    WithPrefix(a);
    WithoutPrefix(b);
    NoRelease(c);
    assert AtMost(b, c) && AtMost(c, a);
  }

  // ---------- what counts as a release ----------

  /** The text between, trimmed, after an s that may stand in front. */
  ghost predicate HasBody(v: string, body: string) {
    var t := Trim(v);
    body == Trim(if t != "" && t[0] == 's' then t[1..] else t)
  }

  ghost predicate IsSpelling(body: string, month: string, revision: string) {
    body == month + "." + revision && month != "" && revision != "" && AllDigits(month) && AllDigits(revision)
  }

  lemma BodyIs(v: string)
    ensures HasBody(v, Stripped(v))
  {
  }

  lemma FirstDot(month: string, revision: string)
    requires AllDigits(month)
    ensures Dot(month + "." + revision) == |month|
  {
    var s := month + "." + revision;
    assert s[|month|] == '.';
    assert forall j | 0 <= j < |month| :: s[j] == month[j] && IsDigit(month[j]);
  }

  /** Two runs of digits around a dot, behind an s or not, are a release, numbered by the month and then the revision. */
  lemma SpelledIsRelease(v: string, body: string, month: string, revision: string)
    requires HasBody(v, body) && IsSpelling(body, month, revision)
    ensures Parsed(v).Some?
    ensures DigitsValue(month) * 10000 + DigitsValue(revision) < TWO_63 ==>
              Parsed(v).value == DigitsValue(month) * 10000 + DigitsValue(revision)
  {
    BodyIs(v);
    FirstDot(month, revision);
    assert body[..|month|] == month && body[|month| + 1..] == revision;
    if DigitsValue(month) * 10000 + DigitsValue(revision) < TWO_63 {
      NumberIsExact(body);
    }
  }

  lemma CutAtDot(s: string, k: nat)
    requires k < |s| && s[k] == '.'
    ensures s == s[..k] + "." + s[k + 1..]
  {
  }

  /** Nothing else is a release. */
  lemma ReleaseIsSpelled(v: string, body: string)
    requires HasBody(v, body) && Parsed(v).Some?
    ensures exists month, revision :: IsSpelling(body, month, revision)
  {
    BodyIs(v);
    CutAtDot(body, Dot(body));
    assert IsSpelling(body, body[..Dot(body)], body[Dot(body) + 1..]);
  }
}
