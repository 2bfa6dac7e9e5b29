/** The in-memory log: a buffer that compacts itself in place, and the viewer's query over it. */
module LogBuffer {
  import opened Text

  type Level = string

  datatype Entry = Entry(time: int, level: Level, source: string, message: string, raw: string)

  const DEFAULT_CAPACITY := 2000

  /** Levels the panel does not know rank as information. */
  function LevelRank(l: Level): nat {
    if l == "trace" then 0
    else if l == "debug" then 1
    else if l == "info" then 2
    else if l == "warn" then 3
    else if l == "error" then 4
    else if l == "fatal" then 5
    else 2
  }

  /** How many entries a compaction keeps. */
  function Keep(capacity: nat): nat { capacity - capacity / 8 }

  /** A bounded suffix of what was accepted: all of it, or no less than a compaction keeps. */
  ghost predicate Retained(contents: seq<Entry>, accepted: seq<Entry>, capacity: nat) {
    && |contents| <= capacity && |contents| <= |accepted|
    && contents == accepted[|accepted| - |contents|..]
    && (|contents| < |accepted| ==> |contents| >= Keep(capacity))
  }

  /** Compactions cost at most seven moves per accepted entry, and the entries past those kept pay for the next one. */
  ghost predicate Paid(len: nat, accepted: nat, copied: nat, capacity: nat) {
    copied <= 7 * accepted && copied + 7 * (len - Keep(capacity)) <= 7 * accepted
  }

  /** The buffer with one more entry in it. */
  ghost function Appended(contents: seq<Entry>, entry: Entry, capacity: nat): seq<Entry>
    requires |contents| <= capacity
  {
    var grown := contents + [entry];
    if |grown| > capacity then grown[|grown| - Keep(capacity)..] else grown
  }

  lemma AppendedIsRetained(contents: seq<Entry>, entry: Entry, accepted: seq<Entry>, capacity: nat)
    requires Retained(contents, accepted, capacity)
    ensures Retained(Appended(contents, entry, capacity), accepted + [entry], capacity)
  {
    var grown, all := contents + [entry], accepted + [entry];
    assert grown == all[|all| - |grown|..];
    if |grown| > capacity {
      var keep := Keep(capacity);
      assert grown[|grown| - keep..] == all[|all| - keep..];
    }
  }

  lemma AppendedIsPaid(len: nat, accepted: nat, copied: nat, capacity: nat)
    requires Paid(len, accepted, copied, capacity) && len <= capacity
    ensures len < capacity ==> Paid(len + 1, accepted + 1, copied, capacity)
    ensures len == capacity ==> Paid(Keep(capacity), accepted + 1, copied + Keep(capacity), capacity)
  {
    var q := capacity / 8;
    assert 8 * q <= capacity <= 8 * q + 7;
  }

  class Logger {
    const capacity: nat
    const data: array<Entry>
    var len: nat
    var minLevel: Level
    ghost var accepted: seq<Entry>  // every entry the level let through
    ghost var copied: nat           // entries moved by all compactions so far

    ghost predicate Valid()
      reads this, data
    {
      && capacity > 0 && data.Length == capacity + 1 && len <= capacity
      && Retained(data[..len], accepted, capacity)
      && Paid(len, |accepted|, copied, capacity)
    }

    ghost function Contents(): seq<Entry>
      requires Valid()
      reads this, data
    {
      data[..len]
    }

    constructor (capacity: int)
      ensures Valid() && fresh(data) && accepted == [] && copied == 0
      ensures this.capacity == if capacity <= 0 then 2000 else capacity
    {
      var c := if capacity <= 0 then DEFAULT_CAPACITY else capacity;
      this.capacity := c;
      data := new Entry[c + 1](_ => Entry(0, "", "", "", ""));
      len, minLevel := 0, "info";
      accepted, copied := [], 0;
    }

    method SetMinLevel(level: Level)
      requires Valid()
      modifies this`minLevel
      ensures Valid() && minLevel == level
    {
      minLevel := level;
    }

    method Append(entry: Entry)
      requires Valid()
      modifies this`len, this`accepted, this`copied, data
      ensures Valid()
      ensures accepted == if LevelRank(entry.level) < LevelRank(minLevel) then old(accepted) else old(accepted) + [entry]
      ensures Contents() == if LevelRank(entry.level) < LevelRank(minLevel) then old(Contents())
                            else Appended(old(Contents()), entry, capacity)
    {
      if LevelRank(entry.level) < LevelRank(minLevel) {
        return;
      }
      Record(entry);
    }

    method Record(entry: Entry)
      requires Valid()
      modifies this`len, this`accepted, this`copied, data
      ensures Valid() && accepted == old(accepted) + [entry]
      ensures Contents() == Appended(old(Contents()), entry, capacity)
    {
      ghost var contents, before := data[..len], accepted;
      AppendedIsPaid(len, |accepted|, copied, capacity);
      data[len] := entry;
      len := len + 1;
      accepted := accepted + [entry];
      assert data[..len] == contents + [entry];
      if len > capacity {
        Compact(capacity - capacity / 8);
      }
      ghost var now := data[..len];
      assert now == Appended(contents, entry, capacity);
      AppendedIsRetained(contents, entry, before, capacity);
      assert Retained(now, accepted, capacity);
    }

    /** Moves the last `keep` entries to the front, in place. */
    method Compact(keep: nat)
      requires keep <= len <= data.Length
      modifies this`len, this`copied, data
      ensures len == keep && data[..keep] == old(data[..len])[old(len) - keep..]
      ensures copied == old(copied) + keep
    {
      ghost var before := data[..len];
      var shift := len - keep;
      for i := 0 to keep
        invariant len == |before| && copied == old(copied)
        invariant data[..i] == before[shift..shift + i]
        invariant data[i..len] == before[i..]
      {
        assert data[shift + i] == data[i..len][shift] == before[shift + i];
        data[i] := data[shift + i];
        assert before[shift..shift + i + 1] == before[shift..shift + i] + [before[shift + i]];
      }
      len := keep;
      copied := copied + keep;
    }

    /** The last matching entries, no limit if it is not positive, sorted by time with the newest first. */
    method Query(minLevel: Level, keyword: string, limit: int) returns (out: seq<Entry>)
      requires Valid()
      ensures var keep := Wanted(minLevel, Lower(Trim(keyword)));
        IsStableSort(Picked(Contents(), keep, limit), out) && Picked(Contents(), keep, limit) <= Newest(accepted, 0, keep)
    {
      ghost var i;
      out, i := Pick(minLevel, Lower(Trim(keyword)), limit);
      QueryIsRight(accepted, Contents(), i, Wanted(minLevel, Lower(Trim(keyword))), limit);
      out := SortByTime(out);
    }

    /** The loop, from the newest entry back to entry i. */
    method Pick(minLevel: Level, key: string, limit: int) returns (out: seq<Entry>, ghost stop: nat)
      requires Valid()
      ensures stop <= len && out == Newest(Contents(), stop, Wanted(minLevel, key))
      ensures limit > 0 ==> |out| <= limit
      ensures stop == 0 || |out| == limit > 0
    {
      ghost var contents, keep := Contents(), Wanted(minLevel, key);
      out := [];
      var i := len;
      while i > 0
        invariant 0 <= i <= len && out == Newest(contents, i, keep)
        invariant limit > 0 ==> |out| < limit
      {
        i := i - 1;
        assert data[i] == contents[i];
        if Matches(data[i], minLevel, key) {
          out := out + [data[i]];
          if limit > 0 && |out| >= limit {
            break;
          }
        }
      }
      stop := i;
    }
  }

  // ---------- what the viewer asks for ----------

  predicate Contains(s: string, part: string) {
    exists i | 0 <= i <= |s| :: HasPrefix(s[i..], part)
  }

  predicate Matches(e: Entry, minLevel: Level, key: string) {
    && LevelRank(e.level) >= LevelRank(minLevel)
    && (key == "" || Contains(Lower(e.message + " " + e.raw + " " + e.source), key))
  }

  function Wanted(minLevel: Level, key: string): Entry -> bool {
    (e: Entry) => Matches(e, minLevel, key)
  }

  /** Of the entries from position i on those that pass, the newest first. */
  ghost function Newest(entries: seq<Entry>, i: nat, keep: Entry -> bool): seq<Entry>
    requires i <= |entries|
    decreases |entries| - i
  {
    if i == |entries| then [] else Newest(entries, i + 1, keep) + if keep(entries[i]) then [entries[i]] else []
  }

  /** The newest that pass, as many as there may be. */
  ghost function Picked(entries: seq<Entry>, keep: Entry -> bool, limit: int): seq<Entry> {
    var list := Newest(entries, 0, keep);
    if 0 < limit < |list| then list[..limit] else list
  }

  /** Looking further back only adds at the end. */
  lemma {:induction false} NewestGrows(entries: seq<Entry>, i: nat, keep: Entry -> bool)
    requires i <= |entries|
    ensures Newest(entries, i, keep) <= Newest(entries, 0, keep)
    decreases i
  {
    if i != 0 {
      NewestGrows(entries, i - 1, keep);
    }
  }

  /** The retained suffix answers as the whole history does. */
  lemma {:induction false} NewestOfSuffix(all: seq<Entry>, suffix: seq<Entry>, i: nat, keep: Entry -> bool)
    requires |suffix| <= |all| && suffix == all[|all| - |suffix|..] && i <= |suffix|
    ensures Newest(suffix, i, keep) == Newest(all, |all| - |suffix| + i, keep)
    decreases |suffix| - i
  {
    if i != |suffix| {
      NewestOfSuffix(all, suffix, i + 1, keep);
      assert suffix[i] == all[|all| - |suffix| + i];
    }
  }

  lemma QueryIsRight(accepted: seq<Entry>, contents: seq<Entry>, i: nat, keep: Entry -> bool, limit: int)
    requires |contents| <= |accepted| && contents == accepted[|accepted| - |contents|..] && i <= |contents|
    requires limit > 0 ==> |Newest(contents, i, keep)| <= limit
    requires i == 0 || |Newest(contents, i, keep)| == limit > 0
    ensures Newest(contents, i, keep) == Picked(contents, keep, limit) <= Newest(accepted, 0, keep)
  {
    NewestGrows(contents, i, keep);
    NewestOfSuffix(accepted, contents, i, keep);
    NewestGrows(accepted, |accepted| - |contents| + i, keep);
  }

  ghost predicate Chronological(entries: seq<Entry>) {
    forall i, j | 0 <= i < j < |entries| :: entries[i].time <= entries[j].time
  }

  ghost predicate NewestFirst(entries: seq<Entry>) {
    forall i, j | 0 <= i < j < |entries| :: entries[i].time >= entries[j].time
  }

  /** Nothing that passes is missed, nothing else gets in, and what was logged in order of time comes out newest first. */
  lemma {:induction false} NewestIsRight(entries: seq<Entry>, i: nat, keep: Entry -> bool)
    requires i <= |entries|
    ensures forall e :: e in Newest(entries, i, keep) <==> e in entries[i..] && keep(e)
    ensures Chronological(entries) ==> NewestFirst(Newest(entries, i, keep))
    decreases |entries| - i
  {
    if i != |entries| {
      NewestIsRight(entries, i + 1, keep);
      assert entries[i..] == [entries[i]] + entries[i + 1..];
      if Chronological(entries) && keep(entries[i]) {
        OldestGoesLast(entries[i], Newest(entries, i + 1, keep), entries[i + 1..]);
      }
    }
  }

  lemma OldestGoesLast(e: Entry, newer: seq<Entry>, later: seq<Entry>)
    requires NewestFirst(newer) && (forall r | r in newer :: r in later)
    requires forall k | 0 <= k < |later| :: e.time <= later[k].time
    ensures NewestFirst(newer + [e])
  {
    forall j | 0 <= j < |newer| ensures e.time <= newer[j].time {
      assert newer[j] in later;
    }
  }

  // ---------- the order in which they are shown ----------

  /** The entries of one moment, in order. */
  ghost function AtTime(list: seq<Entry>, t: int): seq<Entry> {
    if list == [] then [] else
      AtTime(list[..|list| - 1], t) + if list[|list| - 1].time == t then [list[|list| - 1]] else []
  }

  /** Newest first, and of entries with the same time the order is kept: sort.SliceStable. */
  ghost predicate IsStableSort(list: seq<Entry>, out: seq<Entry>) {
    NewestFirst(out) && forall t :: AtTime(out, t) == AtTime(list, t)
  }

  lemma {:induction false} AtTimeAdds(a: seq<Entry>, b: seq<Entry>, t: int)
    ensures AtTime(a + b, t) == AtTime(a, t) + AtTime(b, t)
  {
    if b == [] {
      assert a + b == a;
    } else {
      var n := |b| - 1;
      AtTimeAdds(a, b[..n], t);
      assert (a + b)[..|a + b| - 1] == a + b[..n] && (a + b)[|a + b| - 1] == b[n];
    }
  }

  lemma {:induction false} NoneAtTime(list: seq<Entry>, t: int)
    requires forall i | 0 <= i < |list| :: list[i].time != t
    ensures AtTime(list, t) == []
  {
    if list != [] {
      NoneAtTime(list[..|list| - 1], t);
    }
  }

  /** Inserting an entry before those that are older puts it behind all others of its time. */
  lemma InsertedAtTime(a: seq<Entry>, e: Entry, b: seq<Entry>, t: int)
    requires forall i | 0 <= i < |b| :: b[i].time < e.time
    ensures AtTime(a + [e] + b, t) == AtTime(a + b + [e], t)
  {
    AtTimeAdds(a + [e], b, t);
    AtTimeAdds(a, [e], t);
    AtTimeAdds(a + b, [e], t);
    AtTimeAdds(a, b, t);
    if t == e.time {
      NoneAtTime(b, t);
    } else {
      assert [e][..0] == [] && AtTime([e], t) == [];
    }
  }

  method Insert(sorted: seq<Entry>, e: Entry) returns (out: seq<Entry>)
    requires NewestFirst(sorted)
    ensures IsStableSort(sorted + [e], out)
  {
    var i := |sorted|;
    while i > 0 && sorted[i - 1].time < e.time
      invariant 0 <= i <= |sorted| && forall k | i <= k < |sorted| :: sorted[k].time < e.time
    {
      i := i - 1;
    }
    out := sorted[..i] + [e] + sorted[i..];
    InsertedIsSorted(sorted, e, i);
  }

  lemma InsertedIsSorted(sorted: seq<Entry>, e: Entry, i: nat)
    requires NewestFirst(sorted) && i <= |sorted| && forall k | i <= k < |sorted| :: sorted[k].time < e.time
    requires i == 0 || sorted[i - 1].time >= e.time
    ensures IsStableSort(sorted + [e], sorted[..i] + [e] + sorted[i..])
  {
    var a, b := sorted[..i], sorted[i..];
    assert a + b == sorted;
    InsertedInOrder(sorted, e, i);
    forall t ensures AtTime(a + [e] + b, t) == AtTime(sorted + [e], t) {
      InsertedAtTime(a, e, b, t);
    }
  }

  lemma InsertedInOrder(sorted: seq<Entry>, e: Entry, i: nat)
    requires NewestFirst(sorted) && i <= |sorted| && forall k | i <= k < |sorted| :: sorted[k].time < e.time
    requires i == 0 || sorted[i - 1].time >= e.time
    ensures NewestFirst(sorted[..i] + [e] + sorted[i..])
  {
    var out := sorted[..i] + [e] + sorted[i..];
    assert forall k | 0 <= k < |out| :: out[k] == if k < i then sorted[k] else if k == i then e else sorted[k - 1];
    assert forall k | 0 <= k < i :: sorted[k].time >= sorted[i - 1].time;
  }

  method SortByTime(list: seq<Entry>) returns (out: seq<Entry>)
    ensures IsStableSort(list, out)
  {
    out := [];
    for i := 0 to |list|
      invariant IsStableSort(list[..i], out)
    {
      ghost var before := out;
      out := Insert(out, list[i]);
      StillStable(list[..i], before, list[i], out);
      assert list[..i + 1] == list[..i] + [list[i]];
    }
    assert list[..|list|] == list;
  }

  lemma StillStable(list: seq<Entry>, sorted: seq<Entry>, e: Entry, out: seq<Entry>)
    requires IsStableSort(list, sorted) && IsStableSort(sorted + [e], out)
    ensures IsStableSort(list + [e], out)
  {
    forall t ensures AtTime(out, t) == AtTime(list + [e], t) {
      AtTimeAdds(sorted, [e], t);
      AtTimeAdds(list, [e], t);
    }
  }

  lemma {:induction false} AtTimeNotEmpty(list: seq<Entry>, i: nat)
    requires i < |list|
    ensures AtTime(list, list[i].time) != []
  {
    if i < |list| - 1 {
      AtTimeNotEmpty(list[..|list| - 1], i);
    }
  }

  lemma FirstAtTime(list: seq<Entry>)
    requires list != []
    ensures forall t :: AtTime(list, t) == (if t == list[0].time then [list[0]] else []) + AtTime(list[1..], t)
  {
    assert list == [list[0]] + list[1..];
    forall t ensures AtTime(list, t) == (if t == list[0].time then [list[0]] else []) + AtTime(list[1..], t) {
      AtTimeAdds([list[0]], list[1..], t);
      assert [list[0]][..0] == [];
    }
  }

  /** Two lists that are sorted, and equal moment by moment, have the same first entry. */
  lemma SameFirst(a: seq<Entry>, b: seq<Entry>)
    requires NewestFirst(a) && NewestFirst(b) && a != [] && forall t :: AtTime(a, t) == AtTime(b, t)
    ensures b != [] && a[0] == b[0]
  {
    AtTimeNotEmpty(a, 0);
    assert AtTime(b, a[0].time) != [];
    AtTimeNotEmpty(b, 0);
    assert AtTime(a, b[0].time) != [];
    if a[0].time < b[0].time {
      NoneAtTime(a, b[0].time);
    } else if b[0].time < a[0].time {
      NoneAtTime(b, a[0].time);
    }
    FirstAtTime(a);
    FirstAtTime(b);
    assert AtTime(a, a[0].time)[0] == a[0] && AtTime(b, a[0].time)[0] == b[0];
  }

  /** What the panel shows is determined: there is only one stable sort of a list. */
  lemma {:induction false} StableSortIsUnique(a: seq<Entry>, b: seq<Entry>)
    requires NewestFirst(a) && NewestFirst(b) && forall t :: AtTime(a, t) == AtTime(b, t)
    ensures a == b
    decreases |a|
  {
    if a == [] {
      if b != [] { SameFirst(b, a); }
    } else {
      SameFirst(a, b);
      FirstAtTime(a);
      FirstAtTime(b);
      forall t ensures AtTime(a[1..], t) == AtTime(b[1..], t) {
        var head := if t == a[0].time then [a[0]] else [];
        assert head + AtTime(a[1..], t) == head + AtTime(b[1..], t);
        SameTail(head, AtTime(a[1..], t), AtTime(b[1..], t));
      }
      StableSortIsUnique(a[1..], b[1..]);
      assert a == [a[0]] + a[1..] && b == [b[0]] + b[1..];
    }
  }

  lemma SameTail(head: seq<Entry>, a: seq<Entry>, b: seq<Entry>)
    requires head + a == head + b
    ensures a == b
  {
    assert a == (head + a)[|head|..] && b == (head + b)[|head|..];
  }

  /** Entries logged in order of time are shown as they were picked: the sort moves nothing. */
  lemma SortingMovesNothing(entries: seq<Entry>, keep: Entry -> bool, picked: seq<Entry>, out: seq<Entry>)
    requires Chronological(entries) && picked <= Newest(entries, 0, keep) && IsStableSort(picked, out)
    ensures out == picked
  {
    NewestIsRight(entries, 0, keep);
    StableSortIsUnique(picked, out);
  }

  // ---------- what severity and search mean ----------

  /** The place of a level in the order of severity; what the panel does not know counts as information. */
  ghost predicate HasPlace(l: Level, place: nat) {
    var known := ["trace", "debug", "info", "warn", "error", "fatal"];
    place < 6 && (known[place] == l || (place == 2 && l !in known))
  }

  lemma LevelsApart(a: string, b: string, c: string, d: string, e: string, f: string)
    requires a == "trace" && b == "debug" && c == "info" && d == "warn" && e == "error" && f == "fatal"
    ensures a != b && a != c && a != d && a != e && a != f && b != c && b != d && b != e && b != f
    ensures c != d && c != e && c != f && d != e && d != f && e != f
  {
    assert a[0] == 't' && b[0] == 'd' && c[0] == 'i' && d[0] == 'w' && e[0] == 'e' && f[0] == 'f';
  }

  lemma LevelHasPlace(l: Level, place: nat)
    ensures HasPlace(l, place) <==> LevelRank(l) == place
  {
    LevelsApart("trace", "debug", "info", "warn", "error", "fatal");
    var known := ["trace", "debug", "info", "warn", "error", "fatal"];
    assert l in known <==> l == known[0] || l == known[1] || l == known[2] || l == known[3] || l == known[4] || l == known[5];
  }

  /** At least as severe. */
  ghost predicate AtLeast(l: Level, minLevel: Level) {
    exists i, j :: HasPlace(l, i) && HasPlace(minLevel, j) && i >= j
  }

  lemma RanksAreSeverity(l: Level, minLevel: Level)
    ensures LevelRank(l) >= LevelRank(minLevel) <==> AtLeast(l, minLevel)
  {
    LevelHasPlace(l, LevelRank(l));
    LevelHasPlace(minLevel, LevelRank(minLevel));
    if i, j :| HasPlace(l, i) && HasPlace(minLevel, j) && i >= j {
      LevelHasPlace(l, i);
      LevelHasPlace(minLevel, j);
    }
  }

  /** The word stands somewhere in the message, the raw line or the source, whatever its case. */
  ghost predicate Mentions(e: Entry, word: string) {
    exists i, j :: 0 <= i <= j <= |Searched(e)| && Lower(Searched(e))[i..j] == word
  }

  ghost function Searched(e: Entry): string { e.message + " " + e.raw + " " + e.source }

  lemma ContainedIsFound(s: string, part: string)
    ensures Contains(s, part) <==> exists i, j :: 0 <= i <= j <= |s| && s[i..j] == part
  {
    if i :| 0 <= i <= |s| && HasPrefix(s[i..], part) {
      assert s[i..i + |part|] == s[i..][..|part|] == part;
    }
    if i, j :| 0 <= i <= j <= |s| && s[i..j] == part {
      assert s[i..][..j - i] == part;
    }
  }

  /** The viewer finds exactly the entries that are severe enough and mention the word, if one is asked for. */
  lemma ViewerFindsExactly(entries: seq<Entry>, minLevel: Level, keyword: string, e: Entry)
    ensures e in Newest(entries, 0, Wanted(minLevel, Lower(Trim(keyword)))) <==>
            e in entries && AtLeast(e.level, minLevel) && (Trim(keyword) == "" || Mentions(e, Lower(Trim(keyword))))
  {
    var keep := Wanted(minLevel, Lower(Trim(keyword)));
    NewestIsRight(entries, 0, keep);
    assert entries[0..] == entries;
    RanksAreSeverity(e.level, minLevel);
    ContainedIsFound(Lower(Searched(e)), Lower(Trim(keyword)));
  }

  /** When entries were dropped, at least seven eighths of the capacity are still there. */
  lemma MostAreRetained(contents: seq<Entry>, accepted: seq<Entry>, capacity: nat)
    requires Retained(contents, accepted, capacity)
    ensures contents == accepted[|accepted| - |contents|..] && |contents| <= capacity
    ensures contents == accepted || 8 * |contents| >= 7 * capacity
  {
    if |contents| == |accepted| { assert accepted[0..] == accepted; }
  }
}
