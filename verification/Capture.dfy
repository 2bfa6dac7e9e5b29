/** Cutting the captured output of a kernel into lines, whatever pieces the pipe delivers it in. */
module Capture {
  import opened Sequences

  newtype byte = b: int | 0 <= b < 256

  const NEWLINE: byte := 10

  // ---------- the lines of a whole stream ----------

  /** The position of the first newline, or the length. */
  function First(s: seq<byte>): (k: nat)
    ensures k <= |s| && (k < |s| ==> s[k] == NEWLINE)
    ensures forall j | 0 <= j < k :: s[j] != NEWLINE
  {
    if s == [] || s[0] == NEWLINE then 0 else 1 + First(s[1..])
  }

  /** The lines a newline ends. */
  function Lines(s: seq<byte>): seq<seq<byte>>
    decreases |s|
  {
    var k := First(s);
    if k == |s| then [] else [s[..k]] + Lines(s[k + 1..])
  }

  /** What follows the last newline. */
  function Rest(s: seq<byte>): seq<byte>
    decreases |s|
  {
    var k := First(s);
    if k == |s| then s else Rest(s[k + 1..])
  }

  /** What the logger is given: the lines, and the unfinished last one if there is anything in it. */
  function Emitted(s: seq<byte>): seq<seq<byte>> {
    Lines(s) + if Rest(s) == [] then [] else [Rest(s)]
  }

  // ---------- what a splitting is ----------

  predicate Unbroken(line: seq<byte>) {
    NEWLINE !in line
  }

  function Joined(lines: seq<seq<byte>>): seq<byte> {
    if lines == [] then [] else lines[0] + [NEWLINE] + Joined(lines[1..])
  }

  ghost predicate IsSplitting(s: seq<byte>, lines: seq<seq<byte>>, rest: seq<byte>) {
    && Joined(lines) + rest == s
    && Unbroken(rest) && forall i | 0 <= i < |lines| :: Unbroken(lines[i])
  }

  lemma FirstAfterLine(line: seq<byte>, more: seq<byte>)
    requires Unbroken(line)
    ensures First(line + [NEWLINE] + more) == |line|
  {
    var s := line + [NEWLINE] + more;
    assert forall j | 0 <= j < |line| :: s[j] == line[j];
    assert s[|line|] == NEWLINE;
  }

  lemma JoinedFirst(line: seq<byte>, lines: seq<seq<byte>>, rest: seq<byte>)
    ensures Joined([line] + lines) + rest == line + [NEWLINE] + (Joined(lines) + rest)
  {
    assert ([line] + lines)[1..] == lines;
  }

  lemma NextLine(line: seq<byte>, t: seq<byte>)
    requires Unbroken(line)
    ensures Lines(line + [NEWLINE] + t) == [line] + Lines(t) && Rest(line + [NEWLINE] + t) == Rest(t)
  {
    var s := line + [NEWLINE] + t;
    FirstAfterLine(line, t);
    assert s[..|line|] == line && s[|line| + 1..] == t;
  }

  lemma SplittingNext(line: seq<byte>, t: seq<byte>, lines: seq<seq<byte>>, rest: seq<byte>)
    requires Unbroken(line) && IsSplitting(t, lines, rest)
    ensures IsSplitting(line + [NEWLINE] + t, [line] + lines, rest)
  {
    JoinedFirst(line, lines, rest);
  }

  /** Lines and rest split the stream: nothing is lost, nothing is added, no line holds a newline. */
  lemma {:induction false} LinesSplit(s: seq<byte>)
    ensures IsSplitting(s, Lines(s), Rest(s))
    decreases |s|
  {
    var k := First(s);
    if k == |s| {
      assert Joined([]) + s == s;
    } else {
      var line, t := s[..k], s[k + 1..];
      assert s == line + [NEWLINE] + t;
      LinesSplit(t);
      NextLine(line, t);
      SplittingNext(line, t, Lines(t), Rest(t));
    }
  }

  /** And they are the only splitting there is. */
  lemma {:induction false} SplittingIsUnique(s: seq<byte>, lines: seq<seq<byte>>, rest: seq<byte>)
    requires IsSplitting(s, lines, rest)
    ensures lines == Lines(s) && rest == Rest(s)
    decreases |lines|
  {
    if lines == [] {
      assert s == rest;
      assert NEWLINE !in s;
    } else {
      var line, t := lines[0], Joined(lines[1..]) + rest;
      assert s == line + [NEWLINE] + t;
      FirstAfterLine(line, t);
      assert s[..|line|] == line && s[|line| + 1..] == t;
      SplittingIsUnique(t, lines[1..], rest);
      assert lines == [line] + lines[1..];
    }
  }

  lemma OneUnbroken(a: seq<byte>)
    requires First(a) == |a|
    ensures Lines(a) == [] && Rest(a) == a
  {
  }

  lemma OneLineFurther(line: seq<byte>, t: seq<byte>, b: seq<byte>)
    requires Unbroken(line) && Lines(t + b) == Lines(t) + Lines(Rest(t) + b) && Rest(t + b) == Rest(Rest(t) + b)
    ensures var a, all := line + [NEWLINE] + t, line + [NEWLINE] + (t + b);
      Lines(all) == Lines(a) + Lines(Rest(a) + b) && Rest(all) == Rest(Rest(a) + b)
  {
    NextLine(line, t);
    NextLine(line, t + b);
    Associate([line], Lines(t), Lines(Rest(t) + b));
  }

  /** A stream goes on where its rest left off. */
  lemma {:induction false} LinesOfTwo(a: seq<byte>, b: seq<byte>)
    ensures Lines(a + b) == Lines(a) + Lines(Rest(a) + b)
    ensures Rest(a + b) == Rest(Rest(a) + b)
    decreases |a|
  {
    var k := First(a);
    if k == |a| {
      OneUnbroken(a);
      assert [] + Lines(a + b) == Lines(a + b);
    } else {
      var line, t := a[..k], a[k + 1..];
      assert a == line + [NEWLINE] + t && a + b == line + [NEWLINE] + (t + b);
      LinesOfTwo(t, b);
      OneLineFurther(line, t, b);
    }
  }

  // ---------- the reader ----------

  function Concat(chunks: seq<seq<byte>>): seq<byte> {
    if chunks == [] then [] else Concat(chunks[..|chunks| - 1]) + chunks[|chunks| - 1]
  }

  /** indexByte. */
  method IndexByte(b: seq<byte>, c: byte) returns (index: int)
    ensures -1 <= index < |b|
    ensures index >= 0 ==> b[index] == c && forall j | 0 <= j < index :: b[j] != c
    ensures index < 0 ==> c !in b
  {
    for i := 0 to |b|
      invariant forall j | 0 <= j < i :: b[j] != c
    {
      if b[i] == c {
        return i;
      }
    }
    index := -1;
  }

  /** Takes the finished lines out of the buffer. */
  method Drain(buf: seq<byte>) returns (lines: seq<seq<byte>>, left: seq<byte>)
    ensures lines == Lines(buf) && left == Rest(buf)
  {
    lines, left := [], buf;
    while true
      invariant Lines(buf) == lines + Lines(left) && Rest(buf) == Rest(left)
      decreases |left|
    {
      var idx := IndexByte(left, NEWLINE);
      if idx < 0 {
        break;
      }
      assert First(left) == idx;
      lines, left := lines + [left[..idx]], left[idx + 1..];
    }
  }

  /** The goroutine of Capture: the pipe delivers `chunks`, the last one together with the error that ends the stream. */
  method Capture(chunks: seq<seq<byte>>) returns (log: seq<seq<byte>>)
    ensures log == Emitted(Concat(chunks))
  {
    log := [];
    var buf := [];
    for i := 0 to |chunks|
      invariant log == Lines(Concat(chunks[..i])) && buf == Rest(Concat(chunks[..i]))
    {
      assert chunks[..i + 1][..i] == chunks[..i];
      LinesOfTwo(Concat(chunks[..i]), chunks[i]);
      if |chunks[i]| > 0 {
        var lines;
        lines, buf := Drain(buf + chunks[i]);
        log := log + lines;
      } else {
        assert Concat(chunks[..i]) + chunks[i] == Concat(chunks[..i]);
      }
    }
    assert chunks[..|chunks|] == chunks;
    if |buf| > 0 {
      log := log + [buf];
    }
  }
}
