/** The hand-written TOML strings and lists, against the grammar of TOML version 1.0.0. */
module ExportToml {
  import Json
  import opened Sequences
  import opened Text
  import opened ExportJson

  // ---------- the printer ----------

  function TomlEscapeChar(c: char): string {
    if c == '\\' then "\\\\" else if c == '"' then "\\\"" else if c == '\n' then "\\n" else [c]
  }

  function TomlEscape(s: string): string {
    if s == "" then "" else TomlEscapeChar(s[0]) + TomlEscape(s[1..])
  }

  function TomlString(s: string): string {
    "\"" + TomlEscape(s) + "\""
  }

  ghost function ListText(items: seq<string>): string {
    "[" + ItemsText(items) + "]"
  }

  ghost function ItemsText(items: seq<string>): string {
    if items == [] then "" else
    if |items| == 1 then TomlString(items[0]) else TomlString(items[0]) + ", " + ItemsText(items[1..])
  }

  method TomlStringList(items: seq<string>) returns (text: string)
    ensures text == ListText(Cleaned(items))
  {
    var parts: seq<string> := [];
    for i := 0 to |items|
      invariant |parts| == |Cleaned(items[..i])|
      invariant forall k | 0 <= k < |parts| :: parts[k] == TomlString(Cleaned(items[..i])[k])
    {
      assert items[..i + 1][..i] == items[..i];
      var s := Trim(items[i]);
      if s != "" {
        parts := parts + [TomlString(s)];
      }
    }
    assert items[..|items|] == items;
    JoinedStrings(parts, Cleaned(items));
    text := "[" + Join(parts, ", ") + "]";
  }

  lemma {:induction false} JoinedStrings(parts: seq<string>, items: seq<string>)
    requires |parts| == |items| && forall k | 0 <= k < |parts| :: parts[k] == TomlString(items[k])
    ensures Join(parts, ", ") == ItemsText(items)
    decreases |parts|
  {
    if |parts| > 1 {
      JoinedStrings(parts[1..], items[1..]);
    }
  }

  // ---------- a reader ----------

  /** Section "String": a basic string may hold any character except the quote, the backslash and control characters other than tab. */
  predicate MayStandBare(c: char) {
    c == '\t' || (c >= ' ' && c != '\U{7F}')
  }

  function TomlSimpleEscape(c: char): Option<char> {
    if c == '"' || c == '\\' then Some(c)
    else if c == 'b' then Some('\U{08}')
    else if c == 'f' then Some('\U{0C}')
    else if c == 'n' then Some('\n')
    else if c == 'r' then Some('\r')
    else if c == 't' then Some('\t')
    else None
  }

  /** The scalar value that n hexadecimal digits spell. */
  function Scalar(s: string, n: nat): (r: Option<char>)
    ensures r.Some? ==> |s| >= n
  {
    if |s| < n then None else
      match HexNumber(s[..n])
      case None => None
      case Some(u) => if u < 0xD800 || 0xE000 <= u < 0x11_0000 then Some(u as char) else None
  }

  function HexNumber(s: string): Option<nat> {
    if s == "" then Some(0) else
      match (HexNumber(s[..|s| - 1]), Json.HexValue(s[|s| - 1]))
      case (Some(a), Some(d)) => Some(a * 16 + d)
      case _ => None
  }

  /** Reads on from just after the opening quote: the content, and the text after the closing quote. */
  function ScanBasic(s: string): (r: Option<(string, string)>)
    ensures r.Some? ==> |r.value.1| < |s|
  {
    if s == "" then None
    else if s[0] == '"' then Some(("", s[1..]))
    else if s[0] == '\\' then
      if |s| < 2 then None
      else if s[1] == 'u' || s[1] == 'U' then
        var n := if s[1] == 'u' then 4 else 8;
        match Scalar(s[2..], n)
        case None => None
        case Some(c) => Json.PrependChar(c, ScanBasic(s[2 + n..]))
      else
        match TomlSimpleEscape(s[1])
        case None => None
        case Some(c) => Json.PrependChar(c, ScanBasic(s[2..]))
    else if !MayStandBare(s[0]) then None
    else Json.PrependChar(s[0], ScanBasic(s[1..]))
  }

  /** Section "Array": white space and newlines may stand around the values. */
  function SkipWhite(s: string): (r: string)
    ensures |r| <= |s|
  {
    if s != "" && (s[0] == ' ' || s[0] == '\t' || s[0] == '\n' || s[0] == '\r') then SkipWhite(s[1..]) else s
  }

  /** The elements of an array of strings, read from a place where an element or the closing bracket may stand. */
  function ScanElements(s: string): (r: Option<(seq<string>, string)>)
    decreases |s|
  {
    var t := SkipWhite(s);
    if t == "" then None
    else if t[0] == ']' then Some(([], t[1..]))
    else if t[0] != '"' then None
    else
      match ScanBasic(t[1..])
      case None => None
      case Some((item, after)) =>
        var u := SkipWhite(after);
        if u == "" then None
        else if u[0] == ']' then Some(([item], u[1..]))
        else if u[0] != ',' then None
        else
          match ScanElements(u[1..])
          case None => None
          case Some((items, rest)) => Some(([item] + items, rest))
  }

  function ScanList(s: string): Option<(seq<string>, string)> {
    if s != "" && s[0] == '[' then ScanElements(s[1..]) else None
  }

  // ---------- the round trips ----------

  predicate TomlPrintable(s: string) {
    forall i | 0 <= i < |s| :: TomlPrintableChar(s[i])
  }

  predicate TomlPrintableChar(c: char) {
    c == '\n' || MayStandBare(c)
  }

  /** A printed string reads back and ends at its own quote, whatever follows; unless it holds a bare control character. */
  lemma TomlPrintableSplits(s: string)
    requires s != ""
    ensures TomlPrintable(s) <==> TomlPrintableChar(s[0]) && TomlPrintable(s[1..])
  {
    assert forall i | 0 < i < |s| :: s[i] == s[1..][i - 1];
    if TomlPrintable(s) {
      assert TomlPrintableChar(s[0]) && forall i | 0 <= i < |s[1..]| :: s[1..][i] == s[i + 1];
    }
  }

  lemma ScanOne(c: char, rest: string)
    ensures ScanBasic(TomlEscapeChar(c) + rest) == if TomlPrintableChar(c) then Json.PrependChar(c, ScanBasic(rest)) else None
  {
    var e := TomlEscapeChar(c);
    assert (e + rest)[|e|..] == rest && (e + rest)[0] == e[0];
    if |e| == 2 { assert (e + rest)[1] == e[1]; }
  }

  lemma {:induction false} BasicScansBack(s: string, rest: string)
    ensures ScanBasic(TomlEscape(s) + "\"" + rest) == if TomlPrintable(s) then Some((s, rest)) else None
  {
    var text := TomlEscape(s) + "\"" + rest;
    if s == "" {
      assert text == "\"" + rest && text[1..] == rest;
    } else {
      BasicScansBack(s[1..], rest);
      var tail := TomlEscape(s[1..]) + "\"" + rest;
      Associate(TomlEscapeChar(s[0]), TomlEscape(s[1..]), "\"");
      Associate(TomlEscapeChar(s[0]), TomlEscape(s[1..]) + "\"", rest);
      ScanOne(s[0], tail);
      TomlPrintableSplits(s);
      assert s == [s[0]] + s[1..];
    }
  }

  /** Dropping the escapes of any string at all gives it back. */
  function TomlUnescape(s: string): string {
    if s == "" then "" else
    if s[0] == '\\' && |s| > 1 then [if s[1] == 'n' then '\n' else s[1]] + TomlUnescape(s[2..])
    else [s[0]] + TomlUnescape(s[1..])
  }

  lemma UnescapeOne(c: char, rest: string)
    ensures TomlUnescape(TomlEscapeChar(c) + rest) == [c] + TomlUnescape(rest)
  {
    var e := TomlEscapeChar(c);
    assert (e + rest)[|e|..] == rest && (e + rest)[0] == e[0];
    if |e| == 2 { assert (e + rest)[1] == e[1]; }
  }

  lemma {:induction false} TomlUnescapeUndoes(s: string)
    ensures TomlUnescape(TomlEscape(s)) == s
  {
    if s != "" {
      TomlUnescapeUndoes(s[1..]);
      UnescapeOne(s[0], TomlEscape(s[1..]));
      assert s == [s[0]] + s[1..];
    }
  }

  predicate AllTomlPrintable(items: seq<string>) {
    forall i | 0 <= i < |items| :: TomlPrintable(items[i])
  }

  /** One element, with what the reader does behind it. */
  lemma ElementReadsBack(item: string, more: string)
    requires more != "" && (more[0] == ']' || more[0] == ',')
    ensures ScanElements(TomlString(item) + more) ==
            if !TomlPrintable(item) then None
            else if more[0] == ']' then Some(([item], more[1..]))
            else match ScanElements(more[1..])
                 case None => None
                 case Some((items, rest)) => Some(([item] + items, rest))
  {
    var text := TomlString(item) + more;
    assert text[0] == '"' && text[1..] == TomlEscape(item) + "\"" + more;
    BasicScansBack(item, more);
  }

  lemma SpaceIsSkipped(s: string)
    ensures ScanElements(" " + s) == ScanElements(s)
  {
    assert (" " + s)[1..] == s;
  }

  /** How the text of several items falls into its first item and the rest. */
  lemma ItemsTextSplits(items: seq<string>, close: string)
    requires |items| > 1
    ensures ItemsText(items) + close == TomlString(items[0]) + ("," + (" " + (ItemsText(items[1..]) + close)))
  {
    Regroup(TomlString(items[0]), ItemsText(items[1..]), close);
  }

  lemma Regroup(item: string, more: string, close: string)
    ensures item + ", " + more + close == item + ("," + (" " + (more + close)))
  {
    Associate(item, ", ", more);
    Associate(item, ", " + more, close);
    Associate(", ", more, close);
    Associate(",", " ", more + close);
    assert "," + " " == ", ";
  }

  /** Elements read back one for one, whatever quotes, commas or brackets they hold; or not at all. */
  lemma {:induction false} ElementsReadBack(items: seq<string>, close: string)
    requires close != "" && close[0] == ']'
    ensures ScanElements(ItemsText(items) + close) ==
            if AllTomlPrintable(items) then Some((items, close[1..])) else None
    decreases |items|
  {
    if |items| <= 1 {
      FewReadBack(items, close);
    } else {
      var item, rest := items[0], items[1..];
      ItemsTextSplits(items, close);
      ElementsReadBack(rest, close);
      SeveralReadBack(item, rest, ItemsText(rest) + close, close);
      PrintableHeadAndTail(items);
    }
  }

  lemma FewReadBack(items: seq<string>, close: string)
    requires |items| <= 1 && close != "" && close[0] == ']'
    ensures ScanElements(ItemsText(items) + close) == if AllTomlPrintable(items) then Some((items, close[1..])) else None
  {
    if items == [] {
      assert ItemsText(items) + close == close;
    } else {
      ElementReadsBack(items[0], close);
      assert items == [items[0]];
    }
  }

  lemma SeveralReadBack(item: string, items: seq<string>, tail: string, close: string)
    requires close != "" && ScanElements(tail) == if AllTomlPrintable(items) then Some((items, close[1..])) else None
    ensures ScanElements(TomlString(item) + ("," + (" " + tail))) ==
            if TomlPrintable(item) && AllTomlPrintable(items) then Some(([item] + items, close[1..])) else None
  {
    var more := "," + (" " + tail);
    assert more[1..] == " " + tail;
    ElementReadsBack(item, more);
    SpaceIsSkipped(tail);
  }

  lemma PrintableHeadAndTail(items: seq<string>)
    requires items != []
    ensures AllTomlPrintable(items) <==> TomlPrintable(items[0]) && AllTomlPrintable(items[1..])
    ensures items == [items[0]] + items[1..]
  {
    assert items == [items[0]] + items[1..];
  }

  /** The list a reader finds is the list printed; it finds one exactly when all of its items are printable. */
  lemma ListReadsBack(items: seq<string>, rest: string)
    ensures ScanList(ListText(items) + rest) == if AllTomlPrintable(items) then Some((items, rest)) else None
  {
    var text, close := ListText(items) + rest, "]" + rest;
    assert text[1..] == ItemsText(items) + close;
    assert close[1..] == rest;
    ElementsReadBack(items, close);
  }
}
