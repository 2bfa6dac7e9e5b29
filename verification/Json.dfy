/** A reader of JSON texts as RFC 8259 defines them: section 2 (tokens and white space) to section 7 (strings). */
module Json {
  import opened Text

  datatype Token =
    | LBrace | RBrace | LBracket | RBracket | Colon | Comma
    | StrTok(s: string)
    | NumTok(lexeme: string)
    | BoolTok(b: bool)
    | NullTok

  datatype Value =
    | Obj(members: seq<Member>)
    | Arr(items: seq<Value>)
    | Str(s: string)
    | Num(lexeme: string)
    | Bool(b: bool)
    | Null

  datatype Member = Member(key: string, value: Value)

  // ---------- characters ----------

  /** Section 2: insignificant white space. */
  predicate IsWhite(c: char) {
    c == ' ' || c == '\t' || c == '\n' || c == '\r'
  }

  /** Section 2: the six structural characters. */
  predicate IsStructural(c: char) {
    c == '{' || c == '}' || c == '[' || c == ']' || c == ':' || c == ','
  }

  function StructuralToken(c: char): Token
    requires IsStructural(c)
  {
    if c == '{' then LBrace else if c == '}' then RBrace else if c == '[' then LBracket
    else if c == ']' then RBracket else if c == ':' then Colon else Comma
  }

  predicate IsNumberChar(c: char) {
    IsDigit(c) || c == '+' || c == '-' || c == '.' || c == 'e' || c == 'E'
  }

  predicate IsWordChar(c: char) {
    'a' <= c <= 'z'
  }

  // ---------- section 7: strings ----------

  function HexValue(c: char): Option<nat> {
    if '0' <= c <= '9' then Some((c - '0') as nat)
    else if 'a' <= c <= 'f' then Some((c - 'a') as nat + 10)
    else if 'A' <= c <= 'F' then Some((c - 'A') as nat + 10)
    else None
  }

  /** The code unit four hexadecimal digits spell. */
  function CodeUnit(s: string): (r: Option<nat>)
    ensures r.Some? ==> |s| >= 4 && r.value < 0x10000
  {
    if |s| < 4 then None else
      match (HexValue(s[0]), HexValue(s[1]), HexValue(s[2]), HexValue(s[3]))
      case (Some(a), Some(b), Some(c), Some(d)) =>
        if a < 16 && b < 16 && c < 16 && d < 16 then Some(((a * 16 + b) * 16 + c) * 16 + d) else None
      case _ => None
  }

  /** What follows "\u": one code unit, or a surrogate pair; the character and how much text it took. */
  function Unicode(s: string): (r: Option<(char, nat)>)
    ensures r.Some? ==> 0 < r.value.1 <= |s|
  {
    match CodeUnit(s)
    case None => None
    case Some(u) =>
      if u < 0xD800 || u > 0xDFFF then Some((u as char, 4))
      else if u > 0xDBFF || |s| < 10 || s[4..6] != "\\u" then None
      else
        match CodeUnit(s[6..])
        case None => None
        case Some(v) =>
          if 0xDC00 <= v <= 0xDFFF then Some(((0x10000 + (u - 0xD800) * 0x400 + (v - 0xDC00)) as char, 10)) else None
  }

  function SimpleEscape(c: char): Option<char> {
    if c == '"' || c == '\\' || c == '/' then Some(c)
    else if c == 'b' then Some('\U{08}')
    else if c == 'f' then Some('\U{0C}')
    else if c == 'n' then Some('\n')
    else if c == 'r' then Some('\r')
    else if c == 't' then Some('\t')
    else None
  }

  /** Reads on from just after the opening quote: the content, and the text after the closing quote. */
  function ScanString(s: string): (r: Option<(string, string)>)
    ensures r.Some? ==> |r.value.1| < |s|
  {
    if s == "" then None
    else if s[0] == '"' then Some(("", s[1..]))
    else if s[0] == '\\' then
      if |s| < 2 then None
      else if s[1] == 'u' then
        match Unicode(s[2..])
        case None => None
        case Some((c, n)) => PrependChar(c, ScanString(s[2 + n..]))
      else
        match SimpleEscape(s[1])
        case None => None
        case Some(c) => PrependChar(c, ScanString(s[2..]))
    else if s[0] < ' ' then None
    else PrependChar(s[0], ScanString(s[1..]))
  }

  function PrependChar(c: char, r: Option<(string, string)>): Option<(string, string)> {
    match r
    case None => None
    case Some((content, rest)) => Some(([c] + content, rest))
  }

  // ---------- section 6: numbers ----------

  predicate AllDigits(s: string) {
    s != "" && forall c | c in s :: IsDigit(c)
  }

  /** exp = e [ minus / plus ] 1*DIGIT, or nothing. */
  predicate IsExponent(s: string) {
    s == "" || ((s[0] == 'e' || s[0] == 'E') && AllDigits(if |s| > 1 && (s[1] == '+' || s[1] == '-') then s[2..] else s[1..]))
  }

  /** [ frac ] [ exp ] */
  predicate IsFraction(s: string) {
    if s != "" && s[0] == '.' then
      var digits := Span(IsDigit, s[1..]);
      digits != "" && IsExponent(s[1 + |digits|..])
    else IsExponent(s)
  }

  /** number = [ minus ] int [ frac ] [ exp ], where int has no leading zero. */
  predicate IsNumber(s: string) {
    if s != "" && s[0] == '-' then IsUnsigned(s[1..]) else IsUnsigned(s)
  }

  predicate IsUnsigned(s: string) {
    var digits := Span(IsDigit, s);
    digits != "" && (|digits| > 1 ==> digits[0] != '0') && IsFraction(s[|digits|..])
  }

  // ---------- tokens ----------

  function Prepend(t: Token, r: Option<seq<Token>>): Option<seq<Token>> {
    if r.None? then None else Some([t] + r.value)
  }

  function Lex(s: string): Option<seq<Token>>
    decreases |s|
  {
    if s == "" then Some([])
    else if IsWhite(s[0]) then Lex(s[1..])
    else if IsStructural(s[0]) then Prepend(StructuralToken(s[0]), Lex(s[1..]))
    else if s[0] == '"' then
      match ScanString(s[1..])
      case None => None
      case Some((content, rest)) => Prepend(StrTok(content), Lex(rest))
    else if IsNumberChar(s[0]) then
      var n := Span(IsNumberChar, s);
      if IsNumber(n) then Prepend(NumTok(n), Lex(s[|n|..])) else None
    else
      var w := Span(IsWordChar, s);
      if w == "true" then Prepend(BoolTok(true), Lex(s[|w|..]))
      else if w == "false" then Prepend(BoolTok(false), Lex(s[|w|..]))
      else if w == "null" then Prepend(NullTok, Lex(s[|w|..]))
      else None
  }

  // ---------- sections 3 to 5: values, objects, arrays ----------

  function ParseValue(t: seq<Token>): (r: Option<(Value, seq<Token>)>)
    ensures r.Some? ==> |r.value.1| < |t|
    decreases |t|, 0
  {
    if t == [] then None else
      match t[0]
      case StrTok(s) => Some((Str(s), t[1..]))
      case NumTok(n) => Some((Num(n), t[1..]))
      case BoolTok(b) => Some((Bool(b), t[1..]))
      case NullTok => Some((Null, t[1..]))
      case LBrace =>
        if |t| > 1 && t[1] == RBrace then Some((Obj([]), t[2..])) else
          (match ParseMembers(t[1..])
           case None => None
           case Some((ms, rest)) => Some((Obj(ms), rest)))
      case LBracket =>
        if |t| > 1 && t[1] == RBracket then Some((Arr([]), t[2..])) else
          (match ParseItems(t[1..])
           case None => None
           case Some((vs, rest)) => Some((Arr(vs), rest)))
      case _ => None
  }

  /** One or more members and the closing brace. */
  function ParseMembers(t: seq<Token>): (r: Option<(seq<Member>, seq<Token>)>)
    ensures r.Some? ==> |r.value.1| < |t|
    decreases |t|
  {
    if |t| < 3 || !t[0].StrTok? || t[1] != Colon then None else
      match ParseValue(t[2..])
      case None => None
      case Some((v, rest)) =>
        if rest == [] then None
        else if rest[0] == RBrace then Some(([Member(t[0].s, v)], rest[1..]))
        else if rest[0] != Comma then None
        else
          match ParseMembers(rest[1..])
          case None => None
          case Some((ms, rest')) => Some(([Member(t[0].s, v)] + ms, rest'))
  }

  /** One or more items and the closing bracket. */
  function ParseItems(t: seq<Token>): (r: Option<(seq<Value>, seq<Token>)>)
    ensures r.Some? ==> |r.value.1| < |t|
    decreases |t|, 1
  {
    match ParseValue(t)
    case None => None
    case Some((v, rest)) =>
      if rest == [] then None
      else if rest[0] == RBracket then Some(([v], rest[1..]))
      else if rest[0] != Comma then None
      else
        match ParseItems(rest[1..])
        case None => None
        case Some((vs, rest')) => Some(([v] + vs, rest'))
  }

  /** A whole text is one value. */
  function Parse(text: string): Option<Value> {
    match Lex(text)
    case None => None
    case Some(t) =>
      match ParseValue(t)
      case None => None
      case Some((v, rest)) => if rest == [] then Some(v) else None
  }

  // ---------- what a value looks like as tokens ----------

  function Tokens(v: Value): (t: seq<Token>)
    ensures t != [] && t[0] !in [RBrace, RBracket, Colon, Comma]
  {
    match v
    case Str(s) => [StrTok(s)]
    case Num(n) => [NumTok(n)]
    case Bool(b) => [BoolTok(b)]
    case Null => [NullTok]
    case Obj(ms) => [LBrace] + MemberTokens(ms) + [RBrace]
    case Arr(vs) => [LBracket] + ItemTokens(vs) + [RBracket]
  }

  function MemberTokens(ms: seq<Member>): seq<Token> {
    if ms == [] then [] else
      [StrTok(ms[0].key), Colon] + Tokens(ms[0].value) + if |ms| == 1 then [] else [Comma] + MemberTokens(ms[1..])
  }

  function ItemTokens(vs: seq<Value>): seq<Token> {
    if vs == [] then [] else
      Tokens(vs[0]) + if |vs| == 1 then [] else [Comma] + ItemTokens(vs[1..])
  }

  /** The parser gets back every value from its tokens, and stops right after them. */
  lemma {:induction false} ParsesBack(v: Value, rest: seq<Token>)
    ensures ParseValue(Tokens(v) + rest) == Some((v, rest))
    decreases v
  {
    var t := Tokens(v) + rest;
    match v
    case Str(_) => assert t[1..] == rest;
    case Num(_) => assert t[1..] == rest;
    case Bool(_) => assert t[1..] == rest;
    case Null => assert t[1..] == rest;
    case Obj(ms) => ObjectParsesBack(ms, rest);
    case Arr(vs) => ArrayParsesBack(vs, rest);
  }

  lemma {:induction false} ObjectParsesBack(ms: seq<Member>, rest: seq<Token>)
    ensures ParseValue([LBrace] + MemberTokens(ms) + [RBrace] + rest) == Some((Obj(ms), rest))
    decreases ms, 1
  {
    var t := [LBrace] + MemberTokens(ms) + [RBrace] + rest;
    if ms == [] {
      assert t == [LBrace, RBrace] + rest && t[2..] == rest;
    } else {
      var inner := MemberTokens(ms) + [RBrace] + rest;
      MembersParseBack(ms, rest);
      assert inner[0] == StrTok(ms[0].key);
      assert t == [LBrace] + inner && t[1..] == inner && t[1] == inner[0];
    }
  }

  lemma EmptyArrayParses(rest: seq<Token>)
    ensures ParseValue([LBracket] + [] + [RBracket] + rest) == Some((Arr([]), rest))
  {
    var t := [LBracket] + [] + [RBracket] + rest;
    assert t == [LBracket, RBracket] + rest && t[2..] == rest;
  }

  lemma FullArrayParses(t: seq<Token>, vs: seq<Value>, rest: seq<Token>)
    requires |t| > 1 && t[0] == LBracket && t[1] != RBracket && ParseItems(t[1..]) == Some((vs, rest))
    ensures ParseValue(t) == Some((Arr(vs), rest))
  {
  }

  lemma InBrackets(open: Token, items: seq<Token>, close: Token, rest: seq<Token>)
    requires items != []
    ensures var t := [open] + items + [close] + rest;
      |t| > 1 && t[0] == open && t[1] == items[0] && t[1..] == items + [close] + rest
  {
  }

  lemma {:induction false} ArrayParsesBack(vs: seq<Value>, rest: seq<Token>)
    ensures ParseValue([LBracket] + ItemTokens(vs) + [RBracket] + rest) == Some((Arr(vs), rest))
    decreases vs, 1
  {
    if vs == [] {
      EmptyArrayParses(rest);
    } else {
      ItemsParseBack(vs, rest);
      InBrackets(LBracket, ItemTokens(vs), RBracket, rest);
      FullArrayParses([LBracket] + ItemTokens(vs) + [RBracket] + rest, vs, rest);
    }
  }

  lemma {:induction false} MembersParseBack(ms: seq<Member>, rest: seq<Token>)
    requires ms != []
    ensures ParseMembers(MemberTokens(ms) + [RBrace] + rest) == Some((ms, rest))
    decreases ms, 0
  {
    var first := ms[0];
    if |ms| == 1 {
      var tail := [RBrace] + rest;
      assert MemberTokens(ms) + [RBrace] + rest == [StrTok(first.key), Colon] + (Tokens(first.value) + tail);
      ParsesBack(first.value, tail);
      LastMemberParses(first.key, first.value, rest);
      assert ms == [first];
    } else {
      var more := MemberTokens(ms[1..]) + [RBrace] + rest;
      var tail := [Comma] + more;
      assert MemberTokens(ms) + [RBrace] + rest == [StrTok(first.key), Colon] + (Tokens(first.value) + tail);
      ParsesBack(first.value, tail);
      MembersParseBack(ms[1..], rest);
      OneMoreMemberParses(first.key, first.value, more, ms[1..], rest);
      assert ms == [first] + ms[1..];
    }
  }

  lemma LastMemberParses(key: string, v: Value, rest: seq<Token>)
    requires ParseValue(Tokens(v) + ([RBrace] + rest)) == Some((v, [RBrace] + rest))
    ensures ParseMembers([StrTok(key), Colon] + (Tokens(v) + ([RBrace] + rest))) == Some(([Member(key, v)], rest))
  {
    var t := [StrTok(key), Colon] + (Tokens(v) + ([RBrace] + rest));
    assert t[2..] == Tokens(v) + ([RBrace] + rest);
    assert ([RBrace] + rest)[1..] == rest;
  }

  lemma OneMoreMemberParses(key: string, v: Value, more: seq<Token>, ms: seq<Member>, rest: seq<Token>)
    requires ParseValue(Tokens(v) + ([Comma] + more)) == Some((v, [Comma] + more))
    requires ParseMembers(more) == Some((ms, rest))
    ensures ParseMembers([StrTok(key), Colon] + (Tokens(v) + ([Comma] + more))) == Some(([Member(key, v)] + ms, rest))
  {
    var t := [StrTok(key), Colon] + (Tokens(v) + ([Comma] + more));
    assert t[2..] == Tokens(v) + ([Comma] + more);
    assert ([Comma] + more)[1..] == more;
  }

  lemma {:induction false} ItemsParseBack(vs: seq<Value>, rest: seq<Token>)
    requires vs != []
    ensures ParseItems(ItemTokens(vs) + [RBracket] + rest) == Some((vs, rest))
    decreases vs, 0
  {
    var t := ItemTokens(vs) + [RBracket] + rest;
    if |vs| == 1 {
      var tail := [RBracket] + rest;
      assert t == Tokens(vs[0]) + tail;
      ParsesBack(vs[0], tail);
      assert tail[1..] == rest && vs == [vs[0]];
    } else {
      var more := ItemTokens(vs[1..]) + [RBracket] + rest;
      var tail := [Comma] + more;
      assert t == Tokens(vs[0]) + tail;
      ParsesBack(vs[0], tail);
      assert tail[1..] == more;
      ItemsParseBack(vs[1..], rest);
      assert vs == [vs[0]] + vs[1..];
    }
  }
}
