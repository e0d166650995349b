/** What the stream uses of JSON (RFC 8259): the ASCII-only printer of Python's json.dumps and the
    complete grammar accepted by JSON.parse. */
module Json {
  import opened Text
  import opened Wrappers

  /** A value handed to the printer. */
  datatype PyJson =
    | PStr(s: PyStr)
    | PInt(n: int)
    | PList(items: seq<PyJson>)
    | PDict(fields: seq<PyField>)

  datatype PyField = PyField(key: PyStr, value: PyJson)

  /** A value the parser returns. A number is kept as its lexeme. */
  datatype Value =
    | Null
    | Bool(b: bool)
    | Num(lexeme: Str)
    | Str(s: Str)
    | Arr(items: seq<Value>)
    | Obj(fields: seq<(Str, Value)>)

  datatype Parsed<+T> = Fail | Got(value: T, rest: Str)

  const QUOTE: Unit := 34
  const BACKSLASH: Unit := 92
  const SLASH: Unit := 47
  const COMMA: Unit := 44
  const COLON: Unit := 58
  const LBRACE: Unit := 123
  const RBRACE: Unit := 125
  const LBRACKET: Unit := 91
  const RBRACKET: Unit := 93
  const MINUS: Unit := 45
  const SPACE: Unit := 32

  function Cons(u: Unit, t: Str): (r: Str)
    ensures |r| == |t| + 1 && r[0] == u && r[1..] == t
  {
    [u] + t
  }

  // ---------------------------------------------------------------- printer
  // Each Put writes its argument in front of the text that follows it.

  function HexDigit(d: int): Unit
    requires 0 <= d < 16
  {
    if d < 10 then 48 + d else 87 + d
  }

  function PutUnicodeEscape(u: Unit, rest: Str): (r: Str)
    ensures |r| == |rest| + 6 && r[6..] == rest
    ensures r[0] == BACKSLASH && r[1] == 117
    ensures r[2] == HexDigit(u / 4096) && r[3] == HexDigit(u / 256 % 16)
    ensures r[4] == HexDigit(u / 16 % 16) && r[5] == HexDigit(u % 16)
  {
    [BACKSLASH, 117, HexDigit(u / 4096), HexDigit(u / 256 % 16), HexDigit(u / 16 % 16), HexDigit(u % 16)] + rest
  }

  function PutUnit(u: Unit, rest: Str): Str {
    if u == QUOTE || u == BACKSLASH then Cons(BACKSLASH, Cons(u, rest))
    else if u == 8 then Cons(BACKSLASH, Cons(98, rest))
    else if u == 9 then Cons(BACKSLASH, Cons(116, rest))
    else if u == 10 then Cons(BACKSLASH, Cons(110, rest))
    else if u == 12 then Cons(BACKSLASH, Cons(102, rest))
    else if u == 13 then Cons(BACKSLASH, Cons(114, rest))
    else if 32 <= u <= 126 then Cons(u, rest)
    else PutUnicodeEscape(u, rest)
  }

  function PutCodePoint(c: CodePoint, rest: Str): Str {
    if c < 0x1_0000 then PutUnit(c, rest)
    else
      var n := c - 0x1_0000;
      PutUnicodeEscape(0xD800 + n / 0x400, PutUnicodeEscape(0xDC00 + n % 0x400, rest))
  }

  function PutChars(s: PyStr, rest: Str): Str {
    if s == [] then rest else PutCodePoint(s[0], PutChars(s[1..], rest))
  }

  function PutStr(s: PyStr, rest: Str): Str {
    Cons(QUOTE, PutChars(s, Cons(QUOTE, rest)))
  }

  function PutDigits(n: nat, rest: Str): Str {
    if n < 10 then Cons(48 + n, rest) else PutDigits(n / 10, Cons(48 + n % 10, rest))
  }

  function PutInt(n: int, rest: Str): Str {
    if n < 0 then Cons(MINUS, PutDigits(-n, rest)) else PutDigits(n, rest)
  }

  function Put(v: PyJson, rest: Str): Str
    decreases v, 1
  {
    match v
    case PStr(s) => PutStr(s, rest)
    case PInt(n) => PutInt(n, rest)
    case PList(items) =>
      Cons(LBRACKET, if items == [] then Cons(RBRACKET, rest) else PutItems(items, rest))
    case PDict(fields) =>
      Cons(LBRACE, if fields == [] then Cons(RBRACE, rest) else PutMembers(fields, rest))
  }

  function PutItems(items: seq<PyJson>, rest: Str): Str
    requires items != []
    decreases items, 0
  {
    Put(items[0],
        if |items| == 1 then Cons(RBRACKET, rest)
        else Cons(COMMA, Cons(SPACE, PutItems(items[1..], rest))))
  }

  function PutMembers(fields: seq<PyField>, rest: Str): Str
    requires fields != []
    decreases fields, 0
  {
    PutStr(fields[0].key,
           Cons(COLON, Cons(SPACE,
                            Put(fields[0].value,
                                if |fields| == 1 then Cons(RBRACE, rest)
                                else Cons(COMMA, Cons(SPACE, PutMembers(fields[1..], rest)))))))
  }

  /** json.dumps with its default separators and ensure_ascii. */
  function Dumps(v: PyJson): Str {
    Put(v, [])
  }

  // ---------------------------------------------------------------- parser

  predicate IsSpace(u: Unit) { u == 9 || u == 10 || u == 13 || u == 32 }

  predicate IsDigit(u: Unit) { 48 <= u <= 57 }

  predicate IsHex(u: Unit) { IsDigit(u) || 97 <= u <= 102 || 65 <= u <= 70 }

  function HexValue(u: Unit): (d: int)
    requires IsHex(u)
    ensures 0 <= d < 16
  {
    if IsDigit(u) then u - 48 else if u >= 97 then u - 87 else u - 55
  }

  function SkipSpace(t: Str): (r: Str)
    ensures |r| <= |t|
  {
    if t != [] && IsSpace(t[0]) then SkipSpace(t[1..]) else t
  }

  /** One character of a string literal, escaped or not. */
  function ParseChar(t: Str): (r: Parsed<Unit>)
    requires t != []
    ensures r.Got? ==> |r.rest| < |t|
  {
    if t[0] < 32 then Fail
    else if t[0] != BACKSLASH then Got(t[0], t[1..])
    else if |t| == 1 then Fail
    else if t[1] == 117 then
      if |t| >= 6 && IsHex(t[2]) && IsHex(t[3]) && IsHex(t[4]) && IsHex(t[5]) then
        Got(HexValue(t[2]) * 4096 + HexValue(t[3]) * 256 + HexValue(t[4]) * 16 + HexValue(t[5]), t[6..])
      else Fail
    else if t[1] == QUOTE || t[1] == BACKSLASH || t[1] == SLASH then Got(t[1], t[2..])
    else if t[1] == 98 then Got(8, t[2..])
    else if t[1] == 116 then Got(9, t[2..])
    else if t[1] == 110 then Got(10, t[2..])
    else if t[1] == 102 then Got(12, t[2..])
    else if t[1] == 114 then Got(13, t[2..])
    else Fail
  }

  /** The characters of a string literal and its closing quote. */
  function ParseChars(t: Str): (r: Parsed<Str>)
    ensures r.Got? ==> |r.rest| < |t|
  {
    if t == [] then Fail
    else if t[0] == QUOTE then Got([], t[1..])
    else
      match ParseChar(t)
      case Fail => Fail
      case Got(c, more) =>
        match ParseChars(more)
        case Fail => Fail
        case Got(s, rest) => Got([c] + s, rest)
  }

  function DigitRun(t: Str): (n: nat)
    ensures n <= |t|
  {
    if t != [] && IsDigit(t[0]) then 1 + DigitRun(t[1..]) else 0
  }

  /** Length of the fraction at the front of t: 0 if there is none, or none when it is malformed. */
  function FractionLength(t: Str): (n: Option<nat>)
    ensures n.Some? ==> n.value <= |t|
  {
    if t == [] || t[0] != 46 then Some(0)
    else if DigitRun(t[1..]) == 0 then None
    else Some(1 + DigitRun(t[1..]))
  }

  function ExponentLength(t: Str): (n: Option<nat>)
    ensures n.Some? ==> n.value <= |t|
  {
    if t == [] || (t[0] != 101 && t[0] != 69) then Some(0)
    else
      var sign := if |t| > 1 && (t[1] == 43 || t[1] == MINUS) then 1 else 0;
      var digits := DigitRun(t[1 + sign..]);
      if digits == 0 then None else Some(1 + sign + digits)
  }

  function ParseNumber(t: Str): (r: Parsed<Str>)
    ensures r.Got? ==> |r.rest| < |t|
  {
    var sign := if t != [] && t[0] == MINUS then 1 else 0;
    var run := DigitRun(t[sign..]);
    if run == 0 then Fail
    else
      var whole := sign + (if t[sign] == 48 then 1 else run);
      match FractionLength(t[whole..])
      case None => Fail
      case Some(f) =>
        match ExponentLength(t[whole + f..])
        case None => Fail
        case Some(e) => Got(t[..whole + f + e], t[whole + f + e..])
  }

  function ParseValue(t: Str): (r: Parsed<Value>)
    ensures r.Got? ==> |r.rest| < |t|
    decreases |t|, 0
  {
    if t == [] then Fail
    else if t[0] == QUOTE then
      match ParseChars(t[1..])
      case Fail => Fail
      case Got(s, rest) => Got(Str(s), rest)
    else if t[0] == LBRACKET then
      var u := SkipSpace(t[1..]);
      if u != [] && u[0] == RBRACKET then Got(Arr([]), u[1..])
      else
        match ParseItems(u)
        case Fail => Fail
        case Got(items, rest) => Got(Arr(items), rest)
    else if t[0] == LBRACE then
      var u := SkipSpace(t[1..]);
      if u != [] && u[0] == RBRACE then Got(Obj([]), u[1..])
      else
        match ParseMembers(u)
        case Fail => Fail
        case Got(fields, rest) => Got(Obj(fields), rest)
    else if t[0] == MINUS || IsDigit(t[0]) then
      match ParseNumber(t)
      case Fail => Fail
      case Got(lexeme, rest) => Got(Num(lexeme), rest)
    else if Ascii("true") <= t then Got(Bool(true), t[4..])
    else if Ascii("false") <= t then Got(Bool(false), t[5..])
    else if Ascii("null") <= t then Got(Null, t[4..])
    else Fail
  }

  /** One or more array items and the closing bracket. */
  function ParseItems(t: Str): (r: Parsed<seq<Value>>)
    ensures r.Got? ==> |r.rest| < |t|
    decreases |t|, 1
  {
    match ParseValue(t)
    case Fail => Fail
    case Got(v, more) =>
      var d := SkipSpace(more);
      if d == [] then Fail
      else if d[0] == RBRACKET then Got([v], d[1..])
      else if d[0] != COMMA then Fail
      else
        match ParseItems(SkipSpace(d[1..]))
        case Fail => Fail
        case Got(vs, rest) => Got([v] + vs, rest)
  }

  /** One or more object members and the closing brace. */
  function ParseMembers(t: Str): (r: Parsed<seq<(Str, Value)>>)
    ensures r.Got? ==> |r.rest| < |t|
    decreases |t|, 1
  {
    if t == [] || t[0] != QUOTE then Fail
    else
      match ParseChars(t[1..])
      case Fail => Fail
      case Got(k, afterKey) =>
        var c := SkipSpace(afterKey);
        if c == [] || c[0] != COLON then Fail
        else
          match ParseValue(SkipSpace(c[1..]))
          case Fail => Fail
          case Got(v, more) =>
            var d := SkipSpace(more);
            if d == [] then Fail
            else if d[0] == RBRACE then Got([(k, v)], d[1..])
            else if d[0] != COMMA then Fail
            else
              match ParseMembers(SkipSpace(d[1..]))
              case Fail => Fail
              case Got(ms, rest) => Got([(k, v)] + ms, rest)
  }

  /** JSON.parse; None stands for the SyntaxError it throws. */
  function Parse(t: Str): Option<Value> {
    match ParseValue(SkipSpace(t))
    case Fail => None
    case Got(v, rest) => if SkipSpace(rest) == [] then Some(v) else None
  }

  // ---------------------------------------------------------------- printing and parsing undo each other

  /** The printed value as the parser should see it. */
  function ToJs(v: PyJson): Value
    decreases v, 1
  {
    match v
    case PStr(s) => Str(Utf16(s))
    case PInt(n) => Num(PutInt(n, []))
    case PList(items) => Arr(ItemsToJs(items))
    case PDict(fields) => Obj(FieldsToJs(fields))
  }

  function ItemsToJs(items: seq<PyJson>): seq<Value>
    decreases items, 0
  {
    if items == [] then [] else [ToJs(items[0])] + ItemsToJs(items[1..])
  }

  function FieldsToJs(fields: seq<PyField>): seq<(Str, Value)>
    decreases fields, 0
  {
    if fields == [] then [] else [(Utf16(fields[0].key), ToJs(fields[0].value))] + FieldsToJs(fields[1..])
  }

  lemma HexDigits(u: Unit)
    ensures u == u / 4096 * 4096 + u / 256 % 16 * 256 + u / 16 % 16 * 16 + u % 16
    ensures u / 4096 < 16
  {
    assert u / 256 == u / 4096 * 16 + u / 256 % 16;
    assert u / 16 == u / 256 * 16 + u / 16 % 16;
  }

  lemma HexDigitValue(d: int)
    requires 0 <= d < 16
    ensures IsHex(HexDigit(d)) && HexValue(HexDigit(d)) == d
  {
  }

  lemma ParseUnicodeEscape(u: Unit, rest: Str)
    ensures ParseChar(PutUnicodeEscape(u, rest)) == Got(u, rest)
  {
    HexDigits(u);
    HexDigitValue(u / 4096);
    HexDigitValue(u / 256 % 16);
    HexDigitValue(u / 16 % 16);
    HexDigitValue(u % 16);
  }

  lemma ParseUnit(u: Unit, rest: Str)
    ensures var t := PutUnit(u, rest); t != [] && t[0] != QUOTE && ParseChar(t) == Got(u, rest)
  {
    if !(32 <= u <= 126) && u !in {8, 9, 10, 12, 13} {
      ParseUnicodeEscape(u, rest);
    } else {
      var t := PutUnit(u, rest);
      if t[0] == BACKSLASH {
        assert t[2..] == t[1..][1..];
      }
    }
  }

  lemma ParseUnitStep(u: Unit, tail: Str, s: Str, rest: Str)
    requires ParseChars(tail) == Got(s, rest)
    ensures ParseChars(PutUnit(u, tail)) == Got([u] + s, rest)
  {
    ParseUnit(u, tail);
  }

  lemma ParseEscapeStep(u: Unit, tail: Str, s: Str, rest: Str)
    requires ParseChars(tail) == Got(s, rest)
    ensures ParseChars(PutUnicodeEscape(u, tail)) == Got([u] + s, rest)
  {
    ParseUnicodeEscape(u, tail);
  }

  lemma ParseCodePointStep(c: CodePoint, tail: Str, s: Str, rest: Str)
    requires ParseChars(tail) == Got(s, rest)
    ensures ParseChars(PutCodePoint(c, tail)) == Got(Units(c) + s, rest)
  {
    if c < 0x1_0000 {
      ParseUnitStep(c, tail, s, rest);
    } else {
      var high: Unit, low: Unit := 0xD800 + (c - 0x1_0000) / 0x400, 0xDC00 + (c - 0x1_0000) % 0x400;
      ParseEscapeStep(low, tail, s, rest);
      ParseEscapeStep(high, PutUnicodeEscape(low, tail), [low] + s, rest);
      assert [high] + ([low] + s) == [high, low] + s;
    }
  }

  lemma {:induction false} ParsePutChars(s: PyStr, rest: Str)
    ensures ParseChars(PutChars(s, Cons(QUOTE, rest))) == Got(Utf16(s), rest)
  {
    if s != [] {
      ParsePutChars(s[1..], rest);
      ParseCodePointStep(s[0], PutChars(s[1..], Cons(QUOTE, rest)), Utf16(s[1..]), rest);
    }
  }

  /** Text that may follow a number without becoming part of it. */
  predicate EndsNumber(rest: Str) {
    rest == [] || rest[0] == COMMA || rest[0] == RBRACE || rest[0] == RBRACKET
  }

  lemma {:induction false} PutDigitsAppend(n: nat, mid: Str, rest: Str)
    ensures PutDigits(n, mid + rest) == PutDigits(n, mid) + rest
  {
    if n < 10 {
      assert Cons(48 + n, mid + rest) == Cons(48 + n, mid) + rest;
    } else {
      assert Cons(48 + n % 10, mid + rest) == Cons(48 + n % 10, mid) + rest;
      PutDigitsAppend(n / 10, Cons(48 + n % 10, mid), rest);
    }
  }

  predicate Digits(d: Str) {
    d != [] && (forall i :: 0 <= i < |d| ==> IsDigit(d[i])) && (d[0] == 48 ==> |d| == 1)
  }

  lemma {:induction false} PutDigitsShape(n: nat)
    ensures Digits(PutDigits(n, [])) && (PutDigits(n, [])[0] == 48 ==> n == 0)
  {
    if n >= 10 {
      var last := Cons(48 + n % 10, []);
      PutDigitsShape(n / 10);
      PutDigitsAppend(n / 10, [], last);
      assert [] + last == last;
    }
  }

  lemma {:induction false} DigitRunOf(d: Str, rest: Str)
    requires forall i :: 0 <= i < |d| ==> IsDigit(d[i])
    requires EndsNumber(rest)
    ensures DigitRun(d + rest) == |d|
  {
    if d == [] {
      assert d + rest == rest;
    } else {
      assert (d + rest)[1..] == d[1..] + rest;
      DigitRunOf(d[1..], rest);
    }
  }

  lemma ParseDigits(t: Str, sign: nat, d: Str, rest: Str)
    requires sign == (if t != [] && t[0] == MINUS then 1 else 0) && sign <= |t|
    requires t[sign..] == d + rest && EndsNumber(rest)
    requires Digits(d)
    ensures ParseNumber(t) == Got(t[..sign + |d|], rest)
  {
    hide DigitRun;
    DigitRunOf(d, rest);
    assert FractionLength(rest) == Some(0) && ExponentLength(rest) == Some(0);
    assert t[sign] == d[0];
    assert t[sign + |d|..] == t[sign..][|d|..] == rest;
  }

  lemma ParsePutInt(n: int, rest: Str)
    requires EndsNumber(rest)
    ensures var t := PutInt(n, rest);
            && t != [] && (t[0] == MINUS || IsDigit(t[0]))
            && ParseNumber(t) == Got(PutInt(n, []), rest)
  {
    hide PutDigits, ParseNumber;
    var m: nat := if n < 0 then -n else n;
    var d := PutDigits(m, []);
    var t := PutInt(n, rest);
    var sign := if n < 0 then 1 else 0;
    PutDigitsShape(m);
    PutDigitsAppend(m, [], rest);
    assert [] + rest == rest;
    assert t[sign..] == d + rest;
    ParseDigits(t, sign, d, rest);
    assert t[..sign + |d|] == PutInt(n, []);
  }

  predicate StartsValue(t: Str) {
    t != [] && !IsSpace(t[0]) && t[0] != RBRACKET
  }

  // One grammar production each.

  lemma ParseOpenBracket(t: Str, items: seq<Value>, rest: Str)
    requires StartsValue(t) && ParseItems(t) == Got(items, rest)
    ensures ParseValue(Cons(LBRACKET, t)) == Got(Arr(items), rest)
  {
    assert SkipSpace(t) == t;
  }

  lemma ParseOpenBrace(t: Str, fields: seq<(Str, Value)>, rest: Str)
    requires t != [] && t[0] == QUOTE && ParseMembers(t) == Got(fields, rest)
    ensures ParseValue(Cons(LBRACE, t)) == Got(Obj(fields), rest)
  {
    assert SkipSpace(t) == t;
  }

  lemma ParseLastItem(t: Str, v: Value, rest: Str)
    requires ParseValue(t) == Got(v, Cons(RBRACKET, rest))
    ensures ParseItems(t) == Got([v], rest)
  {
    assert SkipSpace(Cons(RBRACKET, rest)) == Cons(RBRACKET, rest);
  }

  lemma ParseNextItem(t: Str, v: Value, more: Str, vs: seq<Value>, rest: Str)
    requires ParseValue(t) == Got(v, Cons(COMMA, Cons(SPACE, more)))
    requires StartsValue(more) && ParseItems(more) == Got(vs, rest)
    ensures ParseItems(t) == Got([v] + vs, rest)
  {
    var d := Cons(COMMA, Cons(SPACE, more));
    assert SkipSpace(d) == d;
    SkipOneSpace(more);
  }

  lemma SkipOneSpace(more: Str)
    requires more != [] && !IsSpace(more[0])
    ensures SkipSpace(Cons(SPACE, more)) == more
  {
    assert SkipSpace(more) == more;
  }

  lemma ParseLastMember(t: Str, key: Str, value: Str, v: Value, rest: Str)
    requires t != [] && t[0] == QUOTE && ParseChars(t[1..]) == Got(key, Cons(COLON, Cons(SPACE, value)))
    requires StartsValue(value) && ParseValue(value) == Got(v, Cons(RBRACE, rest))
    ensures ParseMembers(t) == Got([(key, v)], rest)
  {
    var c := Cons(COLON, Cons(SPACE, value));
    assert SkipSpace(c) == c;
    SkipOneSpace(value);
    assert SkipSpace(Cons(RBRACE, rest)) == Cons(RBRACE, rest);
  }

  lemma ParseNextMember(t: Str, key: Str, value: Str, v: Value, more: Str, ms: seq<(Str, Value)>, rest: Str)
    requires t != [] && t[0] == QUOTE && ParseChars(t[1..]) == Got(key, Cons(COLON, Cons(SPACE, value)))
    requires StartsValue(value) && ParseValue(value) == Got(v, Cons(COMMA, Cons(SPACE, more)))
    requires more != [] && !IsSpace(more[0]) && ParseMembers(more) == Got(ms, rest)
    ensures ParseMembers(t) == Got([(key, v)] + ms, rest)
  {
    var c := Cons(COLON, Cons(SPACE, value));
    assert SkipSpace(c) == c;
    SkipOneSpace(value);
    var d := Cons(COMMA, Cons(SPACE, more));
    assert SkipSpace(d) == d;
    SkipOneSpace(more);
  }

  lemma ParseEmpty(rest: Str)
    ensures ParseValue(Cons(LBRACKET, Cons(RBRACKET, rest))) == Got(Arr([]), rest)
    ensures ParseValue(Cons(LBRACE, Cons(RBRACE, rest))) == Got(Obj([]), rest)
  {
    assert SkipSpace(Cons(RBRACKET, rest)) == Cons(RBRACKET, rest);
    assert SkipSpace(Cons(RBRACE, rest)) == Cons(RBRACE, rest);
  }

  lemma ParsePutStr(s: PyStr, rest: Str)
    ensures StartsValue(PutStr(s, rest)) && ParseValue(PutStr(s, rest)) == Got(Str(Utf16(s)), rest)
  {
    ParsePutChars(s, rest);
  }

  lemma ParseIntValue(n: int, rest: Str)
    requires EndsNumber(rest)
    ensures StartsValue(PutInt(n, rest)) && ParseValue(PutInt(n, rest)) == Got(Num(PutInt(n, [])), rest)
  {
    hide PutInt, ParseNumber;
    ParsePutInt(n, rest);
  }

  lemma {:induction false} ParsePut(v: PyJson, rest: Str)
    requires EndsNumber(rest)
    ensures StartsValue(Put(v, rest)) && ParseValue(Put(v, rest)) == Got(ToJs(v), rest)
    decreases v, 1
  {
    hide ParseValue, PutItems, PutMembers, PutStr, PutInt;
    match v
    case PStr(s) => ParsePutStr(s, rest);
    case PInt(n) => ParseIntValue(n, rest);
    case PList(items) =>
      if items == [] {
        ParseEmpty(rest);
      } else {
        ParsePutItems(items, rest);
        ParseOpenBracket(PutItems(items, rest), ItemsToJs(items), rest);
      }
    case PDict(fields) =>
      if fields == [] {
        ParseEmpty(rest);
      } else {
        ParsePutMembers(fields, rest);
        ParseOpenBrace(PutMembers(fields, rest), FieldsToJs(fields), rest);
      }
  }

  lemma {:induction false} ParsePutItems(items: seq<PyJson>, rest: Str)
    requires items != []
    ensures StartsValue(PutItems(items, rest)) && ParseItems(PutItems(items, rest)) == Got(ItemsToJs(items), rest)
    decreases items, 0
  {
    if |items| == 1 {
      ParsePut(items[0], Cons(RBRACKET, rest));
      ParseLastItem(PutItems(items, rest), ToJs(items[0]), rest);
      assert ItemsToJs(items) == [ToJs(items[0])];
    } else {
      var more := PutItems(items[1..], rest);
      ParsePutItems(items[1..], rest);
      ParsePut(items[0], Cons(COMMA, Cons(SPACE, more)));
      ParseNextItem(PutItems(items, rest), ToJs(items[0]), more, ItemsToJs(items[1..]), rest);
    }
  }

  lemma {:induction false} ParsePutMembers(fields: seq<PyField>, rest: Str)
    requires fields != []
    ensures var t := PutMembers(fields, rest);
            t != [] && t[0] == QUOTE && ParseMembers(t) == Got(FieldsToJs(fields), rest)
    decreases fields, 0
  {
    var t := PutMembers(fields, rest);
    var key, v := Utf16(fields[0].key), ToJs(fields[0].value);
    if |fields| == 1 {
      var value := Put(fields[0].value, Cons(RBRACE, rest));
      ParsePutChars(fields[0].key, Cons(COLON, Cons(SPACE, value)));
      ParsePut(fields[0].value, Cons(RBRACE, rest));
      ParseLastMember(t, key, value, v, rest);
      assert FieldsToJs(fields) == [(key, v)];
    } else {
      var more := PutMembers(fields[1..], rest);
      var value := Put(fields[0].value, Cons(COMMA, Cons(SPACE, more)));
      ParsePutChars(fields[0].key, Cons(COLON, Cons(SPACE, value)));
      ParsePut(fields[0].value, Cons(COMMA, Cons(SPACE, more)));
      ParsePutMembers(fields[1..], rest);
      ParseNextMember(t, key, value, v, more, FieldsToJs(fields[1..]), rest);
    }
  }

  /** Parsing what json.dumps printed gives the value back, strings as their UTF-16 form. */
  lemma DumpsParses(v: PyJson)
    ensures Parse(Dumps(v)) == Some(ToJs(v))
  {
    ParsePut(v, []);
  }

  // ---------------------------------------------------------------- printed text is printable ASCII

  predicate Printable(t: Str) {
    forall i :: 0 <= i < |t| ==> 32 <= t[i] <= 126
  }

  lemma PutUnicodeEscapePrintable(u: Unit, rest: Str)
    requires Printable(rest)
    ensures Printable(PutUnicodeEscape(u, rest))
  {
    var t := PutUnicodeEscape(u, rest);
    forall i | 0 <= i < |t| ensures 32 <= t[i] <= 126 {
      if i >= 6 { assert t[i] == t[6..][i - 6]; }
    }
  }

  lemma PutCodePointPrintable(c: CodePoint, rest: Str)
    requires Printable(rest)
    ensures Printable(PutCodePoint(c, rest))
  {
    hide PutUnicodeEscape;
    if c < 0x1_0000 {
      PutUnicodeEscapePrintable(c, rest);
    } else {
      var high: Unit, low: Unit := 0xD800 + (c - 0x1_0000) / 0x400, 0xDC00 + (c - 0x1_0000) % 0x400;
      PutUnicodeEscapePrintable(low, rest);
      PutUnicodeEscapePrintable(high, PutUnicodeEscape(low, rest));
    }
  }

  lemma {:induction false} PutCharsPrintable(s: PyStr, rest: Str)
    requires Printable(rest)
    ensures Printable(PutChars(s, rest))
  {
    if s != [] {
      PutCharsPrintable(s[1..], rest);
      PutCodePointPrintable(s[0], PutChars(s[1..], rest));
    }
  }

  lemma {:induction false} PutDigitsPrintable(n: nat, rest: Str)
    requires Printable(rest)
    ensures Printable(PutDigits(n, rest))
  {
    if n >= 10 {
      PutDigitsPrintable(n / 10, Cons(48 + n % 10, rest));
    }
  }

  /** Whatever the strings inside hold, the printed text has no control character and no byte above 126. */
  lemma {:induction false} PutPrintable(v: PyJson, rest: Str)
    requires Printable(rest)
    ensures Printable(Put(v, rest))
    decreases v, 1
  {
    match v
    case PStr(s) => PutCharsPrintable(s, Cons(QUOTE, rest));
    case PInt(n) => PutDigitsPrintable(if n < 0 then -n else n, rest);
    case PList(items) =>
      if items != [] {
        PutItemsPrintable(items, rest);
      }
    case PDict(fields) =>
      if fields != [] {
        PutMembersPrintable(fields, rest);
      }
  }

  lemma {:induction false} PutItemsPrintable(items: seq<PyJson>, rest: Str)
    requires items != [] && Printable(rest)
    ensures Printable(PutItems(items, rest))
    decreases items, 0
  {
    if |items| > 1 {
      PutItemsPrintable(items[1..], rest);
      PutPrintable(items[0], Cons(COMMA, Cons(SPACE, PutItems(items[1..], rest))));
    } else {
      PutPrintable(items[0], Cons(RBRACKET, rest));
    }
  }

  lemma {:induction false} PutMembersPrintable(fields: seq<PyField>, rest: Str)
    requires fields != [] && Printable(rest)
    ensures Printable(PutMembers(fields, rest))
    decreases fields, 0
  {
    hide Cons, Printable, PutChars;
    var after := if |fields| == 1 then Cons(RBRACE, rest) else Cons(COMMA, Cons(SPACE, PutMembers(fields[1..], rest)));
    if |fields| > 1 {
      PutMembersPrintable(fields[1..], rest);
      ConsPrintable(SPACE, PutMembers(fields[1..], rest));
      ConsPrintable(COMMA, Cons(SPACE, PutMembers(fields[1..], rest)));
    } else {
      ConsPrintable(RBRACE, rest);
    }
    var value := Put(fields[0].value, after);
    PutPrintable(fields[0].value, after);
    ConsPrintable(SPACE, value);
    ConsPrintable(COLON, Cons(SPACE, value));
    ConsPrintable(QUOTE, Cons(COLON, Cons(SPACE, value)));
    PutCharsPrintable(fields[0].key, Cons(QUOTE, Cons(COLON, Cons(SPACE, value))));
    ConsPrintable(QUOTE, PutChars(fields[0].key, Cons(QUOTE, Cons(COLON, Cons(SPACE, value)))));
  }

  lemma ConsPrintable(u: Unit, t: Str)
    requires 32 <= u <= 126 && Printable(t)
    ensures Printable(Cons(u, t))
  {
  }

  // ---------------------------------------------------------------- what numerals and escapes mean

  predicate Numeral(t: Str) { t != [] && forall i :: 0 <= i < |t| ==> 48 <= t[i] <= 57 }

  function Decimal(t: Str): nat
    requires forall i :: 0 <= i < |t| ==> 48 <= t[i] <= 57
  {
    if t == [] then 0 else 10 * Decimal(t[..|t| - 1]) + (t[|t| - 1] as int - 48)
  }

  /** A printed number is the decimal numeral of its value, without leading zeros. */
  lemma {:induction false} NumeralValue(n: nat)
    ensures var t := PutInt(n, []);
            Numeral(t) && Decimal(t) == n && (|t| > 1 ==> t[0] != 48)
  {
    if n < 10 {
      assert PutInt(n, []) == [48 + n];
      assert PutInt(n, [])[..0] == [];
    } else {
      NumeralValue(n / 10);
      PutDigitsAppend(n / 10, [], [48 + n % 10]);
      assert [] + [48 + n % 10] == Cons(48 + n % 10, []);
      var t := PutDigits(n / 10, []);
      assert PutInt(n, []) == t + [48 + n % 10];
      assert (t + [48 + n % 10])[..|t|] == t;
    }
  }

  /** x is a hexadecimal digit of value d, in either case. */
  predicate HexDigitOf(x: Unit, d: int) {
    if d < 10 then x == 48 + d else x == 87 + d || x == 55 + d
  }

  /** A hexadecimal escape, with digits in either case, is the code unit of that value. */
  lemma HexEscape(u: Unit, h: Str)
    requires |h| == 4
    requires HexDigitOf(h[0], u / 4096) && HexDigitOf(h[1], u / 256 % 16)
    requires HexDigitOf(h[2], u / 16 % 16) && HexDigitOf(h[3], u % 16)
    ensures Parse([34, 92, 117, h[0], h[1], h[2], h[3], 34]) == Some(Str([u]))
  {
    var t: Str := [92, 117, h[0], h[1], h[2], h[3], 34];
    HexParsed(u, h);
    OneCharacter(t, u);
    assert [34] + t == [34, 92, 117, h[0], h[1], h[2], h[3], 34];
  }

  lemma HexParsed(u: Unit, h: Str)
    requires |h| == 4
    requires HexDigitOf(h[0], u / 4096) && HexDigitOf(h[1], u / 256 % 16)
    requires HexDigitOf(h[2], u / 16 % 16) && HexDigitOf(h[3], u % 16)
    ensures ParseChar([92, 117, h[0], h[1], h[2], h[3], 34]) == Got(u, [34])
  {
    HexDigitRead(h[0], u / 4096);
    HexDigitRead(h[1], u / 256 % 16);
    HexDigitRead(h[2], u / 16 % 16);
    HexDigitRead(h[3], u % 16);
    hide HexDigitOf, HexValue, IsHex, ParseChar;
    HexSum(u);
    HexRead(u, h, u / 4096, u / 256 % 16, u / 16 % 16, u % 16);
  }

  lemma HexSum(u: Unit)
    ensures u == u / 4096 * 4096 + u / 256 % 16 * 256 + u / 16 % 16 * 16 + u % 16
  {
    assert u / 256 / 16 == u / 4096 && u / 16 / 16 == u / 256;
  }

  lemma HexRead(u: Unit, h: Str, a: int, b: int, c: int, d: int)
    requires |h| == 4 && IsHex(h[0]) && IsHex(h[1]) && IsHex(h[2]) && IsHex(h[3])
    requires HexValue(h[0]) == a && HexValue(h[1]) == b && HexValue(h[2]) == c && HexValue(h[3]) == d
    requires u == a * 4096 + b * 256 + c * 16 + d
    ensures ParseChar([92, 117, h[0], h[1], h[2], h[3], 34]) == Got(u, [34])
  {
    hide HexValue, IsHex;
    var t: Str := [92, 117, h[0], h[1], h[2], h[3], 34];
    assert t[6..] == [34];
  }

  lemma HexDigitRead(x: Unit, d: int)
    requires 0 <= d < 16 && HexDigitOf(x, d)
    ensures IsHex(x) && HexValue(x) == d
  {
  }

  /** A string literal of one character. */
  lemma OneCharacter(t: Str, c: Unit)
    requires t != [] && t[0] != 34 && ParseChar(t) == Got(c, [34])
    ensures Parse([34] + t) == Some(Str([c]))
  {
    hide ParseChar;
    assert ([34] + t)[1..] == t;
    assert ParseChars([34]) == Got([], []);
    assert ParseChars(t) == Got([c] + [], []) && [c] + [] == [c];
    hide ParseChars;
    assert ParseValue([34] + t) == Got(Str([c]), []);
  }

  function Escape(u: Unit): Str { [34, 92, u, 34] }

  /** The two-character escapes of section 7 of RFC 8259, and no others but for the hexadecimal ones. */
  lemma Escapes(u: Unit)
    ensures Parse(Escape(u)) ==
            match u
            case 34 => Some(Str([34]))
            case 92 => Some(Str([92]))
            case 47 => Some(Str([47]))
            case 98 => Some(Str([8]))
            case 102 => Some(Str([12]))
            case 110 => Some(Str([10]))
            case 114 => Some(Str([13]))
            case 116 => Some(Str([9]))
            case _ => None
  {
    var t: Str := [92, u, 34];
    assert Escape(u)[1..] == t && t[2..] == [34];
    assert ParseChars([34]) == Got([], []);
    var c := ParseChar(t);
    assert ParseChars(t) == if c.Got? then Got([c.value] + [], []) else Fail;
    assert c.Got? ==> [c.value] + [] == [c.value];
    hide ParseChars, ParseChar;
    assert ParseValue(Escape(u)) == if c.Got? then Got(Str([c.value]), []) else Fail;
  }

  function Spaces(t: Str): bool { forall i :: 0 <= i < |t| ==> t[i] in {9, 10, 13, 32} }

  /** White space around a value is passed over, before it at least. */
  lemma {:induction false} LeadingSpace(w: Str, t: Str)
    requires Spaces(w)
    ensures Parse(w + t) == Parse(t)
  {
    if w == [] {
      assert w + t == t;
    } else {
      assert (w + t)[1..] == w[1..] + t;
      LeadingSpace(w[1..], t);
    }
  }

  lemma Literals()
    ensures Parse(Ascii("true")) == Some(Bool(true))
    ensures Parse(Ascii("false")) == Some(Bool(false))
    ensures Parse(Ascii("null")) == Some(Null)
    ensures Parse([]) == None && Parse(Ascii("nul")) == None
  {
    assert Ascii("true")[0] == 116 && Ascii("false")[0] == 102 && Ascii("null")[0] == 110 && Ascii("nul")[0] == 110;
    assert |Ascii("nul")| == 3;
  }

  // ---------------------------------------------------------------- the grammar of numbers

  /** The parts of a number in section 6 of RFC 8259: a sign, an integer without leading zeros, a fraction and
      an exponent. */
  predicate NumberParts(sign: Str, whole: Str, fraction: Str, exponent: Str) {
    && (sign == [] || sign == [45])
    && Numeral(whole) && (whole[0] == 48 ==> |whole| == 1)
    && (fraction != [] ==> fraction[0] == 46 && Numeral(fraction[1..]))
    && (exponent != [] ==>
          && (exponent[0] == 101 || exponent[0] == 69) && |exponent| > 1
          && if exponent[1] == 43 || exponent[1] == 45 then Numeral(exponent[2..]) else Numeral(exponent[1..]))
  }

  lemma {:induction false} DigitRunIs(t: Str, n: nat)
    requires n <= |t| && (forall i :: 0 <= i < n ==> 48 <= t[i] <= 57) && (n < |t| ==> !(48 <= t[n] <= 57))
    ensures DigitRun(t) == n
  {
    if n > 0 {
      DigitRunIs(t[1..], n - 1);
    }
  }

  lemma {:induction false} DigitRunEnds(t: Str)
    ensures var n := DigitRun(t);
            (forall i :: 0 <= i < n ==> 48 <= t[i] <= 57) && (n < |t| ==> !(48 <= t[n] <= 57))
  {
    if t != [] && IsDigit(t[0]) {
      DigitRunEnds(t[1..]);
    }
  }

  lemma ExponentRead(exponent: Str)
    requires NumberParts([], [48], [], exponent)
    ensures ExponentLength(exponent) == Some(|exponent|)
  {
    if exponent != [] {
      var sign := if exponent[1] == 43 || exponent[1] == 45 then 1 else 0;
      DigitRunIs(exponent[1 + sign..], |exponent| - 1 - sign);
    }
  }

  lemma FractionRead(fraction: Str, exponent: Str)
    requires NumberParts([], [48], fraction, exponent)
    ensures FractionLength(fraction + exponent) == Some(|fraction|)
  {
    if fraction != [] {
      assert (fraction + exponent)[1..] == fraction[1..] + exponent;
      DigitRunIs(fraction[1..] + exponent, |fraction| - 1);
    }
  }

  lemma WholeRead(whole: Str, fraction: Str, exponent: Str)
    requires NumberParts([], whole, fraction, exponent)
    ensures DigitRun(whole + (fraction + exponent)) == |whole|
  {
    DigitRunIs(whole + (fraction + exponent), |whole|);
  }

  lemma TwoParts(a: Str, b: Str, n: nat)
    requires n <= |b|
    ensures (a + b)[|a|..] == b && (a + b)[|a| + n..] == b[n..]
    ensures b != [] ==> (a + b)[|a|] == b[0]
    ensures a != [] ==> (a + b)[0] == a[0]
  {
  }

  lemma CutInFour(t: Str, a: nat, b: nat, c: nat, d: nat)
    requires a <= b <= c <= d <= |t|
    ensures t[..d] == t[..a] + (t[a..b] + (t[b..c] + t[c..d])) && t == t[..d] + t[d..]
    ensures t[b..][..c - b] == t[b..c] && t[c..][..d - c] == t[c..d] && t[a..][..b - a] == t[a..b]
  {
  }

  /** Every number of the grammar is read as such. */
  lemma NumbersAreRead(sign: Str, whole: Str, fraction: Str, exponent: Str)
    requires NumberParts(sign, whole, fraction, exponent)
    ensures var t := sign + (whole + (fraction + exponent)); ParseNumber(t) == Got(t, [])
  {
    hide DigitRun, FractionLength, ExponentLength, ParseNumber, NumberParts;
    PartsOf(sign, whole, fraction, exponent);
    WholeRead(whole, fraction, exponent);
    FractionRead(fraction, exponent);
    ExponentRead(exponent);
    Slices(sign, whole, fraction + exponent);
    SliceLast(sign, whole, fraction, exponent);
    ParseWhole(sign + (whole + (fraction + exponent)), |sign|, |whole|, |fraction|, |exponent|,
               whole + (fraction + exponent), fraction + exponent, exponent);
  }

  lemma Slices(sign: Str, whole: Str, c: Str)
    requires (sign == [] || sign == [45]) && whole != [] && whole[0] != 45
    ensures var t := sign + (whole + c);
            && t[|sign|..] == whole + c && t[|sign| + |whole|..] == c && t[|sign|] == whole[0]
            && |sign| == if t[0] == 45 then 1 else 0
  {
    TwoParts(sign, whole + c, |whole|);
    TwoParts(whole, c, 0);
    assert sign == [] ==> sign + (whole + c) == whole + c;
  }

  lemma SliceLast(sign: Str, whole: Str, fraction: Str, exponent: Str)
    ensures var t := sign + (whole + (fraction + exponent));
            && t[|sign| + |whole| + |fraction|..] == exponent
            && |t| == |sign| + |whole| + |fraction| + |exponent|
  {
    TwoParts(sign, whole + (fraction + exponent), |whole| + |fraction|);
    TwoParts(whole, fraction + exponent, |fraction|);
    TwoParts(fraction, exponent, 0);
  }

  lemma ParseWhole(t: Str, s: nat, w: nat, f: nat, e: nat, b: Str, c: Str, d: Str)
    requires w > 0 && s + w + f + e == |t| && s == (if t[0] == MINUS then 1 else 0)
    requires t[s..] == b && t[s + w..] == c && t[s + w + f..] == d
    requires DigitRun(b) > 0 && w == (if t[s] == 48 then 1 else DigitRun(b))
    requires FractionLength(c) == Some(f) && ExponentLength(d) == Some(e)
    ensures ParseNumber(t) == Got(t, [])
  {
    hide DigitRun, FractionLength, ExponentLength, ParseNumber;
    ParseNumberIs(t, s, w, f, e);
    assert t[..|t|] == t && t[|t|..] == [];
  }

  lemma PartsOf(sign: Str, whole: Str, fraction: Str, exponent: Str)
    requires NumberParts(sign, whole, fraction, exponent)
    ensures NumberParts([], whole, fraction, exponent) && NumberParts([], [48], fraction, exponent)
    ensures NumberParts([], [48], [], exponent)
    ensures sign == [] || sign == [45]
    ensures whole != [] && whole[0] != 45 && (whole[0] == 48 ==> |whole| == 1)
  {
  }

  lemma ParseNumberIs(t: Str, s: nat, w: nat, f: nat, e: nat)
    requires w > 0 && s + w + f + e <= |t| && s == (if t[0] == MINUS then 1 else 0)
    requires DigitRun(t[s..]) > 0 && w == (if t[s] == 48 then 1 else DigitRun(t[s..]))
    requires FractionLength(t[s + w..]) == Some(f) && ExponentLength(t[s + w + f..]) == Some(e)
    ensures ParseNumber(t) == Got(t[..s + w + f + e], t[s + w + f + e..])
  {
    hide DigitRun, FractionLength, ExponentLength;
  }

  /** And nothing else is: what is read as a number has these parts. */
  lemma NumbersHaveParts(t: Str) returns (sign: Str, whole: Str, fraction: Str, exponent: Str)
    requires ParseNumber(t).Got?
    ensures NumberParts(sign, whole, fraction, exponent)
    ensures ParseNumber(t).value == sign + (whole + (fraction + exponent))
    ensures t == ParseNumber(t).value + ParseNumber(t).rest
  {
    hide FractionLength, ExponentLength, DigitRun, NumberParts, ParseNumber;
    var s, w, f, e := NumberLengths(t);
    CutInFour(t, s, s + w, s + w + f, s + w + f + e);
    sign, whole, fraction, exponent := t[..s], t[s..s + w], t[s + w..s + w + f], t[s + w + f..s + w + f + e];
    PartsTogether(sign, whole, fraction, exponent);
  }

  lemma NumberLengths(t: Str) returns (s: nat, w: nat, f: nat, e: nat)
    requires ParseNumber(t).Got?
    ensures s + w + f + e <= |t| && (s == 0 || t[..s] == [45])
    ensures ParseNumber(t) == Got(t[..s + w + f + e], t[s + w + f + e..])
    ensures NumberParts([], t[s..][..w], [], []) && NumberParts([], [48], t[s + w..][..f], [])
    ensures NumberParts([], [48], [], t[s + w + f..][..e])
  {
    hide FractionLength, ExponentLength, DigitRun, NumberParts;
    s := if t[0] == MINUS then 1 else 0;
    w := if t[s] == 48 then 1 else DigitRun(t[s..]);
    f := FractionLength(t[s + w..]).value;
    e := ExponentLength(t[s + w + f..]).value;
    ParseNumberIs(t, s, w, f, e);
    WholeParts(t[s..], w);
    FractionParts(t[s + w..], f);
    ExponentParts(t[s + w + f..], e);
  }

  lemma PartsTogether(sign: Str, whole: Str, fraction: Str, exponent: Str)
    requires sign == [] || sign == [45]
    requires NumberParts([], whole, [], []) && NumberParts([], [48], fraction, [])
    requires NumberParts([], [48], [], exponent)
    ensures NumberParts(sign, whole, fraction, exponent)
  {
    hide Numeral;
  }

  lemma WholeParts(t: Str, w: nat)
    requires t != [] && DigitRun(t) > 0 && w == if t[0] == 48 then 1 else DigitRun(t)
    ensures w <= |t| && NumberParts([], t[..w], [], [])
  {
    DigitRunEnds(t);
  }

  lemma SliceBoth(t: Str, a: nat, b: nat)
    requires a <= b <= |t|
    ensures t[..b][a..] == t[a..][..b - a]
  {
  }

  lemma FractionParts(t: Str, f: nat)
    requires FractionLength(t) == Some(f)
    ensures f <= |t| && NumberParts([], [48], t[..f], [])
  {
    if f > 0 {
      DigitRunEnds(t[1..]);
      SliceBoth(t, 1, f);
    }
  }

  lemma ExponentParts(t: Str, e: nat)
    requires ExponentLength(t) == Some(e)
    ensures e <= |t| && NumberParts([], [48], [], t[..e])
  {
    if e > 0 {
      var sign := if |t| > 1 && (t[1] == 43 || t[1] == MINUS) then 1 else 0;
      DigitRunEnds(t[1 + sign..]);
      SliceBoth(t, 1 + sign, e);
    }
  }
}
