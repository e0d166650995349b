/** The streaming TextDecoder of the browser for UTF-8 (section 8.1.1 and the TextDecoder interface of the
    WHATWG Encoding standard), fatal and ignoreBOM off, always called with { stream: true }. */
module TextDecoding {
  import opened Text

  type Byte = b: int | 0 <= b < 256

  const REPLACEMENT: Unit := 0xFFFD
  const BYTE_ORDER_MARK: Unit := 0xFEFF

  /** Between characters, or inside one with `left` continuation bytes to come, the next one in lower..upper. */
  datatype RawState = Idle | Inside(bits: nat, left: nat, lower: int, upper: int)

  predicate Sound(s: RawState) {
    s.Inside? ==>
      && 0x80 <= s.lower <= s.upper <= 0xBF
      && 1 <= s.left <= 3
      && s.bits * 64 + (s.upper - 0x80) < (if s.left == 1 then 0x11_0000 else if s.left == 2 then 0x4400 else 0x110)
  }

  type State = s: RawState | Sound(s) witness Idle

  function Lead(b: Byte): (State, Str) {
    if b < 0x80 then (Idle, [b])
    else if 0xC2 <= b <= 0xDF then (Inside(b - 0xC0, 1, 0x80, 0xBF), [])
    else if 0xE0 <= b <= 0xEF then
      (Inside(b - 0xE0, 2, if b == 0xE0 then 0xA0 else 0x80, if b == 0xED then 0x9F else 0xBF), [])
    else if 0xF0 <= b <= 0xF4 then
      (Inside(b - 0xF0, 3, if b == 0xF0 then 0x90 else 0x80, if b == 0xF4 then 0x8F else 0xBF), [])
    else (Idle, [REPLACEMENT])
  }

  function Step(s: State, b: Byte): (State, Str) {
    match s
    case Idle => Lead(b)
    case Inside(bits, left, lower, upper) =>
      if !(lower <= b <= upper) then
        var (t, out) := Lead(b);
        (t, [REPLACEMENT] + out)
      else
        var more := bits * 64 + (b - 0x80);
        if left == 1 then (Idle, Units(more)) else (Inside(more, left - 1, 0x80, 0xBF), [])
  }

  function Run(s: State, bytes: seq<Byte>): (State, Str)
    decreases bytes
  {
    if bytes == [] then (s, [])
    else
      var (t, out) := Step(s, bytes[0]);
      var (u, more) := Run(t, bytes[1..]);
      (u, out + more)
  }

  datatype Decoder = Decoder(state: State, bomSeen: bool)

  const FRESH := Decoder(Idle, false)

  /** decoder.decode(bytes, { stream: true }): a byte order mark at the very start is dropped. */
  function Decode(d: Decoder, bytes: seq<Byte>): (Decoder, Str) {
    var (s, out) := Run(d.state, bytes);
    if d.bomSeen || out == [] then (Decoder(s, d.bomSeen), out)
    else (Decoder(s, true), if out[0] == BYTE_ORDER_MARK then out[1..] else out)
  }

  lemma {:induction false} RunAppend(s: State, a: seq<Byte>, b: seq<Byte>)
    ensures var (t, x) := Run(s, a); var (u, y) := Run(t, b); Run(s, a + b) == (u, x + y)
    decreases a
  {
    if a == [] {
      assert a + b == b;
      assert [] + Run(s, b).1 == Run(s, b).1;
    } else {
      assert (a + b)[1..] == a[1..] + b;
      var (t, out) := Step(s, a[0]);
      RunAppend(t, a[1..], b);
      var (t1, x1) := Run(t, a[1..]);
      var (u, y) := Run(t1, b);
      assert (out + x1) + y == out + (x1 + y);
    }
  }

  /** Decoding does not depend on where the network cut the bytes, not even inside a character. */
  lemma DecodeAppend(d: Decoder, a: seq<Byte>, b: seq<Byte>)
    ensures var (e, x) := Decode(d, a); var (f, y) := Decode(e, b); Decode(d, a + b) == (f, x + y)
  {
    RunAppend(d.state, a, b);
    var (s, x) := Run(d.state, a);
    var (t, y) := Run(s, b);
    if x == [] {
      assert x + y == y;
      var z := Decode(Decode(d, a).0, b).1;
      assert x + z == z;
    } else {
      assert (x + y)[1..] == x[1..] + y;
    }
  }

  lemma {:induction false} RunAscii(bytes: seq<Byte>)
    requires forall i :: 0 <= i < |bytes| ==> bytes[i] < 128
    ensures Run(Idle, bytes) == (Idle, bytes)
  {
    if bytes != [] {
      RunAscii(bytes[1..]);
      assert [bytes[0]] + bytes[1..] == bytes;
    }
  }

  lemma DecodeAscii(bytes: seq<Byte>)
    requires forall i :: 0 <= i < |bytes| ==> bytes[i] < 128
    ensures Decode(FRESH, bytes).1 == bytes
  {
    RunAscii(bytes);
  }

  // ---------------------------------------------------------------- UTF-8

  predicate Scalar(c: CodePoint) { c < 0xD800 || c >= 0xE000 }

  /** UTF-8 (section 3 of RFC 3629). */
  function Encode(c: CodePoint): (r: seq<Byte>)
    ensures 1 <= |r| <= 4
  {
    if c < 0x80 then [c]
    else if c < 0x800 then [0xC0 + c / 0x40, 0x80 + c % 0x40]
    else if c < 0x1_0000 then [0xE0 + c / 0x1000, 0x80 + c / 0x40 % 0x40, 0x80 + c % 0x40]
    else [0xF0 + c / 0x4_0000, 0x80 + c / 0x1000 % 0x40, 0x80 + c / 0x40 % 0x40, 0x80 + c % 0x40]
  }

  function EncodeAll(s: seq<CodePoint>): seq<Byte> {
    if s == [] then [] else Encode(s[0]) + EncodeAll(s[1..])
  }

  lemma RunOne(s: State, b: Byte)
    ensures Run(s, [b]) == Step(s, b)
  {
    assert [b][1..] == [];
    assert Step(s, b).1 + [] == Step(s, b).1;
  }

  /** The value of j continuation bytes. */
  function Weight(j: nat): (r: nat)
    requires j <= 3
    ensures r > 0
  {
    match j case 0 => 1 case 1 => 0x40 case 2 => 0x1000 case _ => 0x4_0000
  }

  lemma FirstByte(c: CodePoint)
    requires Scalar(c) && |Encode(c)| > 1
    ensures var bytes := Encode(c);
            var (s, out) := Step(Idle, bytes[0]);
            && out == [] && s.Inside? && s.left == |bytes| - 1 && s.bits == c / Weight(|bytes| - 1)
            && s.lower <= bytes[1] <= s.upper
  {
  }

  lemma LaterByte(c: CodePoint, k: nat)
    requires 0 < k < |Encode(c)|
    ensures var b, n := Encode(c)[k], |Encode(c)|;
            && 0x80 <= b <= 0xBF
            && c / Weight(n - k) * 0x40 + (b - 0x80) == c / Weight(n - k - 1)
  {
    assert c / 0x40 / 0x40 == c / 0x1000;
    assert c / 0x1000 / 0x40 == c / 0x4_0000;
    var n := |Encode(c)|;
    var q := c / Weight(n - k - 1);
    assert Encode(c)[k] == 0x80 + q % 0x40;
    hide Encode;
    assert q / 0x40 == c / Weight(n - k);
  }

  /** The state after the first k bytes of a character. */
  lemma {:induction false} RunPart(c: CodePoint, k: nat)
    requires Scalar(c) && 0 < k < |Encode(c)|
    ensures var bytes := Encode(c);
            var (s, out) := Run(Idle, bytes[..k]);
            && out == [] && s.Inside? && s.left == |bytes| - k && s.bits == c / Weight(|bytes| - k)
            && s.lower <= bytes[k] <= s.upper
  {
    hide Encode, Weight;
    var bytes := Encode(c);
    if k == 1 {
      assert bytes[..1] == [bytes[0]];
      RunOne(Idle, bytes[0]);
      FirstByte(c);
    } else {
      RunPart(c, k - 1);
      assert bytes[..k] == bytes[..k - 1] + [bytes[k - 1]];
      RunAppend(Idle, bytes[..k - 1], [bytes[k - 1]]);
      RunOne(Run(Idle, bytes[..k - 1]).0, bytes[k - 1]);
      LaterByte(c, k - 1);
      LaterByte(c, k);
    }
  }

  lemma RunCharacter(c: CodePoint)
    requires Scalar(c)
    ensures Run(Idle, Encode(c)) == (Idle, Units(c))
  {
    var bytes := Encode(c);
    var n := |bytes| - 1;
    assert n == 0 ==> bytes == [c];
    hide Encode, Units;
    if n == 0 {
      RunOne(Idle, bytes[0]);
    } else {
      RunOne(Run(Idle, bytes[..n]).0, bytes[n]);
      RunPart(c, n);
      LaterByte(c, n);
      RunAppend(Idle, bytes[..n], [bytes[n]]);
      assert bytes == bytes[..n] + [bytes[n]];
      assert [] + Units(c) == Units(c);
    }
  }

  lemma {:induction false} RunEncoded(s: seq<CodePoint>)
    requires forall i :: 0 <= i < |s| ==> Scalar(s[i])
    ensures Run(Idle, EncodeAll(s)) == (Idle, Utf16(s))
  {
    if s != [] {
      hide Encode, Units;
      RunEncoded(s[1..]);
      RunCharacter(s[0]);
      RunAppend(Idle, Encode(s[0]), EncodeAll(s[1..]));
    }
  }

  /** The decoder undoes UTF-8 encoding, whatever the text, but for a byte order mark at its start. */
  lemma DecodeEncoded(s: seq<CodePoint>)
    requires forall i :: 0 <= i < |s| ==> Scalar(s[i])
    ensures Decode(FRESH, EncodeAll(s)).1 == Utf16(if s != [] && s[0] == BYTE_ORDER_MARK then s[1..] else s)
  {
    hide Run, Encode, EncodeAll, Utf16, Scalar;
    RunEncoded(s);
    FirstUnit(s);
  }

  lemma FirstUnit(s: seq<CodePoint>)
    ensures Utf16(s) == [] <==> s == []
    ensures s != [] ==> (Utf16(s)[0] == BYTE_ORDER_MARK <==> s[0] == BYTE_ORDER_MARK)
    ensures s != [] && s[0] == BYTE_ORDER_MARK ==> Utf16(s)[1..] == Utf16(s[1..])
  {
    if s != [] {
      var first, rest := Units(s[0]), Utf16(s[1..]);
      assert Utf16(s) == first + rest && (first + rest)[0] == first[0];
      hide Units, Utf16;
    }
  }

  /** A character cut short by an ASCII character becomes one replacement character. */
  lemma CutCharacter(c: CodePoint, k: nat, next: Byte)
    requires Scalar(c) && 0 < k < |Encode(c)| && next < 0x80
    ensures Run(Idle, Encode(c)[..k] + [next]) == (Idle, [0xFFFD, next as int])
  {
    hide Encode;
    RunPart(c, k);
    RunAppend(Idle, Encode(c)[..k], [next]);
    RunOne(Run(Idle, Encode(c)[..k]).0, next);
    assert [] + ([REPLACEMENT] + [next as int]) == [0xFFFD, next as int];
  }

  /** A byte that cannot begin a character is replaced. */
  lemma NoCharacter(b: Byte)
    requires 0x80 <= b <= 0xC1 || 0xF5 <= b
    ensures Run(Idle, [b]) == (Idle, [0xFFFD])
  {
    RunOne(Idle, b);
  }

  /** Every byte of an encoded surrogate is replaced. */
  lemma NoSurrogate(c: CodePoint)
    requires !Scalar(c)
    ensures Run(Idle, Encode(c)) == (Idle, [0xFFFD, 0xFFFD, 0xFFFD])
  {
    var bytes := Encode(c);
    assert |bytes| == 3 && bytes[0] == 0xED && 0xA0 <= bytes[1] <= 0xBF && 0x80 <= bytes[2] <= 0xBF;
    hide Encode;
    assert bytes == [bytes[0]] + ([bytes[1]] + [bytes[2]]);
    var s := Step(Idle, bytes[0]).0;
    RunOne(Idle, bytes[0]);
    RunOne(s, bytes[1]);
    RunOne(Idle, bytes[2]);
    RunAppend(s, [bytes[1]], [bytes[2]]);
    RunAppend(Idle, [bytes[0]], [bytes[1]] + [bytes[2]]);
    assert [REPLACEMENT] + [REPLACEMENT] == [REPLACEMENT, REPLACEMENT];
    assert [] + ([REPLACEMENT, REPLACEMENT] + [REPLACEMENT]) == [0xFFFD, 0xFFFD, 0xFFFD];
  }
}
