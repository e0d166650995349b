/** Strings as the two runtimes see them: Python strings are sequences of code points,
    JavaScript strings are sequences of UTF-16 code units. */
module Text {

  type Unit = u: int | 0 <= u < 0x1_0000
  type CodePoint = c: int | 0 <= c < 0x11_0000
  type Str = seq<Unit>
  type PyStr = seq<CodePoint>

  const NEWLINE: Unit := 10
  const DELIMITER: Str := [NEWLINE, NEWLINE]

  /** The code units of a literal, '?' for anything outside ASCII. */
  function Ascii(s: string): (t: Str)
    ensures |t| == |s|
    ensures forall i :: 0 <= i < |t| ==> t[i] < 128
    ensures forall i :: 0 <= i < |t| && s[i] as int < 128 ==> t[i] == s[i] as int
  {
    seq(|s|, i requires 0 <= i < |s| => if s[i] as int < 128 then s[i] as int else 63)
  }

  /** The UTF-16 code units of one code point; a lone surrogate stands for itself. */
  function Units(c: CodePoint): (r: Str)
    ensures c < 0x1_0000 ==> r == [c]
    ensures c >= 0x1_0000 ==>
              && |r| == 2 && 0xD800 <= r[0] < 0xDC00 <= r[1] < 0xE000
              && c - 0x1_0000 == (r[0] as int - 0xD800) * 0x400 + (r[1] as int - 0xDC00)
  {
    if c < 0x1_0000 then [c]
    else [0xD800 + (c - 0x1_0000) / 0x400, 0xDC00 + (c - 0x1_0000) % 0x400]
  }

  function Utf16(s: PyStr): Str {
    if s == [] then [] else Units(s[0]) + Utf16(s[1..])
  }

  lemma {:induction false} Utf16Append(a: PyStr, b: PyStr)
    ensures Utf16(a + b) == Utf16(a) + Utf16(b)
  {
    if a == [] {
      assert a + b == b;
    } else {
      assert (a + b)[1..] == a[1..] + b;
      Utf16Append(a[1..], b);
    }
  }

  lemma {:induction false} Utf16Bmp(s: PyStr)
    requires forall i :: 0 <= i < |s| ==> s[i] < 0x1_0000
    ensures Utf16(s) == s
  {
    if s != [] {
      Utf16Bmp(s[1..]);
    }
  }
}
