/** White space, as Go's string functions find it. Texts are Go strings: sequences
    of bytes, one `char` per byte, whether or not they are valid UTF-8. */
module Text {
  /** The UTF-8 encoding of a white-space character. */
  predicate IsSpace(w: string) {
    if |w| == 1 then
      w[0] == ' ' || '\t' <= w[0] <= '\r'
    else if |w| == 2 then
      w[0] == '\U{C2}' && (w[1] == '\U{85}' || w[1] == '\U{A0}')
    else if |w| == 3 then
      || w == ['\U{E1}', '\U{9A}', '\U{80}']
      || (w[0] == '\U{E2}' && w[1] == '\U{80}' &&
          ('\U{80}' <= w[2] <= '\U{8A}' || w[2] == '\U{A8}' || w[2] == '\U{A9}' || w[2] == '\U{AF}'))
      || w == ['\U{E2}', '\U{81}', '\U{9F}']
      || w == ['\U{E3}', '\U{80}', '\U{80}']
    else
      false
  }

  /** Bytes of the white-space character at the front, or 0. Decoding cannot be inside
      another character there: the first byte of an encoding never continues one. */
  function LeadingSpace(s: string): (n: nat)
    ensures n <= |s|
  {
    if |s| >= 1 && IsSpace(s[..1]) then 1
    else if |s| >= 2 && IsSpace(s[..2]) then 2
    else if |s| >= 3 && IsSpace(s[..3]) then 3
    else 0
  }

  /** Bytes of the white-space character at the end, or 0. */
  function TrailingSpace(s: string): (n: nat)
    ensures n <= |s|
  {
    if |s| >= 1 && IsSpace(s[|s| - 1..]) then 1
    else if |s| >= 2 && IsSpace(s[|s| - 2..]) then 2
    else if |s| >= 3 && IsSpace(s[|s| - 3..]) then 3
    else 0
  }

  function TrimLeft(s: string): (t: string)
    ensures |t| <= |s| && LeadingSpace(t) == 0
    decreases |s|
  {
    if LeadingSpace(s) > 0 then TrimLeft(s[LeadingSpace(s)..]) else s
  }

  function TrimRight(s: string): (t: string)
    ensures |t| <= |s| && TrailingSpace(t) == 0
    decreases |s|
  {
    if TrailingSpace(s) > 0 then TrimRight(s[..|s| - TrailingSpace(s)]) else s
  }

  function TrimSpace(s: string): string { TrimRight(TrimLeft(s)) }

  /** Length of the leading word. */
  function WordLength(s: string): (n: nat)
    ensures n <= |s| && (s != "" && LeadingSpace(s) == 0 ==> n > 0)
    decreases |s|
  {
    if s == "" || LeadingSpace(s) > 0 then 0 else 1 + WordLength(s[1..])
  }

  /** The words of a text, without the space around them. */
  function Fields(s: string): seq<string>
    decreases |s|
  {
    var t := TrimLeft(s);
    if t == "" then [] else [t[..WordLength(t)]] + Fields(t[WordLength(t)..])
  }

  // ---------- Encodings ----------

  /** The UTF-8 encoding of a character below U+10000. */
  function Encode(c: nat): (s: string)
    requires c < 0x1_0000
    ensures 1 <= |s| <= 3
  {
    if c < 0x80 then [c as char]
    else if c < 0x800 then [(0xC0 + c / 0x40) as char, (0x80 + c % 0x40) as char]
    else [(0xE0 + c / 0x1000) as char, (0x80 + c / 0x40 % 0x40) as char, (0x80 + c % 0x40) as char]
  }

  /** Unicode's white-space characters. */
  predicate WhiteSpace(c: nat) {
    || 0x09 <= c <= 0x0D || c == 0x20 || c == 0x85 || c == 0xA0 || c == 0x1680
    || 0x2000 <= c <= 0x200A || c == 0x2028 || c == 0x2029 || c == 0x202F || c == 0x205F || c == 0x3000
  }

  lemma {:induction false} ShortSpaces(c: nat)
    requires c < 0x800
    ensures IsSpace(Encode(c)) <==> WhiteSpace(c)
  {
    var s := Encode(c);
    if c >= 0x80 {
      assert s[0] as int == 0xC0 + c / 0x40 && s[1] as int == 0x80 + c % 0x40;
      assert c == 0x40 * (c / 0x40) + c % 0x40;
    }
  }

  lemma {:induction false} LongSpaces(c: nat)
    requires 0x800 <= c < 0x1_0000
    ensures IsSpace(Encode(c)) <==> WhiteSpace(c)
  {
    var s := Encode(c);
    var a, b, d := c / 0x1000, c / 0x40 % 0x40, c % 0x40;
    ThreeDigits(c);
    assert s[0] as int == 0xE0 + a && s[1] as int == 0x80 + b && s[2] as int == 0x80 + d;
  }

  lemma {:induction false} ThreeDigits(c: nat)
    ensures c == 0x1000 * (c / 0x1000) + 0x40 * (c / 0x40 % 0x40) + c % 0x40
  {
    assert c == 0x40 * (c / 0x40) + c % 0x40;
    assert c / 0x40 == 0x40 * (c / 0x40 / 0x40) + c / 0x40 % 0x40;
    assert c / 0x40 / 0x40 == c / 0x1000;
  }

  /** The byte patterns are the encodings of exactly the white-space characters. */
  lemma {:induction false} SpaceEncodings(c: nat)
    requires c < 0x1_0000
    ensures IsSpace(Encode(c)) <==> WhiteSpace(c)
  {
    hide IsSpace, Encode, WhiteSpace;
    if c < 0x800 {
      ShortSpaces(c);
    } else {
      LongSpaces(c);
    }
  }

  /** And they are no other bytes. */
  lemma {:induction false} OnlyEncodings(w: string)
    requires IsSpace(w)
    ensures exists c: nat :: c < 0x1_0000 && WhiteSpace(c) && Encode(c) == w
  {
    var c: nat :=
      if |w| == 1 then w[0] as int
      else if |w| == 2 then 0x40 * (w[0] as int - 0xC0) + w[1] as int - 0x80
      else 0x1000 * (w[0] as int - 0xE0) + 0x40 * (w[1] as int - 0x80) + w[2] as int - 0x80;
    assert Encode(c) == w;
    SpaceEncodings(c);
  }
}
