/** encodeURIComponent over strings of Unicode scalar values. */
module UriComponents {
  predicate Unreserved(c: char) {
    'A' <= c <= 'Z' || 'a' <= c <= 'z' || '0' <= c <= '9' || c in "-_.!~*'()"
  }

  predicate AreBytes(b: seq<int>) { forall i :: 0 <= i < |b| ==> 0 <= b[i] < 256 }

  /** UTF-8, as in section 3 of RFC 3629. */
  function Utf8(c: char): (b: seq<int>)
    ensures 1 <= |b| <= 4 && AreBytes(b)
  {
    var n := c as int;
    if n < 0x80 then [n]
    else if n < 0x800 then [0xC0 + n / 0x40, 0x80 + n % 0x40]
    else if n < 0x1_0000 then [0xE0 + n / 0x40 / 0x40, 0x80 + n / 0x40 % 0x40, 0x80 + n % 0x40]
    else [0xF0 + n / 0x40 / 0x40 / 0x40, 0x80 + n / 0x40 / 0x40 % 0x40, 0x80 + n / 0x40 % 0x40, 0x80 + n % 0x40]
  }

  function Hex(n: int): char
    requires 0 <= n < 16
  {
    "0123456789ABCDEF"[n]
  }

  function Escape(bytes: seq<int>): string
    requires AreBytes(bytes)
  {
    if bytes == [] then "" else ['%', Hex(bytes[0] / 16), Hex(bytes[0] % 16)] + Escape(bytes[1..])
  }

  function EncodeChar(c: char): string { if Unreserved(c) then [c] else Escape(Utf8(c)) }

  /** encodeURIComponent. */
  function Encode(s: string): string { if s == "" then "" else EncodeChar(s[0]) + Encode(s[1..]) }

  lemma HexIsInjective(m: int, n: int)
    requires 0 <= m < 16 && 0 <= n < 16 && Hex(m) == Hex(n)
    ensures m == n
  {
  }

  /** The first escaped byte can be read off. */
  lemma FirstByte(a: seq<int>, b: seq<int>, x: string, y: string)
    requires a != [] && b != [] && AreBytes(a) && AreBytes(b)
    requires Escape(a) + x == Escape(b) + y
    ensures a[0] == b[0] && Escape(a[1..]) + x == Escape(b[1..]) + y
  {
    FirstEscape(a, x);
    FirstEscape(b, y);
    HexIsInjective(a[0] / 16, b[0] / 16);
    HexIsInjective(a[0] % 16, b[0] % 16);
  }

  lemma FirstEscape(a: seq<int>, x: string)
    requires a != [] && AreBytes(a)
    ensures var s := Escape(a) + x;
      |s| >= 3 && s[0] == '%' && s[1] == Hex(a[0] / 16) && s[2] == Hex(a[0] % 16) && s[3..] == Escape(a[1..]) + x
  {
    var head := ['%', Hex(a[0] / 16), Hex(a[0] % 16)];
    assert Escape(a) == head + Escape(a[1..]);
    hide *;
    AfterHead(head, Escape(a[1..]), x);
  }

  lemma AfterHead(head: string, tail: string, x: string)
    requires |head| == 3
    ensures var s := head + tail + x; |s| >= 3 && s[..3] == head && s[3..] == tail + x
    ensures var s := head + tail + x; s[0] == head[0] && s[1] == head[1] && s[2] == head[2]
  {
  }

  lemma {:induction false} BytesAgree(a: seq<int>, b: seq<int>, x: string, y: string)
    requires |a| == |b| && AreBytes(a) && AreBytes(b)
    requires Escape(a) + x == Escape(b) + y
    ensures a == b && x == y
  {
    if a == [] {
      assert Escape(a) + x == x && Escape(b) + y == y;
    } else {
      FirstByte(a, b, x, y);
      BytesAgree(a[1..], b[1..], x, y);
      assert a == [a[0]] + a[1..] && b == [b[0]] + b[1..];
    }
  }

  function Decode(b: seq<int>): int {
    match |b|
    case 1 => b[0]
    case 2 => (b[0] - 0xC0) * 0x40 + b[1] - 0x80
    case 3 => ((b[0] - 0xE0) * 0x40 + b[1] - 0x80) * 0x40 + b[2] - 0x80
    case 4 => (((b[0] - 0xF0) * 0x40 + b[1] - 0x80) * 0x40 + b[2] - 0x80) * 0x40 + b[3] - 0x80
    case _ => 0
  }

  lemma Utf8Decodes(c: char)
    ensures Decode(Utf8(c)) == c as int
  {
  }

  /** The first byte tells the length. */
  lemma Utf8Length(c: char)
    ensures var b := Utf8(c); |b| == if b[0] < 0xC0 then 1 else if b[0] < 0xE0 then 2 else if b[0] < 0xF0 then 3 else 4
  {
  }

  lemma Utf8IsInjective(a: char, b: char)
    ensures Utf8(a)[0] == Utf8(b)[0] ==> |Utf8(a)| == |Utf8(b)|
    ensures Utf8(a) == Utf8(b) ==> a == b
  {
    Utf8Length(a);
    Utf8Length(b);
    Utf8Decodes(a);
    Utf8Decodes(b);
    hide Utf8, Decode;
  }

  lemma FirstCharacter(a: char, b: char, x: string, y: string)
    requires EncodeChar(a) + x == EncodeChar(b) + y
    ensures a == b && x == y
  {
    var s, t := EncodeChar(a) + x, EncodeChar(b) + y;
    assert !Unreserved(a) ==> s[0] == '%';
    assert !Unreserved(b) ==> t[0] == '%';
    if Unreserved(a) {
      assert s[0] == a && s[1..] == x && t[1..] == y;
    } else {
      FirstByte(Utf8(a), Utf8(b), x, y);
      Utf8IsInjective(a, b);
      BytesAgree(Utf8(a), Utf8(b), x, y);
    }
  }

  lemma {:induction false} EncodeIsInjective(s: string, t: string)
    ensures Encode(s) == Encode(t) ==> s == t
  {
    if s != "" && t != "" && Encode(s) == Encode(t) {
      FirstCharacter(s[0], t[0], Encode(s[1..]), Encode(t[1..]));
      EncodeIsInjective(s[1..], t[1..]);
      assert s == [s[0]] + s[1..] && t == [t[0]] + t[1..];
    }
  }

  lemma {:induction false} EncodedHasNoColon(s: string)
    ensures ':' !in Encode(s)
  {
    if s != "" {
      EncodedHasNoColon(s[1..]);
      EscapedHasNoColon(Utf8(s[0]));
    }
  }

  lemma {:induction false} EscapedHasNoColon(bytes: seq<int>)
    requires AreBytes(bytes)
    ensures ':' !in Escape(bytes)
  {
    if bytes != [] { EscapedHasNoColon(bytes[1..]); }
  }

  // ---------------------------------------------------------------------- decoding

  function DigitValue(c: char): int {
    if '0' <= c <= '9' then c as int - '0' as int else if 'A' <= c <= 'F' then c as int - 'A' as int + 10 else 0
  }

  /** Percent-decoding into bytes (section 2.1 of RFC 3986). */
  function Unescape(s: string): seq<int>
    decreases |s|
  {
    if s == "" then []
    else if s[0] == '%' && |s| >= 3 then [16 * DigitValue(s[1]) + DigitValue(s[2])] + Unescape(s[3..])
    else [s[0] as int] + Unescape(s[1..])
  }

  function AllUtf8(s: string): seq<int> { if s == "" then [] else Utf8(s[0]) + AllUtf8(s[1..]) }

  lemma HexDecodes(n: int)
    requires 0 <= n < 16
    ensures DigitValue(Hex(n)) == n
  {
  }

  lemma {:induction false} EscapedReadsBack(bytes: seq<int>, rest: string)
    requires AreBytes(bytes)
    ensures Unescape(Escape(bytes) + rest) == bytes + Unescape(rest)
  {
    if bytes == [] {
      assert Escape(bytes) + rest == rest;
    } else {
      EscapedReadsBack(bytes[1..], rest);
      FirstReadsBack(bytes, rest);
      Regroup(bytes, Unescape(rest));
    }
  }

  lemma FirstReadsBack(bytes: seq<int>, rest: string)
    requires bytes != [] && AreBytes(bytes)
    ensures Unescape(Escape(bytes) + rest) == [bytes[0]] + Unescape(Escape(bytes[1..]) + rest)
  {
    hide Escape, Hex, DigitValue, Unescape;
    FirstEscape(bytes, rest);
    HexDecodes(bytes[0] / 16);
    HexDecodes(bytes[0] % 16);
    UnescapeStep(Escape(bytes) + rest);
  }

  lemma Regroup(bytes: seq<int>, rest: seq<int>)
    requires bytes != []
    ensures [bytes[0]] + (bytes[1..] + rest) == bytes + rest
  {
  }

  lemma UnescapeStep(s: string)
    requires |s| >= 3 && s[0] == '%'
    ensures Unescape(s) == [16 * DigitValue(s[1]) + DigitValue(s[2])] + Unescape(s[3..])
  {
  }

  /** Percent-decoding an encoded text gives the UTF-8 of that text. */
  lemma {:induction false} EncodeReadsBack(s: string)
    ensures Unescape(Encode(s)) == AllUtf8(s)
  {
    if s != "" {
      var rest := Encode(s[1..]);
      EncodeReadsBack(s[1..]);
      if Unreserved(s[0]) {
        assert ([s[0]] + rest)[1..] == rest && s[0] != '%';
      } else {
        EscapedReadsBack(Utf8(s[0]), rest);
      }
    }
  }
}
