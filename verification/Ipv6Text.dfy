/** IPv6 addresses as text (section 2.2 of RFC 4291), and the hand-written parser of the CLI. */
module Ipv6Text {
  import opened Options
  import opened Text

  // ---------------------------------------------------------------------- digits

  predicate IsDigit(c: char) { '0' <= c <= '9' }

  predicate IsHex(c: char) { '0' <= c <= '9' || 'a' <= c <= 'f' || 'A' <= c <= 'F' }

  function HexValue(c: char): nat
    requires IsHex(c)
  {
    if c <= '9' then c as int - '0' as int
    else if c <= 'F' then c as int - 'A' as int + 10
    else c as int - 'a' as int + 10
  }

  predicate AllHex(s: string) { forall i :: 0 <= i < |s| ==> IsHex(s[i]) }

  /** parseInt(s, 16) on hexadecimal digits. */
  function ParseHex(s: string): nat
    requires AllHex(s)
  {
    if s == "" then 0 else 16 * ParseHex(s[..|s| - 1]) + HexValue(s[|s| - 1])
  }

  function HexDigit(n: nat): (c: char)
    requires n < 16
    ensures IsHex(c) && HexValue(c) == n && c != ':'
  {
    if n < 10 then ('0' as int + n) as char else ('a' as int + n - 10) as char
  }

  /** Number.prototype.toString(16). */
  function ToHex(n: nat): (s: string)
    ensures AllHex(s) && s != "" && ParseHex(s) == n
  {
    if n < 16 then [HexDigit(n)]
    else
      var s := ToHex(n / 16) + [HexDigit(n % 16)];
      assert s[..|s| - 1] == ToHex(n / 16);
      s
  }

  lemma HexLength(n: nat)
    ensures |ToHex(n)| == if n < 16 then 1 else 1 + |ToHex(n / 16)|
  {
  }

  lemma ToHexIsShort(n: nat)
    requires n < 0x1_0000
    ensures |ToHex(n)| <= 4
  {
    HexLength(n);
    HexLength(n / 16);
    HexLength(n / 16 / 16);
    HexLength(n / 16 / 16 / 16);
  }

  function DecValue(c: char): nat
    requires IsDigit(c)
  {
    c as int - '0' as int
  }

  function ParseDec(s: string): nat
    requires forall i :: 0 <= i < |s| ==> IsDigit(s[i])
  {
    if s == "" then 0 else 10 * ParseDec(s[..|s| - 1]) + DecValue(s[|s| - 1])
  }

  function DecDigit(n: nat): (c: char)
    requires n < 10
    ensures IsDigit(c) && DecValue(c) == n && c != '.' && c != ':'
  {
    ('0' as int + n) as char
  }

  function ToDec(n: nat): (s: string)
    ensures (forall i :: 0 <= i < |s| ==> IsDigit(s[i])) && s != "" && ParseDec(s) == n
    ensures n != 0 ==> s[0] != '0'
    ensures |s| == 1 || s[0] != '0'
  {
    if n < 10 then [DecDigit(n)]
    else
      var s := ToDec(n / 10) + [DecDigit(n % 10)];
      assert s[..|s| - 1] == ToDec(n / 10);
      s
  }

  lemma DecLength(n: nat)
    ensures |ToDec(n)| == if n < 10 then 1 else 1 + |ToDec(n / 10)|
  {
  }

  lemma ToDecIsShort(n: nat)
    requires n <= 255
    ensures |ToDec(n)| <= 3
  {
    DecLength(n);
    DecLength(n / 10);
    DecLength(n / 10 / 10);
  }

  // ---------------------------------------------------------------------- dotted quads

  predicate OctetText(s: string) {
    && 1 <= |s| <= 3 && (forall i :: 0 <= i < |s| ==> IsDigit(s[i]))
    && (|s| == 1 || s[0] != '0') && ParseDec(s) <= 255
  }

  /** isIPv4 of node:net. */
  predicate IsIPv4(s: string) {
    var parts := Split(s, '.');
    |parts| == 4 && forall i :: 0 <= i < 4 ==> OctetText(parts[i])
  }

  function Octets(s: string): (octets: seq<nat>)
    requires IsIPv4(s)
    ensures |octets| == 4 && forall i :: 0 <= i < 4 ==> octets[i] <= 255
  {
    var parts := Split(s, '.');
    seq(4, i requires 0 <= i < 4 => ParseDec(parts[i]))
  }

  predicate Quad(octets: seq<nat>) { |octets| == 4 && forall i :: 0 <= i < 4 ==> octets[i] <= 255 }

  function Dotted(octets: seq<nat>): string
    requires Quad(octets)
  {
    Join([ToDec(octets[0]), ToDec(octets[1]), ToDec(octets[2]), ToDec(octets[3])], '.')
  }

  lemma DottedParses(octets: seq<nat>)
    requires Quad(octets)
    ensures IsIPv4(Dotted(octets)) && Octets(Dotted(octets)) == octets
  {
    var parts := [ToDec(octets[0]), ToDec(octets[1]), ToDec(octets[2]), ToDec(octets[3])];
    forall i | 0 <= i < 4 ensures OctetText(parts[i]) && '.' !in parts[i] && ParseDec(parts[i]) == octets[i] {
      assert parts[i] == ToDec(octets[i]);
      ToDecIsShort(octets[i]);
    }
    SplitJoin(parts, '.');
    hide ToDec, OctetText, ParseDec, Split, Join;
  }

  lemma {:induction false} DecimalReads(s: string)
    requires s != "" && (forall i :: 0 <= i < |s| ==> IsDigit(s[i])) && (|s| == 1 || s[0] != '0')
    ensures ToDec(ParseDec(s)) == s && (s[0] != '0' ==> ParseDec(s) > 0)
    decreases |s|
  {
    var front, last := s[..|s| - 1], DecValue(s[|s| - 1]);
    assert DecDigit(last) == s[|s| - 1];
    if front == "" {
      assert ParseDec(front) == 0 && s == [s[0]];
    } else {
      DecimalReads(front);
      assert ParseDec(s) / 10 == ParseDec(front) && ParseDec(s) % 10 == last;
      assert s == front + [s[|s| - 1]];
    }
  }

  /** Only dotted quads are recognised. */
  lemma QuadsAreDotted(s: string)
    requires IsIPv4(s)
    ensures Quad(Octets(s)) && Dotted(Octets(s)) == s
  {
    var parts, octets := Split(s, '.'), Octets(s);
    JoinSplit(s, '.');
    forall i | 0 <= i < 4 ensures ToDec(octets[i]) == parts[i] {
      assert OctetText(parts[i]) && octets[i] == ParseDec(parts[i]);
      DecimalReads(parts[i]);
    }
    assert parts == [ToDec(octets[0]), ToDec(octets[1]), ToDec(octets[2]), ToDec(octets[3])];
  }

  /** A hexadecimal digit is worth its place among the digits, whatever its case. */
  lemma DigitsAreOrdered(c: char)
    requires IsHex(c)
    ensures HexValue(c) < 16 && "0123456789abcdef"[HexValue(c)] == Lower(c)
  {
  }

  ghost predicate InSome(pieces: seq<string>, c: char) { exists i :: 0 <= i < |pieces| && c in pieces[i] }

  /** Every character is a separator or part of a piece. */
  lemma {:induction false} PiecesCover(s: string, separator: char, k: nat)
    requires k < |s|
    ensures s[k] == separator || InSome(Split(s, separator), s[k])
  {
    var pieces := Split(s, separator);
    var rest := Split(s[1..], separator);
    if k > 0 && s[k] != separator {
      PiecesCover(s[1..], separator, k - 1);
      var i :| 0 <= i < |rest| && s[k] in rest[i];
      var j := if s[0] == separator then i + 1 else i;
      assert s[k] in pieces[j];
      assert InSome(pieces, s[k]);
    } else if s[0] != separator {
      assert pieces[0][0] == s[0];
      assert s[0] in pieces[0];
    }
  }

  lemma ColonIsNotIPv4(s: string, k: nat)
    requires k < |s| && s[k] == ':'
    ensures !IsIPv4(s)
  {
    PiecesCover(s, '.', k);
  }

  // ---------------------------------------------------------------------- renderings of an address

  /** One way to write an address: hexadecimal groups before and after an optional "::", and an
      optional dotted quad for the last two groups. Without "::" every group is in left. */
  datatype Rendering = Rendering(left: seq<string>, right: seq<string>, compressed: bool, tail: Option<seq<nat>>)

  predicate GroupText(s: string) { 1 <= |s| <= 4 && AllHex(s) }

  predicate AreGroups(texts: seq<string>) { forall i :: 0 <= i < |texts| ==> GroupText(texts[i]) }

  function Count(r: Rendering): nat { |r.left| + |r.right| + (if r.tail.Some? then 2 else 0) }

  predicate ValidRendering(r: Rendering) {
    && AreGroups(r.left) && AreGroups(r.right)
    && (r.tail.Some? ==> Quad(r.tail.value))
    && (if r.compressed then Count(r) <= 7 else r.right == [] && Count(r) == 8)
  }

  function TailTexts(tail: Option<seq<nat>>): seq<string>
    requires tail.Some? ==> Quad(tail.value)
  {
    if tail.Some? then [Dotted(tail.value)] else []
  }

  function Render(r: Rendering): string
    requires ValidRendering(r)
  {
    if r.compressed then Join(r.left, ':') + "::" + Join(r.right + TailTexts(r.tail), ':')
    else Join(r.left + TailTexts(r.tail), ':')
  }

  function Values(texts: seq<string>): seq<nat>
    requires AreGroups(texts)
  {
    seq(|texts|, i requires 0 <= i < |texts| => ParseHex(texts[i]))
  }

  function TailValues(tail: Option<seq<nat>>): seq<nat>
    requires tail.Some? ==> Quad(tail.value)
  {
    if tail.Some?
    then [tail.value[0] * 256 + tail.value[1], tail.value[2] * 256 + tail.value[3]]
    else []
  }

  function Zeros(n: nat): seq<nat> { seq(n, _ => 0) }

  /** The eight groups a rendering stands for. */
  function Meaning(r: Rendering): (groups: seq<nat>)
    requires ValidRendering(r)
    ensures |groups| == 8
  {
    Values(r.left) + Zeros(8 - Count(r)) + Values(r.right) + TailValues(r.tail)
  }

  /** isIPv6 of node:net, without zone identifiers. */
  ghost predicate IsIPv6(s: string) { exists r :: ValidRendering(r) && Render(r) == s }

  // ---------------------------------------------------------------------- the parser

  function LastColon(s: string): (k: int)
    ensures -1 <= k < |s| && (k >= 0 ==> s[k] == ':')
    ensures forall i :: k < i < |s| ==> s[i] != ':'
  {
    if s == "" then -1 else if s[|s| - 1] == ':' then |s| - 1 else LastColon(s[..|s| - 1])
  }

  function HexTail(octets: seq<nat>): string
    requires Quad(octets)
  {
    ToHex(octets[0] * 256 + octets[1]) + ":" + ToHex(octets[2] * 256 + octets[3])
  }

  /** A dotted tail is rewritten as two hexadecimal groups. */
  function Normalize(host: string): string {
    var k := LastColon(host) + 1;
    if IsIPv4(host[k..]) then host[..k] + HexTail(Octets(host[k..])) else host
  }

  /** String.prototype.split("::"). */
  function SplitDouble(s: string): seq<string> {
    if |s| < 2 then [s]
    else if s[0] == ':' && s[1] == ':' then [""] + SplitDouble(s[2..])
    else
      var rest := SplitDouble(s[1..]);
      if rest == [] then [s] else [[s[0]] + rest[0]] + rest[1..]
  }

  function SplitGroups(half: string): seq<string> { if half == "" then [] else Split(half, ':') }

  function ParseGroup(text: string): nat { if text != "" && AllHex(text) then ParseHex(text) else 0 }

  function ParseGroups(normalized: string): seq<nat> {
    var halves := SplitDouble(normalized);
    var left := if halves == [] then [] else SplitGroups(halves[0]);
    var right := if |halves| == 2 then SplitGroups(halves[1]) else [];
    var missing := if |left| + |right| <= 8 then 8 - |left| - |right| else 0;
    var texts := left + seq(missing, _ => "0") + right;
    seq(|texts|, i requires 0 <= i < |texts| => ParseGroup(texts[i]))
  }
}
