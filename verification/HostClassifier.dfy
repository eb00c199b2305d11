/** The two classifiers of private and loopback hosts: the CLI's, on text, and the desktop's, on
    parsed addresses (section 3 of RFC 1918, section 3.1 of RFC 4193, section 2.5 of RFC 4291). */
module HostClassifier {
  import opened Text
  import opened Ipv6Text
  import opened Ipv6TextProofs

  type Address = groups: seq<nat> | |groups| == 8 && forall i :: 0 <= i < 8 ==> groups[i] < 0x1_0000
    witness [0, 0, 0, 0, 0, 0, 0, 0]

  // ---------------------------------------------------------------------- the CLI

  predicate CliPrivateV4(octets: seq<nat>)
    requires |octets| == 4
  {
    var first, second := octets[0], octets[1];
    && (forall i :: 0 <= i < 4 ==> octets[i] <= 255)
    && (first == 0 || first == 127 || first == 10 || (first == 172 && 16 <= second <= 31)
        || (first == 192 && second == 168) || (first == 169 && second == 254))
  }

  predicate AllZero(groups: seq<nat>) { forall i :: 0 <= i < |groups| ==> groups[i] == 0 }

  /** The last two groups as four octets: shifts and masks of 16-bit values. */
  function TailOctets(g: Address): seq<nat> { [g[6] / 256, g[6] % 256, g[7] / 256, g[7] % 256] }

  predicate UniqueLocal(first: bv16) { first & 0xfe00 == 0xfc00 }

  predicate LinkLocal(first: bv16) { first & 0xffc0 == 0xfe80 }

  predicate Unspecified(g: Address) { AllZero(g) }

  predicate Loopback(g: Address) { AllZero(g[..7]) && g[7] == 1 }

  predicate CliPrivateV6(g: Address) {
    var mapped := AllZero(g[..5]) && (g[5] == 0 || g[5] == 0xffff);
    Unspecified(g) || Loopback(g) || UniqueLocal(g[0] as bv16) || LinkLocal(g[0] as bv16)
    || (mapped && CliPrivateV4(TailOctets(g)))
  }

  function StripBrackets(hostname: string): string {
    if |hostname| >= 2 && hostname[0] == '[' && hostname[|hostname| - 1] == ']'
    then hostname[1..|hostname| - 1] else hostname
  }

  ghost predicate CliPrivateHost(hostname: string) {
    var host := StripBrackets(hostname);
    if hostname == "localhost" || EndsWith(hostname, ".localhost") then true
    else if IsIPv4(host) then CliPrivateV4(Octets(host))
    else if IsIPv6(host) then
      ParsesToAddress(host);
      CliPrivateV6(ParseGroups(Normalize(host)))
    else false
  }

  lemma ParsesToAddress(host: string)
    requires IsIPv6(host)
    ensures var g := ParseGroups(Normalize(host)); |g| == 8 && forall i :: 0 <= i < 8 ==> g[i] < 0x1_0000
  {
    var r :| ValidRendering(r) && Render(r) == host;
    RenderingsParseBack(r);
    MeaningIsAddress(r);
  }

  lemma {:induction false} HexBound(s: string)
    requires AllHex(s) && |s| <= 4
    ensures ParseHex(s) < 0x1_0000
    ensures |s| <= 3 ==> ParseHex(s) < 0x1000
    ensures |s| <= 2 ==> ParseHex(s) < 0x100
    ensures |s| <= 1 ==> ParseHex(s) < 0x10
  {
    if s != "" { HexBound(s[..|s| - 1]); }
  }

  lemma MeaningIsAddress(r: Rendering)
    requires ValidRendering(r)
    ensures forall i :: 0 <= i < 8 ==> Meaning(r)[i] < 0x1_0000
  {
    forall i | 0 <= i < |r.left|
      ensures Values(r.left)[i] < 0x1_0000
    {
      assert GroupText(r.left[i]);
      HexBound(r.left[i]);
    }
    forall i | 0 <= i < |r.right|
      ensures Values(r.right)[i] < 0x1_0000
    {
      assert GroupText(r.right[i]);
      HexBound(r.right[i]);
    }
    if r.tail.Some? {
      assert TailValues(r.tail)[0] < 0x1_0000 && TailValues(r.tail)[1] < 0x1_0000;
    }
  }

  // ---------------------------------------------------------------------- the desktop

  predicate DesktopPrivateV4(octets: seq<nat>)
    requires Quad(octets)
  {
    var isPrivate := octets[0] == 10 || (octets[0] == 172 && 16 <= octets[1] <= 31)
      || (octets[0] == 192 && octets[1] == 168);
    var isLoopback := octets[0] == 127;
    var isLinkLocal := octets[0] == 169 && octets[1] == 254;
    var isUnspecified := octets == [0, 0, 0, 0];
    isPrivate || isLoopback || isLinkLocal || isUnspecified || octets[0] == 0
  }

  /** Ipv6Addr::to_ipv4_mapped: only ::ffff:a.b.c.d. */
  predicate Mapped(g: Address) { AllZero(g[..5]) && g[5] == 0xffff }

  predicate DesktopPrivateV6(g: Address) {
    Loopback(g) || Unspecified(g) || UniqueLocal(g[0] as bv16) || LinkLocal(g[0] as bv16)
        || (Mapped(g) && DesktopPrivateV4(TailOctets(g)))
  }

  // ---------------------------------------------------------------------- results on text

  predicate HexOrColon(c: char) { IsHex(c) || c == ':' }

  /** A rendering ends in a digit or a colon, and has a colon. */
  lemma RenderEnds(r: Rendering)
    requires ValidRendering(r)
    ensures var s := Render(r);
      s != "" && HexOrColon(s[|s| - 1]) && exists k :: 0 <= k < |s| && s[k] == ':'
  {
    if r.tail.Some? {
      var before := BeforeTail(r);
      TailComesLast(r, Dotted(r.tail.value));
      DottedEnds(r.tail.value);
      assert Render(r) == before + Dotted(r.tail.value);
      assert Render(r)[|before| - 1] == ':';
    } else {
      PlainEnds(r);
    }
  }

  lemma PlainEnds(r: Rendering)
    requires ValidRendering(r) && r.tail.None?
    ensures var s := Render(r);
      s != "" && HexOrColon(s[|s| - 1]) && exists k :: 0 <= k < |s| && s[k] == ':'
  {
    assert r.left + [] == r.left && r.right + [] == r.right;
    if r.compressed {
      assert Render(r)[|Join(r.left, ':')|] == ':';
      if r.right != [] { GroupsEnd(r.right); }
    } else {
      assert Render(r)[|r.left[0]|] == ':';
      GroupsEnd(r.left);
    }
  }

  lemma GroupsEnd(texts: seq<string>)
    requires AreGroups(texts) && texts != []
    ensures var s := Join(texts, ':'); s != "" && IsHex(s[|s| - 1])
  {
    assert GroupText(texts[|texts| - 1]);
    LastOfJoin(texts, ':');
  }

  lemma RenderStarts(r: Rendering)
    requires ValidRendering(r)
    ensures Render(r) != "" && HexOrColon(Render(r)[0])
  {
    RenderEnds(r);
    if r.left != [] {
      assert GroupText(r.left[0]);
      FirstOfJoin(if r.compressed then r.left else r.left + TailTexts(r.tail), ':');
    }
  }

  lemma FirstOfJoin(parts: seq<string>, separator: char)
    requires parts != [] && parts[0] != ""
    ensures Join(parts, separator) != "" && Join(parts, separator)[0] == parts[0][0]
  {
  }

  lemma {:induction false} LastOfJoin(parts: seq<string>, separator: char)
    requires parts != [] && parts[|parts| - 1] != ""
    ensures var s := Join(parts, separator); var last := parts[|parts| - 1];
      s != "" && s[|s| - 1] == last[|last| - 1]
  {
    if |parts| > 1 { LastOfJoin(parts[1..], separator); }
  }

  lemma DottedEnds(octets: seq<nat>)
    requires Quad(octets)
    ensures Dotted(octets) != "" && IsHex(Dotted(octets)[0]) && IsHex(Dotted(octets)[|Dotted(octets)| - 1])
  {
    var parts := [ToDec(octets[0]), ToDec(octets[1]), ToDec(octets[2]), ToDec(octets[3])];
    assert IsDigit(parts[0][0]) && IsDigit(parts[3][|parts[3]| - 1]);
    FirstOfJoin(parts, '.');
    LastOfJoin(parts, '.');
  }

  lemma EndsLikeSuffix(s: string, suffix: string)
    requires EndsWith(s, suffix) && suffix != ""
    ensures s != "" && s[|s| - 1] == suffix[|suffix| - 1]
  {
    assert s[|s| - 1] == s[|s| - |suffix|..][|suffix| - 1];
  }

  lemma NotLocalhost(s: string)
    requires s != "" && s[|s| - 1] != 't'
    ensures s != "localhost" && !EndsWith(s, ".localhost")
  {
    if EndsWith(s, ".localhost") { EndsLikeSuffix(s, ".localhost"); }
  }

  /** The CLI's verdict on an IPv6 host depends only on the eight groups the text stands for. */
  lemma CliDependsOnGroups(r: Rendering, bracketed: bool)
    requires ValidRendering(r)
    ensures forall i :: 0 <= i < 8 ==> Meaning(r)[i] < 0x1_0000
    ensures var host := if bracketed then "[" + Render(r) + "]" else Render(r);
      CliPrivateHost(host) <==> CliPrivateV6(Meaning(r))
  {
    var text := Render(r);
    var host := if bracketed then "[" + text + "]" else text;
    MeaningIsAddress(r);
    RenderEnds(r);
    RenderStarts(r);
    NotLocalhost(host);
    assert StripBrackets(host) == text by { if bracketed { assert host[1..|host| - 1] == text; } }
    var k :| 0 <= k < |text| && text[k] == ':';
    ColonIsNotIPv4(text, k);
    RenderingsParseBack(r);
  }

  /** An address may be written bare or in brackets. */
  predicate IsWritten(host: string, text: string) { host == text || host == "[" + text + "]" }

  lemma Unbracketed(host: string)
    ensures IsWritten(host, StripBrackets(host))
  {
  }

  /** And its verdict on an IPv4 host only on the four octets. */
  lemma CliOnDottedQuads(octets: seq<nat>, host: string)
    requires Quad(octets) && IsWritten(host, Dotted(octets))
    ensures CliPrivateHost(host) <==> CliPrivateV4(octets)
  {
    var text := Dotted(octets);
    DottedParses(octets);
    DottedEnds(octets);
    NotLocalhost(host);
    assert StripBrackets(host) == text by { if host != text { assert host[1..|host| - 1] == text; } }
  }

  ghost predicate IsLocalhost(host: string) {
    host == "localhost" || exists name: string :: host == name + ".localhost"
  }

  ghost predicate IsPrivateQuad(host: string) {
    exists octets :: Quad(octets) && IsWritten(host, Dotted(octets)) && InPrivateRange4(Number4(octets))
  }

  ghost predicate StandsFor(host: string, g: Address) {
    exists r :: ValidRendering(r) && IsWritten(host, Render(r)) && Meaning(r) == g
  }

  ghost predicate IsPrivateGroups(host: string) { exists g :: StandsFor(host, g) && InPrivateRange6(Number6(g)) }

  /** On every text: a host is private exactly if it is localhost or below it, or a private address. */
  lemma PrivateHostsAreThese(host: string)
    ensures CliPrivateHost(host) <==> IsLocalhost(host) || IsPrivateQuad(host) || IsPrivateGroups(host)
  {
    var text := StripBrackets(host);
    LocalhostByName(host);
    forall octets | Quad(octets) && IsWritten(host, Dotted(octets))
      ensures CliPrivateHost(host) <==> InPrivateRange4(Number4(octets))
    {
      CliOnDottedQuads(octets, host);
      PrivateIsRange4(octets);
    }
    forall g | StandsFor(host, g) ensures CliPrivateHost(host) <==> InPrivateRange6(Number6(g)) {
      var r :| ValidRendering(r) && IsWritten(host, Render(r)) && Meaning(r) == g;
      CliDependsOnGroups(r, host != Render(r));
      PrivateIsRange6(g);
    }
    if CliPrivateHost(host) && !IsLocalhost(host) {
      Unbracketed(host);
      if IsIPv4(text) {
        QuadsAreDotted(text);
      } else {
        var r :| ValidRendering(r) && Render(r) == text;
        MeaningIsAddress(r);
        var g: Address := Meaning(r);
        assert StandsFor(host, g);
      }
    }
  }

  lemma LocalhostByName(host: string)
    ensures IsLocalhost(host) <==> host == "localhost" || EndsWith(host, ".localhost")
  {
    if EndsWith(host, ".localhost") {
      assert host == host[..|host| - |".localhost"|] + ".localhost";
    }
  }

  // ---------------------------------------------------------------------- the two classifiers compared

  lemma ClassifiersAgreeOnV4(octets: seq<nat>)
    requires Quad(octets)
    ensures CliPrivateV4(octets) <==> DesktopPrivateV4(octets)
  {
  }

  /** An IPv4-compatible address, ::a.b.c.d, with a private tail, other than :: and ::1. */
  predicate CompatiblePrivate(g: Address) {
    AllZero(g[..6]) && CliPrivateV4(TailOctets(g)) && !Unspecified(g) && !Loopback(g)
  }

  /** The classifiers differ exactly on IPv4-compatible addresses with a private tail other than ::
      and ::1; there the CLI alone says private. */
  lemma ClassifiersAgreeExceptOnCompatible(g: Address)
    ensures (CliPrivateV6(g) != DesktopPrivateV6(g)) <==> CompatiblePrivate(g)
    ensures CompatiblePrivate(g) ==> CliPrivateV6(g) && !DesktopPrivateV6(g)
  {
    ClassifiersAgreeOnV4(TailOctets(g));
    SixZeros(g);
    if AllZero(g[..6]) {
      ZeroIsNotLocal();
    }
  }

  lemma SixZeros(g: Address)
    ensures AllZero(g[..6]) <==> AllZero(g[..5]) && g[5] == 0
    ensures AllZero(g[..6]) ==> g[0] == 0
  {
    assert forall i :: 0 <= i < 5 ==> g[..6][i] == g[..5][i];
    assert g[..6][5] == g[5] && g[..6][0] == g[0];
  }

  lemma ZeroIsNotLocal()
    ensures !UniqueLocal(0) && !LinkLocal(0)
  {
  }

  /** The masks are the ranges fc00::/7 and fe80::/10. */
  lemma MasksAreRanges(first: bv16)
    ensures UniqueLocal(first) <==> 0xfc00 <= first <= 0xfdff
    ensures LinkLocal(first) <==> 0xfe80 <= first <= 0xfebf
  {
  }

  // ---------------------------------------------------------------------- addresses as numbers

  function Number4(octets: seq<nat>): nat
    requires |octets| == 4
  {
    octets[0] * 0x100_0000 + octets[1] * 0x1_0000 + octets[2] * 0x100 + octets[3]
  }

  function Number6(g: Address): nat {
    High(g) * 0x1_0000_0000 + g[6] * 0x1_0000 + g[7]
  }

  /** The first six groups. */
  function High(g: Address): nat {
    g[0] * 0x1_0000_0000_0000_0000_0000 + g[1] * 0x1_0000_0000_0000_0000 + g[2] * 0x1_0000_0000_0000
    + g[3] * 0x1_0000_0000 + g[4] * 0x1_0000 + g[5]
  }

  /** 0.0.0.0/8, 10.0.0.0/8, 127.0.0.0/8, 169.254.0.0/16, 172.16.0.0/12 and 192.168.0.0/16. */
  predicate InPrivateRange4(n: nat) {
    || n < 0x100_0000
    || 0x0A00_0000 <= n < 0x0B00_0000
    || 0x7F00_0000 <= n < 0x8000_0000
    || 0xA9FE_0000 <= n < 0xA9FF_0000
    || 0xAC10_0000 <= n < 0xAC20_0000
    || 0xC0A8_0000 <= n < 0xC0A9_0000
  }

  /** ::, ::1, fc00::/7, fe80::/10, and the IPv4-compatible and IPv4-mapped forms of private IPv4 addresses. */
  predicate InPrivateRange6(n: nat) {
    || n <= 1
    || 0xFC00_0000_0000_0000_0000_0000_0000_0000 <= n < 0xFE00_0000_0000_0000_0000_0000_0000_0000
    || 0xFE80_0000_0000_0000_0000_0000_0000_0000 <= n < 0xFEC0_0000_0000_0000_0000_0000_0000_0000
    || (n < 0x1_0000_0000 && InPrivateRange4(n))
    || (0xFFFF_0000_0000 <= n < 0x1_0000_0000_0000 && InPrivateRange4(n - 0xFFFF_0000_0000))
  }

  lemma PrivateIsRange4(octets: seq<nat>)
    requires Quad(octets)
    ensures CliPrivateV4(octets) <==> InPrivateRange4(Number4(octets))
  {
  }

  lemma AtLeastFC00(n: nat)
    requires n < 0x1_0000
    ensures 0xFC00 <= n as bv16 <==> 0xFC00 <= n
  {
    var b := n as bv16;
    assert b as nat == n;
  }

  lemma AtMostFDFF(n: nat)
    requires n < 0x1_0000
    ensures n as bv16 <= 0xFDFF <==> n <= 0xFDFF
  {
    var b := n as bv16;
    assert b as nat == n;
  }

  lemma AtLeastFE80(n: nat)
    requires n < 0x1_0000
    ensures 0xFE80 <= n as bv16 <==> 0xFE80 <= n
  {
    var b := n as bv16;
    assert b as nat == n;
  }

  lemma AtMostFEBF(n: nat)
    requires n < 0x1_0000
    ensures n as bv16 <= 0xFEBF <==> n <= 0xFEBF
  {
    var b := n as bv16;
    assert b as nat == n;
  }

  lemma MasksOnNumbers(n: nat)
    requires n < 0x1_0000
    ensures UniqueLocal(n as bv16) <==> 0xFC00 <= n <= 0xFDFF
    ensures LinkLocal(n as bv16) <==> 0xFE80 <= n <= 0xFEBF
  {
    hide UniqueLocal, LinkLocal;
    MasksAreRanges(n as bv16);
    AtLeastFC00(n);
    AtMostFDFF(n);
    AtLeastFE80(n);
    AtMostFEBF(n);
  }

  /** What the first six groups and the last two say about the number. */
  lemma NumberInParts(g: Address)
    ensures var low := g[6] * 0x1_0000 + g[7];
      && low < 0x1_0000_0000 && Number6(g) == High(g) * 0x1_0000_0000 + low && Number4(TailOctets(g)) == low
    ensures Quad(TailOctets(g))
  {
  }

  lemma HighInParts(g: Address)
    ensures AllZero(g[..5]) && g[5] == 0 <==> High(g) == 0
    ensures AllZero(g[..5]) && g[5] == 0xFFFF <==> High(g) == 0xFFFF
    ensures g[0] * 0x1_0000_0000_0000_0000_0000 <= High(g) < (g[0] + 1) * 0x1_0000_0000_0000_0000_0000
  {
    if High(g) == 0 || High(g) == 0xFFFF {
      assert g[0] == 0 && g[1] == 0 && g[2] == 0 && g[3] == 0 && g[4] == 0;
    } else if AllZero(g[..5]) {
      assert g[..5][0] == g[0] && g[..5][1] == g[1] && g[..5][2] == g[2] && g[..5][3] == g[3] && g[..5][4] == g[4];
    }
  }

  lemma SpecialNumbers(g: Address)
    ensures Unspecified(g) <==> Number6(g) == 0
    ensures Loopback(g) <==> Number6(g) == 1
  {
    hide High;
    HighInParts(g);
    NumberInParts(g);
    if Unspecified(g) || Loopback(g) {
      assert AllZero(g[..5]) by { assert forall i :: 0 <= i < 5 ==> g[..5][i] == g[i]; }
      assert g[5] == 0 && g[6] == 0;
    }
    if Number6(g) <= 1 {
      assert High(g) == 0 && g[6] == 0;
      assert forall i :: 0 <= i < 5 ==> g[i] == g[..5][i];
    }
  }

  const FIRST_GROUP := 0x1_0000_0000_0000_0000_0000_0000_0000

  lemma FirstGroupRange(n: nat, first: nat, low: nat, high: nat)
    requires first * FIRST_GROUP <= n < (first + 1) * FIRST_GROUP
    ensures low <= first < high <==> low * FIRST_GROUP <= n < high * FIRST_GROUP
  {
  }

  lemma FirstGroup(g: Address)
    ensures g[0] * FIRST_GROUP <= Number6(g) < (g[0] + 1) * FIRST_GROUP
  {
    hide High;
    HighInParts(g);
    NumberInParts(g);
  }

  lemma LocalNumbers(g: Address)
    ensures UniqueLocal(g[0] as bv16) <==>
      0xFC00_0000_0000_0000_0000_0000_0000_0000 <= Number6(g) < 0xFE00_0000_0000_0000_0000_0000_0000_0000
    ensures LinkLocal(g[0] as bv16) <==>
      0xFE80_0000_0000_0000_0000_0000_0000_0000 <= Number6(g) < 0xFEC0_0000_0000_0000_0000_0000_0000_0000
  {
    hide Number6, UniqueLocal, LinkLocal;
    FirstGroup(g);
    FirstGroupRange(Number6(g), g[0], 0xFC00, 0xFE00);
    FirstGroupRange(Number6(g), g[0], 0xFE80, 0xFEC0);
    MasksOnNumbers(g[0]);
  }

  lemma EmbeddedNumbers(g: Address)
    ensures AllZero(g[..5]) && (g[5] == 0 || g[5] == 0xFFFF) && CliPrivateV4(TailOctets(g)) <==>
      || (Number6(g) < 0x1_0000_0000 && InPrivateRange4(Number6(g)))
      || (0xFFFF_0000_0000 <= Number6(g) < 0x1_0000_0000_0000 && InPrivateRange4(Number6(g) - 0xFFFF_0000_0000))
  {
    hide High, Number6, AllZero, CliPrivateV4, InPrivateRange4, Number4, TailOctets;
    HighInParts(g);
    NumberInParts(g);
    PrivateIsRange4(TailOctets(g));
  }

  /** As numbers, the private addresses are these ranges. */
  lemma PrivateIsRange6(g: Address)
    ensures CliPrivateV6(g) <==> InPrivateRange6(Number6(g))
  {
    hide Number6, Unspecified, Loopback, UniqueLocal, LinkLocal, AllZero, CliPrivateV4, InPrivateRange4, TailOctets;
    SpecialNumbers(g);
    LocalNumbers(g);
    EmbeddedNumbers(g);
  }
}
