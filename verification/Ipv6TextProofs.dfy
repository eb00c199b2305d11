/** Every valid rendering of an IPv6 address parses back to its eight groups. */
module Ipv6TextProofs {
  import opened Options
  import opened Text
  import opened Ipv6Text

  // ---------------------------------------------------------------------- splitting at "::"

  predicate NoDouble(s: string) { forall i :: 0 <= i < |s| - 1 ==> s[i] != ':' || s[i + 1] != ':' }

  lemma TailNoDouble(s: string)
    requires NoDouble(s) && s != ""
    ensures NoDouble(s[1..])
  {
    var t := s[1..];
    forall i | 0 <= i < |t| - 1 ensures t[i] != ':' || t[i + 1] != ':' {
      assert s[i + 1] != ':' || s[i + 2] != ':';
    }
  }

  lemma {:induction false} SplitDoubleWhole(s: string)
    requires NoDouble(s)
    ensures SplitDouble(s) == [s]
  {
    if |s| >= 2 {
      assert s[0] != ':' || s[1] != ':';
      TailNoDouble(s);
      SplitDoubleWhole(s[1..]);
      assert [s[0]] + s[1..] == s;
    }
  }

  lemma {:induction false} SplitDoubleHead(a: string, rest: string)
    requires NoDouble(a) && (a != "" ==> a[|a| - 1] != ':')
    ensures SplitDouble(a + "::" + rest) == [a] + SplitDouble(rest)
  {
    var s := a + "::" + rest;
    if a == "" {
      assert s[2..] == rest;
    } else {
      assert s[1..] == a[1..] + "::" + rest;
      TailNoDouble(a);
      assert s[0] != ':' || s[1] != ':' by { if |a| > 1 { assert a[0] != ':' || a[1] != ':'; } }
      SplitDoubleHead(a[1..], rest);
      assert [a[0]] + a[1..] == a;
    }
  }

  /** Pieces that may stand between colons: not empty and without a colon. */
  predicate Pieces(parts: seq<string>) { forall i :: 0 <= i < |parts| ==> parts[i] != "" && ':' !in parts[i] }

  lemma {:induction false} JoinedPieces(parts: seq<string>)
    requires Pieces(parts)
    ensures var s := Join(parts, ':');
      && NoDouble(s) && (parts != [] ==> s != "" && s[0] != ':' && s[|s| - 1] != ':')
  {
    if |parts| == 1 {
      assert parts[0][0] in parts[0] && parts[0][|parts[0]| - 1] in parts[0];
      forall i | 0 <= i < |parts[0]| ensures parts[0][i] != ':' { assert parts[0][i] in parts[0]; }
    } else if |parts| > 1 {
      var head := parts[0];
      var rest := Join(parts[1..], ':');
      JoinedPieces(parts[1..]);
      var s := head + [':'] + rest;
      forall i | 0 <= i < |s| - 1 ensures s[i] != ':' || s[i + 1] != ':' {
        if i < |head| {
          assert head[i] in head;
        } else if i > |head| {
          assert s[i] == rest[i - |head| - 1] && s[i + 1] == rest[i - |head|];
        }
      }
      assert head[0] in head;
    }
  }

  lemma SplitGroupsJoin(parts: seq<string>)
    requires Pieces(parts)
    ensures SplitGroups(Join(parts, ':')) == parts
  {
    JoinedPieces(parts);
    if parts != [] {
      forall part | part in parts ensures ':' !in part { }
      SplitJoin(parts, ':');
    }
  }

  lemma GroupsArePieces(texts: seq<string>)
    requires AreGroups(texts)
    ensures Pieces(texts)
  {
    forall i | 0 <= i < |texts| ensures ':' !in texts[i] {
      assert GroupText(texts[i]);
    }
  }

  // ---------------------------------------------------------------------- renderings without a dotted tail

  lemma HalvesOfRender(r: Rendering)
    requires ValidRendering(r) && r.tail.None?
    ensures SplitDouble(Render(r)) ==
      if r.compressed then [Join(r.left, ':'), Join(r.right, ':')] else [Join(r.left, ':')]
  {
    GroupsArePieces(r.left);
    GroupsArePieces(r.right);
    JoinedPieces(r.left);
    JoinedPieces(r.right);
    assert r.right + [] == r.right && r.left + [] == r.left;
    if r.compressed {
      SplitDoubleHead(Join(r.left, ':'), Join(r.right, ':'));
      SplitDoubleWhole(Join(r.right, ':'));
    } else {
      SplitDoubleWhole(Join(r.left, ':'));
    }
  }

  lemma ParseOfGroups(r: Rendering)
    requires ValidRendering(r) && r.tail.None?
    ensures ParseGroups(Render(r)) == Meaning(r)
  {
    HalvesOfRender(r);
    GroupsArePieces(r.left);
    GroupsArePieces(r.right);
    SplitGroupsJoin(r.left);
    SplitGroupsJoin(r.right);
    TextsMean(r);
    hide Join, Render, Meaning, SplitDouble, SplitGroups, Pieces, AreGroups, ParseGroup;
  }

  lemma TextsMean(r: Rendering)
    requires ValidRendering(r) && r.tail.None?
    ensures var texts := r.left + seq(8 - Count(r), _ => "0") + r.right;
      |texts| == 8 && seq(8, i requires 0 <= i < 8 => ParseGroup(texts[i])) == Meaning(r)
  {
    var texts := r.left + seq(8 - Count(r), _ => "0") + r.right;
    var n := |r.left|;
    assert ParseGroup("0") == 0 by { assert "0"[..0] == ""; }
    forall i | 0 <= i < 8 ensures ParseGroup(texts[i]) == Meaning(r)[i] {
      if i < n {
        assert texts[i] == r.left[i];
      } else if i < 8 - |r.right| {
        assert texts[i] == "0";
      } else {
        assert texts[i] == r.right[i - (8 - |r.right|)];
      }
    }
  }

  // ---------------------------------------------------------------------- the dotted tail

  /** The same address with its dotted tail written as two hexadecimal groups. */
  function HexRendering(r: Rendering): Rendering
    requires ValidRendering(r)
  {
    if r.tail.None? then r
    else
      var texts := [ToHex(r.tail.value[0] * 256 + r.tail.value[1]), ToHex(r.tail.value[2] * 256 + r.tail.value[3])];
      if r.compressed then Rendering(r.left, r.right + texts, true, None)
      else Rendering(r.left + texts, r.right, false, None)
  }

  lemma HexTexts(octets: seq<nat>)
    requires Quad(octets)
    ensures var a, b := octets[0] * 256 + octets[1], octets[2] * 256 + octets[3];
      AreGroups([ToHex(a), ToHex(b)]) && Values([ToHex(a), ToHex(b)]) == [a, b]
  {
    ToHexIsShort(octets[0] * 256 + octets[1]);
    ToHexIsShort(octets[2] * 256 + octets[3]);
  }

  lemma ValuesOfConcat(a: seq<string>, b: seq<string>)
    requires AreGroups(a) && AreGroups(b)
    ensures AreGroups(a + b) && Values(a + b) == Values(a) + Values(b)
  {
  }

  lemma HexRenderingIsValid(r: Rendering)
    requires ValidRendering(r)
    ensures ValidRendering(HexRendering(r)) && Count(HexRendering(r)) == Count(r)
  {
    if r.tail.Some? {
      HexTexts(r.tail.value);
    }
  }

  /** What the two hexadecimal groups stand for, wherever they are appended. */
  lemma HexTailMeans(r: Rendering, groups: seq<string>)
    requires ValidRendering(r) && r.tail.Some? && AreGroups(groups)
    ensures var octets := r.tail.value;
      var texts := [ToHex(octets[0] * 256 + octets[1]), ToHex(octets[2] * 256 + octets[3])];
      AreGroups(groups + texts) && Values(groups + texts) == Values(groups) + TailValues(r.tail)
  {
    var octets := r.tail.value;
    HexTexts(octets);
    ValuesOfConcat(groups, [ToHex(octets[0] * 256 + octets[1]), ToHex(octets[2] * 256 + octets[3])]);
  }

  lemma HexRenderingMeans(r: Rendering)
    requires ValidRendering(r)
    ensures ValidRendering(HexRendering(r)) && Meaning(HexRendering(r)) == Meaning(r)
  {
    HexRenderingIsValid(r);
    if r.tail.Some? {
      HexTailMeans(r, r.left);
      HexTailMeans(r, r.right);
      NoZeros(r);
      assert TailValues(None) == [];
      hide Values, ToHex, Zeros, AreGroups, Quad, Count, TailValues;
      Regroup(Values(r.left), Zeros(8 - Count(r)), Values(r.right), TailValues(r.tail));
    }
  }

  lemma NoZeros(r: Rendering)
    requires ValidRendering(r)
    ensures !r.compressed ==> Zeros(8 - Count(r)) == [] && Values(r.right) == []
  {
  }

  lemma Regroup(a: seq<nat>, b: seq<nat>, c: seq<nat>, d: seq<nat>)
    ensures a + b + (c + d) + [] == a + b + c + d
    ensures b == [] && c == [] ==> (a + d) + b + c + [] == a + b + c + d
  {
  }

  lemma {:induction false} JoinLast(parts: seq<string>, last: string)
    requires parts != []
    ensures Join(parts + [last], ':') == Join(parts, ':') + ":" + last
  {
    if |parts| == 1 {
      assert parts + [last] == [parts[0], last];
      assert (parts + [last])[1..] == [last];
    } else {
      JoinLast(parts[1..], last);
      assert (parts + [last])[1..] == parts[1..] + [last];
    }
  }

  /** Whatever precedes the last piece, it is empty or ends in a colon. */
  function BeforeTail(r: Rendering): string
    requires ValidRendering(r)
  {
    if r.compressed then
      Join(r.left, ':') + "::" + (if r.right == [] then "" else Join(r.right, ':') + ":")
    else
      Join(r.left, ':') + ":"
  }

  lemma TailComesLast(r: Rendering, last: string)
    requires ValidRendering(r)
    ensures r.compressed ==> Join(r.left, ':') + "::" + Join(r.right + [last], ':') == BeforeTail(r) + last
    ensures !r.compressed ==> Join(r.left + [last], ':') == BeforeTail(r) + last
  {
    if r.compressed {
      if r.right == [] { assert r.right + [last] == [last]; } else { JoinLast(r.right, last); }
    } else {
      JoinLast(r.left, last);
    }
  }

  lemma LastColonAt(prefix: string, last: string)
    requires prefix != "" && prefix[|prefix| - 1] == ':' && ':' !in last
    ensures LastColon(prefix + last) == |prefix| - 1
  {
    var s := prefix + last;
    assert s[|prefix| - 1] == ':';
    forall i | |prefix| <= i < |s|
      ensures s[i] != ':'
    {
      assert s[i] == last[i - |prefix|];
      assert last[i - |prefix|] in last;
    }
  }

  lemma DottedHasNoColon(octets: seq<nat>)
    requires Quad(octets)
    ensures ':' !in Dotted(octets)
  {
    var s := Dotted(octets);
    DottedParses(octets);
    if ':' in s {
      var k :| 0 <= k < |s| && s[k] == ':';
      ColonIsNotIPv4(s, k);
    }
  }

  lemma NormalizeTail(r: Rendering)
    requires ValidRendering(r) && r.tail.Some?
    ensures ValidRendering(HexRendering(r)) && Normalize(Render(r)) == Render(HexRendering(r))
  {
    HexRenderingMeans(r);
    var octets := r.tail.value;
    var before := BeforeTail(r);
    TailComesLast(r, Dotted(octets));
    DottedHasNoColon(octets);
    DottedParses(octets);
    assert Render(r) == before + Dotted(octets);
    LastColonAt(before, Dotted(octets));
    assert Render(r)[..|before|] == before && Render(r)[|before|..] == Dotted(octets);
    HexTailComesLast(r);
  }

  lemma JoinLastTwo(texts: seq<string>, a: string, b: string)
    ensures Join(texts + [a, b], ':') == Join(texts + [a], ':') + ":" + b
  {
    assert texts + [a, b] == (texts + [a]) + [b];
    JoinLast(texts + [a], b);
  }

  lemma HexTailComesLast(r: Rendering)
    requires ValidRendering(r) && r.tail.Some? && ValidRendering(HexRendering(r))
    ensures Render(HexRendering(r)) == BeforeTail(r) + HexTail(r.tail.value)
  {
    var octets := r.tail.value;
    var a, b := ToHex(octets[0] * 256 + octets[1]), ToHex(octets[2] * 256 + octets[3]);
    var texts := if r.compressed then r.right else r.left;
    TailComesLast(r, a);
    JoinLastTwo(texts, a, b);
    hide ToHex, Join, BeforeTail, AreGroups, Count;
    assert texts + [a, b] + [] == texts + [a, b];
    Associate(BeforeTail(r), a, ":", b);
    Associate(Join(r.left, ':') + "::", Join(r.right + [a], ':'), ":", b);
  }

  lemma Associate(a: string, b: string, c: string, d: string)
    ensures a + (b + c + d) == (a + b) + c + d
  {
  }

  /** Without a dotted tail the last piece is hexadecimal, so nothing is rewritten. */
  lemma NormalizeKeepsGroups(r: Rendering)
    requires ValidRendering(r) && r.tail.None?
    ensures Normalize(Render(r)) == Render(r)
  {
    RenderHasNoDot(r);
    NoDotIsKept(Render(r));
  }

  lemma NoDotIsKept(s: string)
    requires '.' !in s
    ensures Normalize(s) == s
  {
    hide Octets, HexTail;
    var last := s[LastColon(s) + 1..];
    NoDotIsNotIPv4(last);
  }

  lemma NoDotIsNotIPv4(s: string)
    requires '.' !in s
    ensures !IsIPv4(s)
  {
    SplitWhole(s, '.');
  }

  lemma {:induction false} JoinedChars(parts: seq<string>, k: nat)
    requires AreGroups(parts) && k < |Join(parts, ':')|
    ensures IsHex(Join(parts, ':')[k]) || Join(parts, ':')[k] == ':'
  {
    if |parts| == 1 {
      assert GroupText(parts[0]);
    } else {
      assert GroupText(parts[0]);
      if k > |parts[0]| { JoinedChars(parts[1..], k - |parts[0]| - 1); }
    }
  }

  lemma RenderHasNoDot(r: Rendering)
    requires ValidRendering(r) && r.tail.None?
    ensures '.' !in Render(r)
  {
    var s := Render(r);
    assert r.left + [] == r.left && r.right + [] == r.right;
    var l, h := Join(r.left, ':'), Join(r.right, ':');
    forall k | 0 <= k < |s| ensures s[k] != '.' {
      if k < |l| {
        JoinedChars(r.left, k);
      } else if k >= |l| + 2 {
        JoinedChars(r.right, k - |l| - 2);
      }
    }
  }

  /** The round trip, for every placement of "::", leading zeros, either letter case and an optional
      dotted tail: what the parser reads is what the text means. */
  lemma RenderingsParseBack(r: Rendering)
    requires ValidRendering(r)
    ensures ParseGroups(Normalize(Render(r))) == Meaning(r)
  {
    if r.tail.Some? {
      NormalizeTail(r);
      HexRenderingMeans(r);
      ParseOfGroups(HexRendering(r));
    } else {
      NormalizeKeepsGroups(r);
      ParseOfGroups(r);
    }
  }
}
