/** The key under which the desktop cache files an external secret, and which inputs share one. */
module SecretKeys {
  import opened Text

  datatype Input = Input(provider: string, reference: string, scope: string, field: string, version: string,
                         credentialId: string, appName: string)

  function Parts(input: Input): seq<string> {
    [LowerCase(Trim(input.provider)), Trim(input.reference), Trim(input.scope), Trim(input.field), Trim(input.version),
     Trim(input.credentialId), Trim(input.appName)]
  }

  /** The seven parts agree up to surrounding white space, the providers also up to the case of letters. */
  predicate SameParts(a: Input, b: Input) {
    && LowerCase(Trim(a.provider)) == LowerCase(Trim(b.provider)) && Trim(a.reference) == Trim(b.reference)
    && Trim(a.scope) == Trim(b.scope) && Trim(a.field) == Trim(b.field) && Trim(a.version) == Trim(b.version)
    && Trim(a.credentialId) == Trim(b.credentialId) && Trim(a.appName) == Trim(b.appName)
  }

  predicate NoLineFeeds(a: Input) {
    && '\n' !in Trim(a.provider) && '\n' !in Trim(a.reference) && '\n' !in Trim(a.scope) && '\n' !in Trim(a.field)
    && '\n' !in Trim(a.version) && '\n' !in Trim(a.credentialId) && '\n' !in Trim(a.appName)
  }

  lemma PartsAgree(a: Input, b: Input)
    ensures Parts(a) == Parts(b) <==> SameParts(a, b)
  {
    hide Trim, LowerCase;
    var p, q := Parts(a), Parts(b);
    if p == q {
      assert p[0] == q[0] && p[1] == q[1] && p[2] == q[2] && p[3] == q[3];
      assert p[4] == q[4] && p[5] == q[5] && p[6] == q[6];
    }
  }

  lemma PartsHaveNoLineFeeds(a: Input)
    requires NoLineFeeds(a)
    ensures forall part :: part in Parts(a) ==> '\n' !in part
  {
    var lower := LowerCase(Trim(a.provider));
    forall c | c in lower ensures c != '\n' {
      var i :| 0 <= i < |lower| && lower[i] == c;
      assert Trim(a.provider)[i] in Trim(a.provider);
    }
  }

  function CacheKey(input: Input): string { Join(Parts(input), '\n') }

  // ---------------------------------------------------------------------- the lines of a key

  function Concat(groups: seq<seq<string>>): seq<string> {
    if groups == [] then [] else groups[0] + Concat(groups[1..])
  }

  function SplitAll(parts: seq<string>): seq<seq<string>> {
    seq(|parts|, i requires 0 <= i < |parts| => Split(parts[i], '\n'))
  }

  function JoinAll(groups: seq<seq<string>>): seq<string> {
    seq(|groups|, i requires 0 <= i < |groups| => Join(groups[i], '\n'))
  }

  /** The lines of a text with one more character in front. */
  function Grow(c: char, lines: seq<string>): (r: seq<string>)
    requires lines != []
    ensures r != []
  {
    if c == '\n' then [""] + lines else [[c] + lines[0]] + lines[1..]
  }

  lemma SplitGrows(c: char, s: string)
    ensures Split(s, '\n') != [] && Split([c] + s, '\n') == Grow(c, Split(s, '\n'))
  {
    assert ([c] + s)[1..] == s;
    JoinSplit(s, '\n');
  }

  lemma GrowConcat(c: char, a: seq<string>, b: seq<string>)
    requires a != []
    ensures Grow(c, a + b) == Grow(c, a) + b
  {
  }

  lemma {:induction false} SplitAfter(part: string, rest: string)
    ensures Split(part + "\n" + rest, '\n') == Split(part, '\n') + Split(rest, '\n')
  {
    if part == [] {
      assert part + "\n" + rest == ['\n'] + rest;
      SplitGrows('\n', rest);
    } else {
      var tail := part[1..] + "\n" + rest;
      SplitAfter(part[1..], rest);
      SplitGrows(part[0], tail);
      SplitGrows(part[0], part[1..]);
      GrowConcat(part[0], Split(part[1..], '\n'), Split(rest, '\n'));
      hide Split, Grow;
      assert part + "\n" + rest == [part[0]] + tail;
      assert part == [part[0]] + part[1..];
    }
  }

  /** The lines of a key are the lines of its parts. */
  lemma {:induction false} LinesOfJoin(parts: seq<string>)
    requires parts != []
    ensures Split(Join(parts, '\n'), '\n') == Concat(SplitAll(parts))
  {
    assert SplitAll(parts)[1..] == SplitAll(parts[1..]);
    if |parts| == 1 {
      assert Concat(SplitAll(parts)) == Split(parts[0], '\n') + [];
    } else {
      LinesOfJoin(parts[1..]);
      SplitAfter(parts[0], Join(parts[1..], '\n'));
    }
  }

  lemma {:induction false} SizeOfConcat(groups: seq<seq<string>>)
    requires forall i :: 0 <= i < |groups| ==> groups[i] != []
    ensures |Concat(groups)| >= |groups|
    ensures |Concat(groups)| == |groups| ==> forall i :: 0 <= i < |groups| ==> groups[i] == [Concat(groups)[i]]
  {
    if groups != [] {
      assert forall i :: 0 <= i < |groups| - 1 ==> groups[1..][i] == groups[i + 1];
      SizeOfConcat(groups[1..]);
      if |Concat(groups)| == |groups| {
        assert groups[0] == [groups[0][0]];
        forall i | 0 < i < |groups| ensures groups[i] == [Concat(groups)[i]] { assert groups[i] == groups[1..][i - 1]; }
      }
    }
  }

  // ---------------------------------------------------------------------- inputs without line feeds

  lemma PartsAreSeven(input: Input)
    ensures |Parts(input)| == 7
  {
  }

  /** An input whose trimmed parts hold no line feed shares its key only with inputs of the same parts. */
  lemma KeysIdentifyParts(a: Input, b: Input)
    requires NoLineFeeds(a)
    ensures CacheKey(a) == CacheKey(b) <==> SameParts(a, b)
  {
    hide LowerCase, Trim, NoLineFeeds;
    PartsAgree(a, b);
    PartsHaveNoLineFeeds(a);
    hide SameParts, Parts;
    PartsAreSeven(a);
    PartsAreSeven(b);
    if CacheKey(a) == CacheKey(b) {
      var g := SplitAll(Parts(b));
      SplitJoin(Parts(a), '\n');
      LinesOfJoin(Parts(b));
      assert Concat(g) == Parts(a);
      forall i | 0 <= i < 7 ensures g[i] != [] { JoinSplit(Parts(b)[i], '\n'); }
      SizeOfConcat(g);
      forall i | 0 <= i < 7 ensures Parts(b)[i] == Parts(a)[i] { JoinSplit(Parts(b)[i], '\n'); }
    }
  }

  // ---------------------------------------------------------------------- inputs with line feeds

  predicate Trimmed(s: string) { s == "" || (!IsSpace(s[0]) && !IsSpace(s[|s| - 1])) }

  predicate IsLower(s: string) { forall c :: c in s ==> Lower(c) == c }

  /** Consecutive lines that may be one part: a trimmed line, or several that begin and end with text. */
  predicate IsPart(lines: seq<string>) {
    && lines != []
    && var last := lines[|lines| - 1];
       if |lines| == 1 then Trimmed(last)
       else lines[0] != "" && !IsSpace(lines[0][0]) && last != "" && !IsSpace(last[|last| - 1])
  }

  /** Another way to cut the lines of the key into seven parts, the first in lower case. */
  ghost predicate IsOtherCut(a: Input, groups: seq<seq<string>>) {
    && |groups| == 7 && Concat(groups) == Split(CacheKey(a), '\n') && groups != SplitAll(Parts(a))
    && (forall i :: 0 <= i < 7 ==> IsPart(groups[i]))
    && forall line :: line in groups[0] ==> IsLower(line)
  }

  lemma {:induction false} TrimStartTrims(s: string)
    ensures var r := TrimStart(s); r == "" || !IsSpace(r[0])
    ensures s == "" || !IsSpace(s[0]) ==> TrimStart(s) == s
  {
    if s != [] && IsSpace(s[0]) { TrimStartTrims(s[1..]); }
  }

  lemma {:induction false} TrimEndTrims(s: string)
    ensures var r := TrimEnd(s); r <= s && (r == "" || !IsSpace(r[|r| - 1]))
    ensures s == "" || !IsSpace(s[|s| - 1]) ==> TrimEnd(s) == s
    decreases |s|
  {
    if s != [] && IsSpace(s[|s| - 1]) { TrimEndTrims(s[..|s| - 1]); }
  }

  lemma TrimTrims(s: string)
    ensures Trimmed(Trim(s)) && (Trimmed(s) ==> Trim(s) == s)
  {
    TrimStartTrims(s);
    TrimEndTrims(TrimStart(s));
  }

  lemma LowerCaseLowers(s: string)
    ensures IsLower(LowerCase(s)) && (IsLower(s) ==> LowerCase(s) == s)
    ensures Trimmed(s) ==> Trimmed(LowerCase(s))
  {
    var r := LowerCase(s);
    forall c | c in r ensures Lower(c) == c {
      var i :| 0 <= i < |r| && r[i] == c;
      assert r[i] == Lower(s[i]);
    }
  }

  function FirstChar(lines: seq<string>): char
    requires lines != []
  {
    if lines[0] == "" then '\n' else lines[0][0]
  }

  function LastChar(lines: seq<string>): char
    requires lines != []
  {
    var last := lines[|lines| - 1];
    if last == "" then '\n' else last[|last| - 1]
  }

  lemma GrownEnds(c: char, lines: seq<string>)
    requires lines != []
    ensures FirstChar(Grow(c, lines)) == c
    ensures LastChar(Grow(c, lines)) == if lines == [""] then c else LastChar(lines)
  {
  }

  /** How a text begins and ends, read off its lines. */
  lemma {:induction false} EndsOfLines(s: string)
    requires s != ""
    ensures var lines := Split(s, '\n'); lines != [] && s[0] == FirstChar(lines) && s[|s| - 1] == LastChar(lines)
  {
    var t := s[1..];
    SplitGrows(s[0], t);
    JoinSplit(t, '\n');
    GrownEnds(s[0], Split(t, '\n'));
    if t == "" {
      assert Split(t, '\n') == [""];
    } else {
      EndsOfLines(t);
      assert Split(t, '\n') != [""];
    }
    hide Split, Join, Grow, FirstChar, LastChar;
    assert s == [s[0]] + t;
  }

  lemma TrimmedLines(s: string)
    ensures Trimmed(s) <==> IsPart(Split(s, '\n'))
  {
    JoinSplit(s, '\n');
    if s != "" {
      EndsOfLines(s);
      if |Split(s, '\n')| == 1 { assert Join(Split(s, '\n'), '\n') == Split(s, '\n')[0]; }
    }
  }

  lemma {:induction false} LowerLines(s: string)
    ensures IsLower(s) <==> forall line :: line in Split(s, '\n') ==> IsLower(line)
  {
    if s != "" {
      var c, rest := s[0], Split(s[1..], '\n');
      LowerLines(s[1..]);
      JoinSplit(s[1..], '\n');
      assert s == [c] + s[1..];
      assert IsLower(s) <==> Lower(c) == c && IsLower(s[1..]);
      if c == '\n' {
        assert forall line :: line in [""] + rest <==> line == "" || line in rest;
      } else {
        assert IsLower([c] + rest[0]) <==> Lower(c) == c && IsLower(rest[0]);
        assert rest == [rest[0]] + rest[1..];
        assert forall line :: line in [[c] + rest[0]] + rest[1..] <==> line == [c] + rest[0] || line in rest[1..];
        assert forall line :: line in rest <==> line == rest[0] || line in rest[1..];
      }
    }
  }

  /** The parts of any input are cuts of its key. */
  lemma PartsAreParts(b: Input)
    ensures forall i :: 0 <= i < 7 ==> IsPart(SplitAll(Parts(b))[i])
    ensures forall line :: line in SplitAll(Parts(b))[0] ==> IsLower(line)
    ensures Concat(SplitAll(Parts(b))) == Split(CacheKey(b), '\n')
  {
    TrimTrims(b.provider); TrimTrims(b.reference); TrimTrims(b.scope); TrimTrims(b.field);
    TrimTrims(b.version); TrimTrims(b.credentialId); TrimTrims(b.appName);
    LowerCaseLowers(Trim(b.provider));
    forall i | 0 <= i < 7 ensures IsPart(SplitAll(Parts(b))[i]) { TrimmedLines(Parts(b)[i]); }
    LowerLines(Parts(b)[0]);
    LinesOfJoin(Parts(b));
  }

  lemma PartsDetermineCut(a: Input, b: Input)
    requires SplitAll(Parts(a)) == SplitAll(Parts(b))
    ensures Parts(a) == Parts(b)
  {
    forall i | 0 <= i < 7 ensures Parts(a)[i] == Parts(b)[i] {
      JoinSplit(Parts(a)[i], '\n');
      JoinSplit(Parts(b)[i], '\n');
      assert SplitAll(Parts(a))[i] == SplitAll(Parts(b))[i];
    }
  }

  /** The input whose parts are the groups of a cut. */
  function InputOf(groups: seq<seq<string>>): Input
    requires |groups| == 7
  {
    var p := JoinAll(groups);
    Input(p[0], p[1], p[2], p[3], p[4], p[5], p[6])
  }

  lemma {:induction false} InConcat(groups: seq<seq<string>>, i: nat, line: string)
    requires i < |groups| && line in groups[i]
    ensures line in Concat(groups)
  {
    if i > 0 { InConcat(groups[1..], i - 1, line); }
  }

  /** A group of a cut, joined, is a trimmed part with these lines. */
  lemma GroupIsPart(a: Input, groups: seq<seq<string>>, i: nat)
    requires IsOtherCut(a, groups) && i < 7
    ensures var part := Join(groups[i], '\n'); Split(part, '\n') == groups[i] && Trim(part) == part
  {
    JoinSplit(CacheKey(a), '\n');
    forall line | line in groups[i] ensures '\n' !in line { InConcat(groups, i, line); }
    hide Trim, Split, Join, CacheKey, Parts;
    SplitJoin(groups[i], '\n');
    TrimmedLines(Join(groups[i], '\n'));
    TrimTrims(Join(groups[i], '\n'));
  }

  lemma PartsOfTrimmed(p: seq<string>)
    requires |p| == 7 && (forall i :: 0 <= i < 7 ==> Trim(p[i]) == p[i]) && LowerCase(p[0]) == p[0]
    ensures Parts(Input(p[0], p[1], p[2], p[3], p[4], p[5], p[6])) == p
  {
    hide Trim, LowerCase;
  }

  lemma PartsOfCut(a: Input, groups: seq<seq<string>>)
    requires IsOtherCut(a, groups)
    ensures Parts(InputOf(groups)) == JoinAll(groups) && SplitAll(JoinAll(groups)) == groups
  {
    var p := JoinAll(groups);
    hide CacheKey, Parts, Split, Join, Trim, LowerCase, IsPart, Concat;
    forall i | 0 <= i < 7 ensures Split(p[i], '\n') == groups[i] && Trim(p[i]) == p[i] { GroupIsPart(a, groups, i); }
    LowerLines(p[0]);
    hide IsLower;
    LowerCaseLowers(p[0]);
    PartsOfTrimmed(p);
  }

  lemma CutMakesInput(a: Input, groups: seq<seq<string>>)
    requires IsOtherCut(a, groups)
    ensures CacheKey(InputOf(groups)) == CacheKey(a) && Parts(InputOf(groups)) != Parts(a)
  {
    PartsOfCut(a, groups);
    LinesOfJoin(JoinAll(groups));
    JoinSplit(CacheKey(a), '\n');
    JoinSplit(CacheKey(InputOf(groups)), '\n');
    hide Parts, Split, Join, Concat, JoinAll, SplitAll, IsPart, IsLower, InputOf;
  }

  /** An input shares its key with an input of other parts if and only if the lines of its key can be cut
      into seven parts in another way. */
  lemma SharedKeysAreOtherCuts(a: Input)
    ensures (exists b :: CacheKey(b) == CacheKey(a) && !SameParts(a, b)) <==> exists groups :: IsOtherCut(a, groups)
  {
    hide CacheKey, Parts, SameParts;
    if b :| CacheKey(b) == CacheKey(a) && !SameParts(a, b) {
      PartsAgree(a, b);
      PartsAreParts(b);
      PartsAreSeven(b);
      if SplitAll(Parts(a)) == SplitAll(Parts(b)) { PartsDetermineCut(a, b); }
      assert IsOtherCut(a, SplitAll(Parts(b)));
    }
    if groups :| IsOtherCut(a, groups) {
      CutMakesInput(a, groups);
      PartsAgree(a, InputOf(groups));
    }
  }

  /** For example, a line feed may belong to the reference or to the scope. */
  lemma LineFeedsCollide(x: string, y: string, z: string)
    requires Trim(x) == x && Trim(x + "\n" + y) == x + "\n" + y && Trim(y + "\n" + z) == y + "\n" + z && Trim(z) == z
    ensures var a := Input("aws", x + "\n" + y, z, "", "", "", "");
      var b := Input("aws", x, y + "\n" + z, "", "", "", "");
      CacheKey(a) == CacheKey(b) && !SameParts(a, b)
  {
    var p, e := LowerCase(Trim("aws")), Trim("");
    var tail := [e, e, e, e];
    assert Parts(Input("aws", x + "\n" + y, z, "", "", "", "")) == [p] + ([x + "\n" + y] + ([z] + tail));
    assert Parts(Input("aws", x, y + "\n" + z, "", "", "", "")) == [p] + ([x] + ([y + "\n" + z] + tail));
    MovedLineFeed(p, x, y, z, tail);
    assert |x + "\n" + y| > |x|;
    assert ([p] + ([x + "\n" + y] + ([z] + tail)))[1] != ([p] + ([x] + ([y + "\n" + z] + tail)))[1];
  }

  lemma MovedLineFeed(p: string, x: string, y: string, z: string, tail: seq<string>)
    requires tail != []
    ensures Join([p] + ([x + "\n" + y] + ([z] + tail)), '\n') == Join([p] + ([x] + ([y + "\n" + z] + tail)), '\n')
  {
    hide Join;
    var rest := Join(tail, '\n');
    JoinHead(p, [x + "\n" + y] + ([z] + tail));
    JoinHead(x + "\n" + y, [z] + tail);
    JoinHead(z, tail);
    JoinHead(p, [x] + ([y + "\n" + z] + tail));
    JoinHead(x, [y + "\n" + z] + tail);
    JoinHead(y + "\n" + z, tail);
    assert x + "\n" + y + "\n" + (z + "\n" + rest) == x + "\n" + (y + "\n" + z + "\n" + rest);
  }

  lemma JoinHead(part: string, tail: seq<string>)
    requires tail != []
    ensures Join([part] + tail, '\n') == part + "\n" + Join(tail, '\n')
  {
    assert ([part] + tail)[1..] == tail;
  }
}
