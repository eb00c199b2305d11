/** The few string operations the models share. */
module Text {
  predicate IsSpace(c: char) {
    c == ' ' || c == '\t' || c == '\n' || c == '\r' || c == '\U{000B}' || c == '\U{000C}'
  }

  /** Tab, line feed, vertical tab, form feed, carriage return and space. */
  lemma SpacesByCode(c: char)
    ensures IsSpace(c) <==> 9 <= c as int <= 13 || c as int == 32
  {
  }

  function TrimStart(s: string): string {
    if s != [] && IsSpace(s[0]) then TrimStart(s[1..]) else s
  }

  function TrimEnd(s: string): string {
    if s != [] && IsSpace(s[|s| - 1]) then TrimEnd(s[..|s| - 1]) else s
  }

  function Trim(s: string): string { TrimEnd(TrimStart(s)) }

  /** The characters of s from i on and before j are t; only white space lies outside, and none at either end. */
  ghost predicate IsCore(s: string, t: string, i: nat, j: nat) {
    && i <= j <= |s| && t == s[i..j]
    && (forall k :: 0 <= k < i || j <= k < |s| ==> IsSpace(s[k]))
    && (t != "" ==> !IsSpace(t[0]) && !IsSpace(t[|t| - 1]))
  }

  lemma {:induction false} TrimStartDrops(s: string) returns (i: nat)
    ensures i <= |s| && TrimStart(s) == s[i..]
    ensures forall k :: 0 <= k < i ==> IsSpace(s[k])
    ensures i < |s| ==> !IsSpace(s[i])
  {
    i := 0;
    if s != [] && IsSpace(s[0]) {
      var j := TrimStartDrops(s[1..]);
      i := j + 1;
      forall k | 0 <= k < i ensures IsSpace(s[k]) {
        if k > 0 { assert s[k] == s[1..][k - 1]; }
      }
    }
  }

  lemma {:induction false} TrimEndDrops(s: string) returns (j: nat)
    ensures j <= |s| && TrimEnd(s) == s[..j]
    ensures forall k :: j <= k < |s| ==> IsSpace(s[k])
    ensures j > 0 ==> !IsSpace(s[j - 1])
  {
    j := |s|;
    if s != [] && IsSpace(s[|s| - 1]) {
      j := TrimEndDrops(s[..|s| - 1]);
    }
  }

  /** Trimming drops the leading and the trailing white space and nothing else. */
  lemma TrimIsCore(s: string)
    ensures exists i: nat, j: nat :: IsCore(s, Trim(s), i, j)
    ensures Trim(s) == "" <==> forall c :: c in s ==> IsSpace(c)
  {
    var i := TrimStartDrops(s);
    var j := TrimEndDrops(s[i..]);
    assert s[i..][..j] == s[i..i + j];
    forall k | i + j <= k < |s| ensures IsSpace(s[k]) { assert s[k] == s[i..][k - i]; }
    assert IsCore(s, Trim(s), i, i + j);
    if Trim(s) != "" { assert Trim(s)[0] in s; }
  }

  /** There is only one such core. */
  lemma CoreIsUnique(s: string, t: string, i: nat, j: nat)
    requires IsCore(s, t, i, j)
    ensures t == Trim(s)
  {
    hide Trim, IsSpace;
    TrimIsCore(s);
    var a: nat, b: nat :| IsCore(s, Trim(s), a, b);
    if t != "" { CoresAgree(s, t, i, j, Trim(s), a, b); }
    if Trim(s) != "" { CoresAgree(s, Trim(s), a, b, t, i, j); }
  }

  lemma CoresAgree(s: string, t: string, i: nat, j: nat, u: string, a: nat, b: nat)
    requires IsCore(s, t, i, j) && IsCore(s, u, a, b) && t != ""
    ensures t == u
  {
    hide IsSpace;
    assert s[i] == t[0] && s[j - 1] == t[|t| - 1];
    assert a <= i && j <= b;
    assert s[a] == u[0] && s[b - 1] == u[|u| - 1];
  }

  /** Lower case of ASCII letters. */
  function Lower(c: char): char { if 'A' <= c <= 'Z' then (c as int + 32) as char else c }

  /** The same letter in either case, or the same character. */
  predicate SameLetter(c: char, d: char) {
    c == d || ('a' <= c <= 'z' && d as int == c as int - 32) || ('a' <= d <= 'z' && c as int == d as int - 32)
  }

  function LowerCase(s: string): string { seq(|s|, i requires 0 <= i < |s| => Lower(s[i])) }

  /** Texts agree in lower case exactly if they agree letter by letter, whatever the case. */
  lemma LowerCaseIgnoresCase(s: string, t: string)
    ensures LowerCase(s) == LowerCase(t) <==> |s| == |t| && forall i :: 0 <= i < |s| ==> SameLetter(s[i], t[i])
  {
    if LowerCase(s) == LowerCase(t) {
      forall i | 0 <= i < |s| ensures SameLetter(s[i], t[i]) { assert LowerCase(s)[i] == LowerCase(t)[i]; }
    } else if |s| == |t| {
      var i :| 0 <= i < |s| && LowerCase(s)[i] != LowerCase(t)[i];
      assert !SameLetter(s[i], t[i]);
    }
  }

  predicate EndsWith(s: string, suffix: string) { |suffix| <= |s| && s[|s| - |suffix|..] == suffix }

  /** The pieces between the occurrences of a separator; the empty string has one empty piece. */
  function Split(s: string, separator: char): seq<string> {
    if s == [] then [""]
    else if s[0] == separator then [""] + Split(s[1..], separator)
    else
      var rest := Split(s[1..], separator);
      if rest == [] then [[s[0]]] else [[s[0]] + rest[0]] + rest[1..]
  }

  function Join(parts: seq<string>, separator: char): string {
    if parts == [] then ""
    else if |parts| == 1 then parts[0]
    else parts[0] + [separator] + Join(parts[1..], separator)
  }

  lemma {:induction false} SplitHead(part: string, rest: string, separator: char)
    requires separator !in part
    ensures Split(part + [separator] + rest, separator) == [part] + Split(rest, separator)
  {
    var s := part + [separator] + rest;
    if part == [] {
      assert s[1..] == rest;
    } else {
      assert s[1..] == part[1..] + [separator] + rest;
      SplitHead(part[1..], rest, separator);
      assert [part[0]] + part[1..] == part;
    }
  }

  lemma {:induction false} SplitWhole(part: string, separator: char)
    requires separator !in part
    ensures Split(part, separator) == [part]
  {
    if part != [] {
      SplitWhole(part[1..], separator);
      assert [part[0]] + part[1..] == part;
    }
  }

  /** Splitting undoes joining when no part contains the separator. */
  lemma {:induction false} SplitJoin(parts: seq<string>, separator: char)
    requires parts != [] && forall part :: part in parts ==> separator !in part
    ensures Split(Join(parts, separator), separator) == parts
  {
    if |parts| == 1 {
      SplitWhole(parts[0], separator);
      assert parts == [parts[0]];
    } else {
      SplitHead(parts[0], Join(parts[1..], separator), separator);
      SplitJoin(parts[1..], separator);
      assert parts == [parts[0]] + parts[1..];
    }
  }

  /** One more character at the front of the first part. */
  lemma JoinGrows(c: char, rest: seq<string>, separator: char)
    requires rest != []
    ensures Join([[c] + rest[0]] + rest[1..], separator) == [c] + Join(rest, separator)
  {
    var parts := [[c] + rest[0]] + rest[1..];
    assert parts[1..] == rest[1..];
  }

  /** Joining undoes splitting, and no part contains the separator. */
  lemma {:induction false} JoinSplit(s: string, separator: char)
    ensures var parts := Split(s, separator);
      parts != [] && Join(parts, separator) == s && forall part :: part in parts ==> separator !in part
  {
    if s != [] {
      JoinSplit(s[1..], separator);
      var rest := Split(s[1..], separator);
      assert s == [s[0]] + s[1..];
      if s[0] == separator {
        assert ([""] + rest)[1..] == rest;
      } else {
        JoinGrows(s[0], rest, separator);
        assert rest[0] in rest && forall part :: part in rest[1..] ==> part in rest;
        hide Join;
      }
    }
  }
}
