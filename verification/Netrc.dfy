/** Reading credentials for a host from a netrc file. */
module Netrc {
  import opened Options
  import opened Text

  datatype Credentials = Credentials(login: string, password: string)

  // ---------------------------------------------------------------------- the scan over tokens

  datatype Found = Found(login: Option<string>, password: Option<string>, rest: seq<string>)

  predicate IsMachine(token: string) { token == "machine" }
  predicate IsDefault(token: string) { token == "default" }
  predicate IsLogin(token: string) { token == "login" }
  predicate IsPassword(token: string) { token == "password" }

  predicate StartsEntry(token: string) { IsMachine(token) || IsDefault(token) }

  function Get(tokens: seq<string>, i: nat): Option<string> { if i < |tokens| then Some(tokens[i]) else None }

  function Drop(tokens: seq<string>, n: nat): seq<string> { if n <= |tokens| then tokens[n..] else [] }

  /** The attributes up to the next entry; a value is skipped whatever it is. */
  function Attributes(tokens: seq<string>, login: Option<string>, password: Option<string>): (r: Found)
    ensures |r.rest| <= |tokens|
    decreases |tokens|
  {
    if tokens == [] || StartsEntry(tokens[0]) then Found(login, password, tokens)
    else if IsLogin(tokens[0]) then Attributes(Drop(tokens, 2), Get(tokens, 1), password)
    else if IsPassword(tokens[0]) then Attributes(Drop(tokens, 2), login, Get(tokens, 1))
    else Attributes(tokens[1..], login, password)
  }

  function Pair(login: Option<string>, password: Option<string>): Option<Credentials> {
    if login.Some? && password.Some? then Some(Credentials(login.value, password.value)) else None
  }

  predicate Matches(tokens: seq<string>, host: string) {
    tokens != [] && IsMachine(tokens[0]) && Get(tokens, 1) == Some(host)
  }

  function Scan(tokens: seq<string>, host: string, fallback: Option<Credentials>): Option<Credentials>
    decreases |tokens|
  {
    if tokens == [] then fallback
    else
      var isDefault := IsDefault(tokens[0]);
      var found := Attributes(Drop(tokens, if isDefault then 1 else 2), None, None);
      var pair := Pair(found.login, found.password);
      if pair.Some? && Matches(tokens, host) then pair
      else Scan(found.rest, host, if pair.Some? && isDefault then pair else fallback)
  }

  /** Reading on at index with this login and password completes the entry whose attributes start at first. */
  ghost predicate Completes(tokens: seq<string>, first: nat, index: nat, login: Option<string>,
                            password: Option<string>) {
    Attributes(Drop(tokens, index), login, password) == Attributes(Drop(tokens, first), None, None)
  }

  lemma AttributeStep(tokens: seq<string>, first: nat, index: nat, login: Option<string>, password: Option<string>)
    requires index < |tokens| && !IsMachine(tokens[index]) && !IsDefault(tokens[index])
    requires Completes(tokens, first, index, login, password)
    ensures
      if IsLogin(tokens[index]) then Completes(tokens, first, index + 2, Get(tokens, index + 1), password)
      else if IsPassword(tokens[index]) then Completes(tokens, first, index + 2, login, Get(tokens, index + 1))
      else Completes(tokens, first, index + 1, login, password)
  {
    assert Drop(Drop(tokens, index), 2) == Drop(tokens, index + 2);
    assert Drop(tokens, index)[1..] == Drop(tokens, index + 1);
  }

  lemma Begins(tokens: seq<string>, first: nat)
    ensures Completes(tokens, first, first, None, None)
  {
  }

  lemma Ends(tokens: seq<string>, host: string)
    ensures Continues(tokens, host, 0, None)
    ensures forall index, fallback :: index >= |tokens| && Continues(tokens, host, index, fallback) ==>
      fallback == Scan(tokens, host, None)
  {
    assert Drop(tokens, 0) == tokens;
  }

  /** Scanning on at index with this fallback gives the result of the whole scan. */
  ghost predicate Continues(tokens: seq<string>, host: string, index: nat, fallback: Option<Credentials>) {
    Scan(Drop(tokens, index), host, fallback) == Scan(tokens, host, None)
  }

  lemma ScanUnfolds(tokens: seq<string>, host: string, fallback: Option<Credentials>, found: Found)
    requires tokens != [] && Attributes(Drop(tokens, if IsDefault(tokens[0]) then 1 else 2), None, None) == found
    ensures var pair := Pair(found.login, found.password);
      Scan(tokens, host, fallback)
      == if pair.Some? && IsMachine(tokens[0]) && Get(tokens, 1) == Some(host) then pair
         else Scan(found.rest, host, if pair.Some? && IsDefault(tokens[0]) then pair else fallback)
  {
  }

  lemma EntryEnds(tokens: seq<string>, index: nat, login: Option<string>, password: Option<string>)
    requires index < |tokens| ==> IsMachine(tokens[index]) || IsDefault(tokens[index])
    ensures Attributes(Drop(tokens, index), login, password) == Found(login, password, Drop(tokens, index))
  {
  }

  lemma DropTwice(tokens: seq<string>, start: nat)
    requires start < |tokens|
    ensures var entry := Drop(tokens, start);
      && entry != [] && entry[0] == tokens[start] && Get(entry, 1) == Get(tokens, start + 1)
      && Drop(entry, 1) == Drop(tokens, start + 1) && Drop(entry, 2) == Drop(tokens, start + 2)
  {
  }

  /** One entry, from its first token to the first token of the next. */
  lemma ScanStep(tokens: seq<string>, start: nat, index: nat, host: string, fallback: Option<Credentials>,
                 login: Option<string>, password: Option<string>)
    requires start < |tokens| && (index < |tokens| ==> IsMachine(tokens[index]) || IsDefault(tokens[index]))
    requires Completes(tokens, start + if IsDefault(tokens[start]) then 1 else 2, index, login, password)
    requires Continues(tokens, host, start, fallback)
    ensures var pair := Pair(login, password);
      if pair.Some? && IsMachine(tokens[start]) && Get(tokens, start + 1) == Some(host)
      then pair == Scan(tokens, host, None)
      else Continues(tokens, host, index, if pair.Some? && IsDefault(tokens[start]) then pair else fallback)
  {
    hide Scan, Attributes, Drop, Get, Pair, IsMachine, IsDefault;
    DropTwice(tokens, start);
    EntryEnds(tokens, index, login, password);
    ScanUnfolds(Drop(tokens, start), host, fallback, Found(login, password, Drop(tokens, index)));
  }

  lemma KeywordsDiffer(token: string)
    ensures !(IsMachine(token) && IsDefault(token))
  {
  }

  /** The index loops end on every token list and compute the scan. */
  method ScanTokens(tokens: seq<string>, hostname: string) returns (r: Option<Credentials>)
    ensures r == Scan(tokens, hostname, None)
  {
    var index := 0;
    var fallback: Option<Credentials> := None;
    Ends(tokens, hostname);
    hide *;
    while index < |tokens|
      invariant 0 <= index
      invariant Continues(tokens, hostname, index, fallback)
    {
      ghost var start := index;
      KeywordsDiffer(tokens[index]);
      var matches := (IsMachine(tokens[index]) && Get(tokens, index + 1) == Some(hostname)) || IsDefault(tokens[index]);
      var isDefault := IsDefault(tokens[index]);
      index := index + if isDefault then 1 else 2;
      ghost var first := index;
      var login, password: Option<string> := None, None;
      Begins(tokens, first);
      while index < |tokens| && !IsMachine(tokens[index]) && !IsDefault(tokens[index])
        invariant index > start
        invariant Completes(tokens, first, index, login, password)
      {
        AttributeStep(tokens, first, index, login, password);
        if IsLogin(tokens[index]) {
          login := Get(tokens, index + 1);
          index := index + 2;
        } else if IsPassword(tokens[index]) {
          password := Get(tokens, index + 1);
          index := index + 2;
        } else {
          index := index + 1;
        }
      }
      ScanStep(tokens, start, index, hostname, fallback, login, password);
      var pair := Pair(login, password);
      if pair.Some? {
        if matches && !isDefault {
          return pair;
        }
        if isDefault {
          fallback := pair;
        }
      }
    }
    return fallback;
  }

  // ---------------------------------------------------------------------- what a file means

  /** Other stands for a word that is not one of the four keywords. */
  datatype Attribute = Login(value: string) | Password(value: string) | Other(word: string)

  datatype Entry = Machine(host: string, attributes: seq<Attribute>) | Default(attributes: seq<Attribute>)

  predicate IsOther(word: string) { !StartsEntry(word) && !IsLogin(word) && !IsPassword(word) }

  ghost predicate Proper(attributes: seq<Attribute>) {
    forall a :: a in attributes && a.Other? ==> IsOther(a.word)
  }

  ghost predicate ProperEntries(entries: seq<Entry>) {
    forall e :: e in entries ==> Proper(e.attributes)
  }

  function RenderAttribute(a: Attribute): seq<string> {
    match a
    case Login(value) => ["login", value]
    case Password(value) => ["password", value]
    case Other(word) => [word]
  }

  function RenderAttributes(attributes: seq<Attribute>): seq<string> {
    if attributes == [] then [] else RenderAttribute(attributes[0]) + RenderAttributes(attributes[1..])
  }

  function Render(entries: seq<Entry>): seq<string> {
    if entries == [] then []
    else
      (if entries[0].Machine? then ["machine", entries[0].host] else ["default"])
      + RenderAttributes(entries[0].attributes) + Render(entries[1..])
  }

  /** The last login and the last password of an entry count. */
  function LastLogin(attributes: seq<Attribute>): Option<string> {
    if attributes == [] then None
    else if attributes[|attributes| - 1].Login? then Some(attributes[|attributes| - 1].value)
    else LastLogin(attributes[..|attributes| - 1])
  }

  function LastPassword(attributes: seq<Attribute>): Option<string> {
    if attributes == [] then None
    else if attributes[|attributes| - 1].Password? then Some(attributes[|attributes| - 1].value)
    else LastPassword(attributes[..|attributes| - 1])
  }

  function Offers(e: Entry): Option<Credentials> { Pair(LastLogin(e.attributes), LastPassword(e.attributes)) }

  ghost predicate IsLastLogin(attributes: seq<Attribute>, i: nat) {
    i < |attributes| && attributes[i].Login? && forall j :: i < j < |attributes| ==> !attributes[j].Login?
  }

  ghost predicate IsLastPassword(attributes: seq<Attribute>, i: nat) {
    i < |attributes| && attributes[i].Password? && forall j :: i < j < |attributes| ==> !attributes[j].Password?
  }

  ghost predicate IsComplete(e: Entry) {
    && (exists i :: 0 <= i < |e.attributes| && e.attributes[i].Login?)
    && exists i :: 0 <= i < |e.attributes| && e.attributes[i].Password?
  }

  /** The credentials are the values of the last login and of the last password of the entry. */
  ghost predicate ComesFrom(r: Option<Credentials>, e: Entry) {
    && r.Some?
    && (exists i: nat :: IsLastLogin(e.attributes, i) && r.value.login == e.attributes[i].value)
    && exists i: nat :: IsLastPassword(e.attributes, i) && r.value.password == e.attributes[i].value
  }

  ghost predicate Answers(e: Entry, host: string) { e.Machine? && e.host == host && IsComplete(e) }

  ghost predicate FallsBack(e: Entry) { e.Default? && IsComplete(e) }

  /** Entry i is the first complete machine entry for the host. */
  ghost predicate IsFirstAnswer(entries: seq<Entry>, host: string, i: nat) {
    i < |entries| && Answers(entries[i], host) && forall j :: 0 <= j < i ==> !Answers(entries[j], host)
  }

  /** Entry i is the last complete default entry. */
  ghost predicate IsLastDefault(entries: seq<Entry>, i: nat) {
    i < |entries| && FallsBack(entries[i]) && forall j :: i < j < |entries| ==> !FallsBack(entries[j])
  }

  lemma {:induction false} LastLoginIsLast(attributes: seq<Attribute>)
    ensures LastLogin(attributes).Some? <==> exists i :: 0 <= i < |attributes| && attributes[i].Login?
    ensures LastLogin(attributes).Some? ==>
      exists i: nat :: IsLastLogin(attributes, i) && LastLogin(attributes) == Some(attributes[i].value)
    decreases |attributes|
  {
    if attributes != [] {
      var n := |attributes| - 1;
      if attributes[n].Login? {
        assert IsLastLogin(attributes, n);
      } else {
        LastLoginIsLast(attributes[..n]);
        if LastLogin(attributes).Some? {
          var i: nat :| IsLastLogin(attributes[..n], i) && LastLogin(attributes) == Some(attributes[..n][i].value);
          assert forall j :: i < j < n ==> attributes[..n][j] == attributes[j];
          assert IsLastLogin(attributes, i);
        }
      }
    }
  }

  lemma {:induction false} LastPasswordIsLast(attributes: seq<Attribute>)
    ensures LastPassword(attributes).Some? <==> exists i :: 0 <= i < |attributes| && attributes[i].Password?
    ensures LastPassword(attributes).Some? ==>
      exists i: nat :: IsLastPassword(attributes, i) && LastPassword(attributes) == Some(attributes[i].value)
    decreases |attributes|
  {
    if attributes != [] {
      var n := |attributes| - 1;
      if attributes[n].Password? {
        assert IsLastPassword(attributes, n);
      } else {
        LastPasswordIsLast(attributes[..n]);
        if LastPassword(attributes).Some? {
          var i: nat :| && IsLastPassword(attributes[..n], i)
                        && LastPassword(attributes) == Some(attributes[..n][i].value);
          assert forall j :: i < j < n ==> attributes[..n][j] == attributes[j];
          assert IsLastPassword(attributes, i);
        }
      }
    }
  }

  lemma OffersComeFrom(e: Entry)
    ensures Offers(e).Some? <==> IsComplete(e)
    ensures Offers(e).Some? ==> ComesFrom(Offers(e), e)
  {
    hide LastLogin, LastPassword, IsLastLogin, IsLastPassword;
    LastLoginIsLast(e.attributes);
    LastPasswordIsLast(e.attributes);
  }

  lemma {:induction false} LastFromFront(attributes: seq<Attribute>)
    requires attributes != []
    ensures LastLogin(attributes)
      == OrElse(LastLogin(attributes[1..]), if attributes[0].Login? then Some(attributes[0].value) else None)
    ensures LastPassword(attributes)
      == OrElse(LastPassword(attributes[1..]), if attributes[0].Password? then Some(attributes[0].value) else None)
    decreases |attributes|
  {
    var n := |attributes|;
    if n > 1 {
      assert attributes[1..][..n - 2] == attributes[..n - 1][1..];
      LastFromFront(attributes[..n - 1]);
    } else {
      assert attributes[1..] == [] && attributes[..n - 1] == [];
    }
  }

  lemma OneAttribute(a: Attribute, rest: seq<string>, login: Option<string>, password: Option<string>)
    requires a.Other? ==> IsOther(a.word)
    ensures Attributes(RenderAttribute(a) + rest, login, password)
         == Attributes(rest, if a.Login? then Some(a.value) else login, if a.Password? then Some(a.value) else password)
  {
    var tokens := RenderAttribute(a) + rest;
    assert tokens[|RenderAttribute(a)|..] == rest;
  }

  lemma Regroup(a: seq<string>, b: seq<string>, c: seq<string>)
    ensures (a + b) + c == a + (b + c)
  {
  }

  lemma {:induction false} AttributesBefore(attributes: seq<Attribute>, rest: seq<string>, login: Option<string>,
                                            password: Option<string>)
    requires Proper(attributes)
    ensures Attributes(RenderAttributes(attributes) + rest, login, password)
         == Attributes(rest, OrElse(LastLogin(attributes), login), OrElse(LastPassword(attributes), password))
    decreases |attributes|
  {
    if attributes == [] {
      assert RenderAttributes(attributes) + rest == rest;
    } else {
      hide Attributes, LastLogin, LastPassword, RenderAttribute;
      var a, tail := attributes[0], RenderAttributes(attributes[1..]) + rest;
      LastFromFront(attributes);
      OneAttribute(a, tail, login, password);
      AttributesBefore(attributes[1..], rest, if a.Login? then Some(a.value) else login,
          if a.Password? then Some(a.value) else password);
      Regroup(RenderAttribute(a), RenderAttributes(attributes[1..]), rest);
    }
  }

  lemma AttributesOfRendered(attributes: seq<Attribute>, rest: seq<string>)
    requires Proper(attributes) && (rest != [] ==> StartsEntry(rest[0]))
    ensures Attributes(RenderAttributes(attributes) + rest, None, None)
         == Found(LastLogin(attributes), LastPassword(attributes), rest)
  {
    AttributesBefore(attributes, rest, None, None);
  }

  lemma {:induction false} RenderedStartsEntry(entries: seq<Entry>)
    ensures Render(entries) != [] ==> StartsEntry(Render(entries)[0])
  {
  }

  /** One entry of the scan. */
  lemma ScanEntry(entries: seq<Entry>, host: string, fallback: Option<Credentials>)
    requires ProperEntries(entries) && entries != []
    ensures var e := entries[0];
      Scan(Render(entries), host, fallback)
      == if Answers(e, host) then Offers(e)
         else Scan(Render(entries[1..]), host, if FallsBack(e) then Offers(e) else fallback)
  {
    var e, rest := entries[0], Render(entries[1..]);
    var head := if e.Machine? then ["machine", e.host] else ["default"];
    RenderedStartsEntry(entries[1..]);
    AttributesOfRendered(e.attributes, rest);
    Regroup(head, RenderAttributes(e.attributes), rest);
    ScanHead(e, RenderAttributes(e.attributes) + rest, host, fallback);
    OffersComeFrom(e);
    hide IsComplete, Scan, Attributes, Render, RenderAttributes, Proper;
  }

  lemma ScanHead(e: Entry, tail: seq<string>, host: string, fallback: Option<Credentials>)
    ensures var found := Attributes(tail, None, None); var pair := Pair(found.login, found.password);
      Scan((if e.Machine? then ["machine", e.host] else ["default"]) + tail, host, fallback)
      == if pair.Some? && e.Machine? && e.host == host then pair
         else Scan(found.rest, host, if pair.Some? && e.Default? then pair else fallback)
  {
    var head := if e.Machine? then ["machine", e.host] else ["default"];
    assert Drop(head + tail, |head|) == tail;
  }

  /** On the tokens of any list of entries, whose hosts and values may be keywords, the scan returns the last
      login and the last password of the first complete machine entry for the host. */
  lemma {:induction false} MachineEntryIsFound(entries: seq<Entry>, host: string, fallback: Option<Credentials>, i: nat)
    requires ProperEntries(entries) && IsFirstAnswer(entries, host, i)
    ensures ComesFrom(Scan(Render(entries), host, fallback), entries[i])
    decreases i
  {
    hide Scan, Render, Offers, IsComplete, ComesFrom;
    OffersComeFrom(entries[0]);
    ScanEntry(entries, host, fallback);
    if i > 0 {
      assert IsFirstAnswer(entries[1..], host, i - 1) by {
        assert forall j :: 0 <= j < i - 1 ==> entries[1..][j] == entries[j + 1];
      }
      MachineEntryIsFound(entries[1..], host, if FallsBack(entries[0]) then Offers(entries[0]) else fallback, i - 1);
    }
  }

  /** Without such an entry, it returns the last complete default entry. */
  lemma {:induction false} DefaultEntryIsFound(entries: seq<Entry>, host: string, fallback: Option<Credentials>, i: nat)
    requires ProperEntries(entries) && IsLastDefault(entries, i)
    requires forall j :: 0 <= j < |entries| ==> !Answers(entries[j], host)
    ensures ComesFrom(Scan(Render(entries), host, fallback), entries[i])
    decreases i
  {
    hide Scan, Render, Offers, IsComplete, ComesFrom;
    OffersComeFrom(entries[0]);
    var rest := entries[1..];
    assert forall j :: 0 <= j < |rest| ==> rest[j] == entries[j + 1];
    ScanEntry(entries, host, fallback);
    var fallback' := if FallsBack(entries[0]) then Offers(entries[0]) else fallback;
    if i > 0 {
      DefaultEntryIsFound(rest, host, fallback', i - 1);
    } else {
      NothingIsFound(rest, host, fallback');
    }
  }

  /** Without either, it returns what it started with, which is nothing. */
  lemma {:induction false} NothingIsFound(entries: seq<Entry>, host: string, fallback: Option<Credentials>)
    requires ProperEntries(entries)
    requires forall j :: 0 <= j < |entries| ==> !Answers(entries[j], host) && !FallsBack(entries[j])
    ensures Scan(Render(entries), host, fallback) == fallback
    decreases |entries|
  {
    if entries != [] {
      ScanEntry(entries, host, fallback);
      NothingIsFound(entries[1..], host, fallback);
    }
  }

  /** A login or password keyword that ends the file without a value takes back the one its entry had: the entry
      then answers nobody. */
  lemma DanglingKeywordUnsets(e: Entry, keyword: string, host: string, fallback: Option<Credentials>)
    requires Proper(e.attributes) && (keyword == "login" || keyword == "password")
    ensures var head := if e.Machine? then ["machine", e.host] else ["default"];
      Scan(head + (RenderAttributes(e.attributes) + [keyword]), host, fallback) == fallback
  {
    AttributesBefore(e.attributes, [keyword], None, None);
    LastAttributeMissing(keyword, LastLogin(e.attributes), LastPassword(e.attributes));
    ScanHead(e, RenderAttributes(e.attributes) + [keyword], host, fallback);
    hide Attributes, RenderAttributes, LastLogin, LastPassword;
  }

  lemma LastAttributeMissing(keyword: string, login: Option<string>, password: Option<string>)
    requires keyword == "login" || keyword == "password"
    ensures Attributes([keyword], login, password)
         == if keyword == "login" then Found(None, password, []) else Found(login, None, [])
  {
    assert IsLogin(keyword) <==> keyword == "login";
    assert Get([keyword], 1) == None && Drop([keyword], 2) == [];
  }

  // ---------------------------------------------------------------------- from text to tokens

  function BeforeHash(line: string): string {
    if line == [] || line[0] == '#' then [] else [line[0]] + BeforeHash(line[1..])
  }

  function CutAll(lines: seq<string>): seq<string> {
    if lines == [] then [] else [BeforeHash(lines[0])] + CutAll(lines[1..])
  }

  function Words(s: string): (r: seq<string>)
    ensures s != [] && !IsSpace(s[0]) ==> r != []
  {
    if s == [] then []
    else if IsSpace(s[0]) then Words(s[1..])
    else if |s| == 1 || IsSpace(s[1]) then [[s[0]]] + Words(s[1..])
    else var rest := Words(s[1..]); [[s[0]] + rest[0]] + rest[1..]
  }

  /** A carriage return before a line feed, and an empty last line, are white space either way. */
  function Tokens(source: string): seq<string> { Words(Join(CutAll(Split(source, '\n')), ' ')) }

  /** netrc_credentials. */
  method NetrcCredentials(source: string, hostname: string) returns (r: Option<Credentials>)
    ensures r == Scan(Tokens(source), hostname, None)
  {
    r := ScanTokens(Tokens(source), hostname);
  }

  predicate IsWord(s: string) { s != [] && forall c :: c in s ==> !IsSpace(c) }

  predicate IsBlank(s: string) { forall c :: c in s ==> IsSpace(c) }

  /** Words laid out in text: white space before each and after the last. */
  function Lay(words: seq<string>, gaps: seq<string>): string
    requires |gaps| == |words| + 1
  {
    if words == [] then gaps[0] else gaps[0] + words[0] + Lay(words[1..], gaps[1..])
  }

  /** White space may be left out before the first word and after the last. */
  ghost predicate IsLayout(words: seq<string>, gaps: seq<string>) {
    && |gaps| == |words| + 1
    && (forall w :: w in words ==> IsWord(w)) && (forall g :: g in gaps ==> IsBlank(g))
    && forall i :: 0 < i < |words| ==> gaps[i] != []
  }

  function Blanked(s: string): string {
    if s == [] then [] else [if s[0] == '\n' then ' ' else s[0]] + Blanked(s[1..])
  }

  lemma {:induction false} NoHashToCut(s: string)
    requires '#' !in s
    ensures BeforeHash(s) == s
  {
    if s != [] { NoHashToCut(s[1..]); }
  }

  lemma {:induction false} LinesJoinBlanked(s: string)
    requires '#' !in s
    ensures var lines := Split(s, '\n'); lines != [] && CutAll(lines) == lines && Join(lines, ' ') == Blanked(s)
  {
    if s != [] {
      LinesJoinBlanked(s[1..]);
      var rest := Split(s[1..], '\n');
      if s[0] == '\n' {
        assert ([""] + rest)[1..] == rest;
      } else {
        var lines := [[s[0]] + rest[0]] + rest[1..];
        assert CutAll(rest) == [BeforeHash(rest[0])] + CutAll(rest[1..]);
        assert CutAll(rest)[0] == rest[0] && CutAll(rest)[1..] == rest[1..];
        assert lines[1..] == rest[1..];
      }
    }
  }

  lemma {:induction false} WordsOfBlanked(s: string)
    ensures Words(Blanked(s)) == Words(s)
  {
    if s != [] {
      WordsOfBlanked(s[1..]);
      assert Blanked(s)[1..] == Blanked(s[1..]);
    }
  }

  lemma {:induction false} WordIsRead(word: string, rest: string)
    requires IsWord(word) && (rest == [] || IsSpace(rest[0]))
    ensures Words(word + rest) == [word] + Words(rest)
  {
    var s := word + rest;
    assert s[1..] == word[1..] + rest;
    if |word| == 1 {
      assert s[1..] == rest && [word[0]] == word;
    } else {
      WordIsRead(word[1..], rest);
      assert s[1] == word[1] && [word[0]] + word[1..] == word;
    }
  }

  lemma {:induction false} GapIsSkipped(gap: string, rest: string)
    requires forall c :: c in gap ==> IsSpace(c)
    ensures Words(gap + rest) == Words(rest)
  {
    if gap == [] {
      assert gap + rest == rest;
    } else {
      GapIsSkipped(gap[1..], rest);
      assert (gap + rest)[1..] == gap[1..] + rest;
    }
  }

  lemma {:induction false} WordsOfLaid(words: seq<string>, gaps: seq<string>)
    requires IsLayout(words, gaps)
    ensures Words(Lay(words, gaps)) == words
    ensures words != [] && gaps[0] != [] ==> IsSpace(Lay(words, gaps)[0])
  {
    assert IsBlank(gaps[0]);
    if words == [] {
      GapIsSkipped(gaps[0], []);
      assert gaps[0] + [] == gaps[0];
    } else {
      var rest := Lay(words[1..], gaps[1..]);
      WordsOfLaid(words[1..], gaps[1..]);
      if |words| == 1 { assert rest == gaps[1]; }
      GapIsSkipped(gaps[0], words[0] + rest);
      WordIsRead(words[0], rest);
      assert gaps[0] + words[0] + rest == gaps[0] + (words[0] + rest);
      assert words == [words[0]] + words[1..];
    }
  }

  lemma {:induction false} NoHashInLaid(words: seq<string>, gaps: seq<string>)
    requires IsLayout(words, gaps) && forall w :: w in words ==> '#' !in w
    ensures '#' !in Lay(words, gaps)
  {
    assert IsBlank(gaps[0]) && !IsSpace('#');
    if words != [] { NoHashInLaid(words[1..], gaps[1..]); }
  }

  lemma {:induction false} NoHashBefore(line: string)
    ensures '#' !in BeforeHash(line)
  {
    if line != [] { NoHashBefore(line[1..]); }
  }

  lemma {:induction false} NoHashInJoined(lines: seq<string>)
    ensures '#' !in Join(CutAll(lines), ' ')
  {
    if lines != [] {
      NoHashBefore(lines[0]);
      NoHashInJoined(lines[1..]);
      assert CutAll(lines)[1..] == CutAll(lines[1..]);
    }
  }

  lemma {:induction false} NoHashInWords(s: string)
    requires '#' !in s
    ensures forall w :: w in Words(s) ==> '#' !in w
  {
    if s != [] { NoHashInWords(s[1..]); }
  }

  /** Entries whose words are free of white space read back as written, in any layout, if and only if no
      word holds a number sign. */
  lemma TokensOfWrittenEntries(entries: seq<Entry>, gaps: seq<string>)
    requires IsLayout(Render(entries), gaps)
    ensures Tokens(Lay(Render(entries), gaps)) == Render(entries) <==> forall w :: w in Render(entries) ==> '#' !in w
  {
    var words := Render(entries);
    var text := Lay(words, gaps);
    if forall w :: w in words ==> '#' !in w {
      WordsOfLaid(words, gaps);
      NoHashInLaid(words, gaps);
      LinesJoinBlanked(text);
      WordsOfBlanked(text);
    }
    NoHashInJoined(Split(text, '\n'));
    NoHashInWords(Join(CutAll(Split(text, '\n')), ' '));
  }

  /** What a list of entries says about a host. */
  ghost predicate IsAnswer(entries: seq<Entry>, host: string, answer: Option<Credentials>) {
    if exists i: nat :: IsFirstAnswer(entries, host, i)
    then forall i: nat :: IsFirstAnswer(entries, host, i) ==> ComesFrom(answer, entries[i])
    else if exists i: nat :: IsLastDefault(entries, i)
    then forall i: nat :: IsLastDefault(entries, i) ==> ComesFrom(answer, entries[i])
    else answer == None
  }

  /** What netrc_credentials returns on the text of such entries: the first complete machine entry for the
      host, or else the last complete default entry. */
  lemma WrittenEntriesAreRead(entries: seq<Entry>, gaps: seq<string>, host: string)
    requires ProperEntries(entries) && IsLayout(Render(entries), gaps) && forall w :: w in Render(entries) ==> '#' !in w
    ensures IsAnswer(entries, host, Scan(Tokens(Lay(Render(entries), gaps)), host, None))
  {
    hide Scan, Tokens, Render, IsAnswer;
    TokensOfWrittenEntries(entries, gaps);
    EntriesAreAnswered(entries, host);
  }

  lemma EntriesAreAnswered(entries: seq<Entry>, host: string)
    requires ProperEntries(entries)
    ensures IsAnswer(entries, host, Scan(Render(entries), host, None))
  {
    hide Scan, Render, ComesFrom, Answers, FallsBack;
    forall i: nat | IsFirstAnswer(entries, host, i) ensures ComesFrom(Scan(Render(entries), host, None), entries[i]) {
      MachineEntryIsFound(entries, host, None, i);
    }
    if forall i: nat :: !IsFirstAnswer(entries, host, i) {
      NobodyAnswers(entries, host, |entries|);
      forall i: nat | IsLastDefault(entries, i) ensures ComesFrom(Scan(Render(entries), host, None), entries[i]) {
        DefaultEntryIsFound(entries, host, None, i);
      }
      if forall i: nat :: !IsLastDefault(entries, i) {
        NobodyFallsBack(entries, 0);
        NothingIsFound(entries, host, None);
      }
    }
  }

  lemma {:induction false} NobodyAnswers(entries: seq<Entry>, host: string, n: nat)
    requires n <= |entries| && forall i: nat :: !IsFirstAnswer(entries, host, i)
    ensures forall j :: 0 <= j < n ==> !Answers(entries[j], host)
  {
    if n > 0 {
      NobodyAnswers(entries, host, n - 1);
      assert !IsFirstAnswer(entries, host, n - 1);
    }
  }

  lemma {:induction false} NobodyFallsBack(entries: seq<Entry>, n: nat)
    requires n <= |entries| && forall i: nat :: !IsLastDefault(entries, i)
    ensures forall j :: n <= j < |entries| ==> !FallsBack(entries[j])
    decreases |entries| - n
  {
    if n < |entries| {
      NobodyFallsBack(entries, n + 1);
      assert !IsLastDefault(entries, n);
    }
  }

  /** Comments do not count: cutting every line at its number sign leaves the tokens alone. */
  lemma CommentsAreDropped(lines: seq<string>)
    requires lines != [] && forall line :: line in lines ==> '\n' !in line
    ensures Tokens(Join(lines, '\n')) == Tokens(Join(CutAll(lines), '\n'))
  {
    SplitJoin(lines, '\n');
    CutTwice(lines);
    SplitJoin(CutAll(lines), '\n');
  }

  lemma {:induction false} CutTwice(lines: seq<string>)
    requires forall line :: line in lines ==> '\n' !in line
    ensures CutAll(CutAll(lines)) == CutAll(lines) && |CutAll(lines)| == |lines|
    ensures forall line :: line in CutAll(lines) ==> '\n' !in line
  {
    if lines != [] {
      CutTwice(lines[1..]);
      CutLine(lines[0]);
    }
  }

  lemma {:induction false} CutLine(line: string)
    ensures BeforeHash(BeforeHash(line)) == BeforeHash(line) && forall c :: c in BeforeHash(line) ==> c in line
  {
    if line != [] { CutLine(line[1..]); }
  }

  /** A number sign starts a comment even inside a value, so a password is read up to its first one. */
  lemma ValuesAreCutAtNumberSigns(text: string, rest: string)
    requires '#' !in text && '\n' !in text && '\n' !in rest
    ensures Tokens(text + "#" + rest) == Tokens(text)
  {
    SplitWhole(text + "#" + rest, '\n');
    SplitWhole(text, '\n');
    CutHere(text, rest);
    NoHashToCut(text);
  }

  lemma {:induction false} CutHere(before: string, after: string)
    requires '#' !in before
    ensures BeforeHash(before + "#" + after) == before
  {
    var s := before + "#" + after;
    if before != [] {
      assert s[1..] == before[1..] + "#" + after;
      CutHere(before[1..], after);
    }
  }
}
