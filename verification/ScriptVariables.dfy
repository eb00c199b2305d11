/** Variables after a script run: the layers it leaves merged into one map, and the rows of one scope
    written back from a map of values and a list of disabled names. */
module ScriptVariables {
  import opened Options

  type Values = map<string, string>

  /** A layer hides the names it disables and then defines its own values. */
  datatype Layer = Layer(disabled: seq<string>, values: Values)

  datatype FolderResult = FolderResult(environment: Values, disabled: Option<seq<string>>)

  datatype ScriptResult = ScriptResult(
    environment: Values, globalDisabled: Option<seq<string>>,
    baseGlobals: Option<Values>, baseGlobalDisabled: Option<seq<string>>,
    baseEnvironment: Option<Values>, baseEnvironmentDisabled: Option<seq<string>>,
    collectionVariables: Option<Values>, collectionDisabled: Option<seq<string>>,
    folders: Option<seq<FolderResult>>, localVariables: Option<Values>)

  datatype Scopes = Scopes(
    baseGlobalDisabled: Option<seq<string>>, globalDisabled: Option<seq<string>>, globalsAreBase: bool,
    baseEnvironmentDisabled: Option<seq<string>>, collectionDisabled: Option<seq<string>>,
    collectionVariablesAreBase: bool)

  // ---------------------------------------------------------------------- reading a stack of layers

  /** The layers, outermost first: base globals, globals, base collection environment, collection
      environment, folders from the root, and local variables. */
  function Layers(r: ScriptResult, s: Scopes): seq<Layer> {
    GlobalLayers(r, s) + CollectionLayers(r, s)
    + FolderLayers(if r.folders.Some? then r.folders.value else [])
    + [Layer([], if r.localVariables.Some? then r.localVariables.value else map[])]
  }

  /** The names disabled in a scope: those of the result if it lists any, else those known before the run. */
  function Hidden(result: Option<seq<string>>, before: Option<seq<string>>): seq<string> {
    match (result, before)
    case (Some(names), _) => names
    case (None, Some(names)) => names
    case (None, None) => []
  }

  function GlobalLayers(r: ScriptResult, s: Scopes): seq<Layer> {
    var baseValues := if r.baseGlobals.Some? then r.baseGlobals.value else r.environment;
    [Layer(Hidden(r.baseGlobalDisabled, s.baseGlobalDisabled), baseValues)]
    + (if s.globalsAreBase then [] else [Layer(Hidden(r.globalDisabled, s.globalDisabled), r.environment)])
  }

  function CollectionLayers(r: ScriptResult, s: Scopes): seq<Layer> {
    var values := if r.collectionVariables.Some? then r.collectionVariables.value else map[];
    var baseValues := if r.baseEnvironment.Some? then r.baseEnvironment.value else values;
    [Layer(Hidden(r.baseEnvironmentDisabled, s.baseEnvironmentDisabled), baseValues)]
    + (if s.collectionVariablesAreBase then [] else [Layer(Hidden(r.collectionDisabled, s.collectionDisabled), values)])
  }

  function FolderLayers(folders: seq<FolderResult>): seq<Layer> {
    seq(|folders|, i requires 0 <= i < |folders| => Layer(Hidden(folders[i].disabled, None), folders[i].environment))
  }

  /** The innermost layer that defines or disables a name decides. */
  function Lookup(layers: seq<Layer>, name: string): Option<string> {
    if layers == [] then None
    else
      var inner := layers[|layers| - 1];
      if name in inner.values then Some(inner.values[name])
      else if name in inner.disabled then None
      else Lookup(layers[..|layers| - 1], name)
  }

  ghost predicate Reads(values: Values, layers: seq<Layer>) {
    forall name :: if name in values then Lookup(layers, name) == Some(values[name]) else Lookup(layers, name) == None
  }

  /** One scope of the merge: the disabled names are deleted one by one, then the values assigned. */
  method ApplyScope(before: Values, scope: Values, disabled: seq<string>, ghost layers: seq<Layer>)
      returns (values: Values, ghost more: seq<Layer>)
    requires Reads(before, layers)
    ensures more == layers + [Layer(disabled, scope)] && Reads(values, more)
  {
    values := before;
    var i := 0;
    while i < |disabled|
      invariant 0 <= i <= |disabled|
      invariant forall name :: name in values <==> name in before && name !in disabled[..i]
      invariant forall name :: name in values ==> values[name] == before[name]
    {
      values := values - {disabled[i]};
      i := i + 1;
    }
    more := layers + [Layer(disabled, scope)];
    assert disabled[..i] == disabled && more[..|layers|] == layers;
    values := values + scope;
  }

  lemma OneMoreFolder(folders: seq<FolderResult>, i: nat)
    requires i < |folders|
    ensures FolderLayers(folders[..i + 1])
      == FolderLayers(folders[..i]) + [Layer(Hidden(folders[i].disabled, None), folders[i].environment)]
    ensures Hidden(folders[i].disabled, None) == Or(folders[i].disabled, [])
  {
  }

  /** The folders of the merge, from the root. */
  method ApplyFolders(before: Values, folders: seq<FolderResult>, ghost outer: seq<Layer>)
      returns (values: Values, ghost layers: seq<Layer>)
    requires Reads(before, outer)
    ensures layers == outer + FolderLayers(folders) && Reads(values, layers)
  {
    hide Reads, Lookup, FolderLayers, Or, Hidden;
    values, layers := before, outer;
    var i := 0;
    NoFolders(outer);
    assert folders[..0] == [];
    while i < |folders|
      invariant 0 <= i <= |folders| && Reads(values, layers)
      invariant layers == outer + FolderLayers(folders[..i])
    {
      OneMoreFolder(folders, i);
      values, layers := ApplyScope(values, folders[i].environment, Or(folders[i].disabled, []), layers);
      i := i + 1;
    }
    assert folders[..i] == folders;
  }

  lemma NoFolders(outer: seq<Layer>)
    ensures outer + FolderLayers([]) == outer
  {
  }

  lemma GlobalsWithDefaults(r: ScriptResult, s: Scopes)
    ensures GlobalLayers(r, s) ==
      [Layer(Or(r.baseGlobalDisabled, Or(s.baseGlobalDisabled, [])), Or(r.baseGlobals, r.environment))]
      + if s.globalsAreBase then [] else [Layer(Or(r.globalDisabled, Or(s.globalDisabled, [])), r.environment)]
  {
  }

  lemma CollectionWithDefaults(r: ScriptResult, s: Scopes)
    ensures CollectionLayers(r, s) ==
      [Layer(Or(r.baseEnvironmentDisabled, Or(s.baseEnvironmentDisabled, [])),
             Or(r.baseEnvironment, Or(r.collectionVariables, map[])))]
      + if s.collectionVariablesAreBase then []
        else [Layer(Or(r.collectionDisabled, Or(s.collectionDisabled, [])), Or(r.collectionVariables, map[]))]
  {
  }

  lemma LayersWithDefaults(r: ScriptResult, s: Scopes, outer: seq<Layer>)
    requires outer == GlobalLayers(r, s) + CollectionLayers(r, s)
    ensures Layers(r, s) == outer + FolderLayers(Or(r.folders, [])) + [Layer([], Or(r.localVariables, map[]))]
  {
  }

  /** mergedScriptVariables: what the imperative merge builds is the innermost-first lookup. */
  method MergedScriptVariables(r: ScriptResult, s: Scopes) returns (values: Values)
    ensures Reads(values, Layers(r, s))
  {
    values := map[];
    ghost var layers: seq<Layer> := [];
    assert Reads(values, layers);
    hide Reads, Lookup, GlobalLayers, CollectionLayers, FolderLayers, Layers, Or, Hidden;
    GlobalsWithDefaults(r, s);
    values, layers := ApplyScope(values, Or(r.baseGlobals, r.environment),
        Or(r.baseGlobalDisabled, Or(s.baseGlobalDisabled, [])), layers);
    if !s.globalsAreBase {
      values, layers := ApplyScope(values, r.environment, Or(r.globalDisabled, Or(s.globalDisabled, [])), layers);
    }
    assert layers == GlobalLayers(r, s);
    CollectionWithDefaults(r, s);
    values, layers := ApplyScope(values, Or(r.baseEnvironment, Or(r.collectionVariables, map[])),
                            Or(r.baseEnvironmentDisabled, Or(s.baseEnvironmentDisabled, [])), layers);
    if !s.collectionVariablesAreBase {
      values, layers := ApplyScope(values, Or(r.collectionVariables, map[]),
          Or(r.collectionDisabled, Or(s.collectionDisabled, [])), layers);
    }
    ghost var outer := GlobalLayers(r, s) + CollectionLayers(r, s);
    assert layers == outer;
    LayersWithDefaults(r, s, outer);
    values, layers := ApplyFolders(values, Or(r.folders, []), layers);
    values, layers := ApplyScope(values, Or(r.localVariables, map[]), [], layers);
    assert layers == Layers(r, s);
  }

  // ---------------------------------------------------------------------- writing rows back

  datatype Row = Row(id: string, name: string, value: string, enabled: bool)

  datatype Entry = Entry(name: string, value: string)

  /** The entries of an object, in order; names are distinct. */
  ghost predicate Distinct(entries: seq<Entry>) {
    forall i, j :: 0 <= i < j < |entries| ==> entries[i].name != entries[j].name
  }

  predicate Names(entries: seq<Entry>, name: string) { exists i :: 0 <= i < |entries| && entries[i].name == name }

  function Find(rows: seq<Row>, name: string): Option<Row> {
    if rows == [] then None else if rows[0].name == name then Some(rows[0]) else Find(rows[1..], name)
  }

  function DisabledRowNames(rows: seq<Row>): seq<string> {
    if rows == [] then []
    else (if !rows[0].enabled && rows[0].name != "" then [rows[0].name] else []) + DisabledRowNames(rows[1..])
  }

  /** The disabled names that have no value, each once, in order of first occurrence. */
  function StillDisabled(disabled: seq<string>, entries: seq<Entry>): seq<string> {
    if disabled == [] then []
    else
      var before := StillDisabled(disabled[..|disabled| - 1], entries);
      var name := disabled[|disabled| - 1];
      if Names(entries, name) || name in before then before else before + [name]
  }

  /** uid stands for the identifiers drawn for new rows. */
  function EnabledRow(e: Entry, existing: seq<Row>, uid: string -> string): Row {
    match Find(existing, e.name)
    case Some(row) => row.(value := e.value, enabled := true)
    case None => Row(uid(e.name), e.name, e.value, true)
  }

  function DisabledRow(name: string, existing: seq<Row>, uid: string -> string): Row {
    match Find(existing, name)
    case Some(row) => row.(enabled := false)
    case None => Row(uid(name), name, "", false)
  }

  function ScriptVariableRows(entries: seq<Entry>, existing: seq<Row>, disabled: seq<string>,
                              uid: string -> string): seq<Row> {
    var names := StillDisabled(disabled, entries);
    seq(|entries|, i requires 0 <= i < |entries| => EnabledRow(entries[i], existing, uid))
    + seq(|names|, i requires 0 <= i < |names| => DisabledRow(names[i], existing, uid))
  }

  lemma {:induction false} FindFinds(rows: seq<Row>, name: string)
    ensures Find(rows, name).Some? ==> Find(rows, name).value.name == name
  {
    if rows != [] { FindFinds(rows[1..], name); }
  }

  lemma {:induction false} StillDisabledMeans(disabled: seq<string>, entries: seq<Entry>)
    ensures var names := StillDisabled(disabled, entries);
      && (forall name :: name in names <==> name in disabled && !Names(entries, name))
      && forall i, j :: 0 <= i < j < |names| ==> names[i] != names[j]
    decreases |disabled|
  {
    if disabled != [] {
      var front := disabled[..|disabled| - 1];
      StillDisabledMeans(front, entries);
      assert disabled == front + [disabled[|disabled| - 1]];
    }
  }

  /** Row by row, the written list is the values in order and then the disabled names in order. */
  lemma RowAt(entries: seq<Entry>, existing: seq<Row>, disabled: seq<string>, uid: string -> string, k: nat)
    requires k < |ScriptVariableRows(entries, existing, disabled, uid)|
    ensures var row := ScriptVariableRows(entries, existing, disabled, uid)[k]; var n := |entries|;
      if k < n then row.name == entries[k].name && row.value == entries[k].value && row.enabled
      else row.name == StillDisabled(disabled, entries)[k - n] && !row.enabled
  {
    if k < |entries| {
      FindFinds(existing, entries[k].name);
    } else {
      FindFinds(existing, StillDisabled(disabled, entries)[k - |entries|]);
    }
  }

  /** A written row keeps the identity of the first old row of its name, and a disabled one its value too; a new
      row has a drawn identity, and no value if it is disabled. */
  lemma RowsKeepIdentity(entries: seq<Entry>, existing: seq<Row>, disabled: seq<string>, uid: string -> string, k: nat)
    requires k < |ScriptVariableRows(entries, existing, disabled, uid)|
    ensures var row := ScriptVariableRows(entries, existing, disabled, uid)[k];
      && (forall i: nat :: IsFirstNamed(existing, row.name, i) ==>
            row.id == existing[i].id && (!row.enabled ==> row.value == existing[i].value))
      && ((forall i :: 0 <= i < |existing| ==> existing[i].name != row.name) ==>
            row.id == uid(row.name) && (!row.enabled ==> row.value == ""))
  {
    RowAt(entries, existing, disabled, uid, k);
    var row := ScriptVariableRows(entries, existing, disabled, uid)[k];
    FindIsFirst(existing, row.name);
  }

  ghost predicate IsFirstNamed(rows: seq<Row>, name: string, i: nat) {
    i < |rows| && rows[i].name == name && forall j :: 0 <= j < i ==> rows[j].name != name
  }

  lemma {:induction false} FindIsFirst(rows: seq<Row>, name: string)
    ensures forall i: nat :: IsFirstNamed(rows, name, i) ==> Find(rows, name) == Some(rows[i])
    ensures Find(rows, name).Some? <==> exists i :: 0 <= i < |rows| && rows[i].name == name
  {
    if rows != [] && rows[0].name != name {
      FindIsFirst(rows[1..], name);
      forall i: nat | IsFirstNamed(rows, name, i) ensures Find(rows, name) == Some(rows[i]) {
        assert forall j :: 0 <= j < i - 1 ==> rows[1..][j] == rows[j + 1];
        assert IsFirstNamed(rows[1..], name, i - 1);
      }
      assert forall i :: 0 < i < |rows| ==> rows[i] == rows[1..][i - 1];
    }
  }

  lemma {:induction false} DisabledNamesInOrder(disabled: seq<string>, entries: seq<Entry>, i: nat, j: nat)
    requires i < j < |StillDisabled(disabled, entries)|
    ensures var names := StillDisabled(disabled, entries);
      exists a :: 0 <= a < |disabled| && disabled[a] == names[i] && names[j] !in disabled[..a + 1]
    decreases |disabled|
  {
    var front, name := disabled[..|disabled| - 1], disabled[|disabled| - 1];
    var before, names := StillDisabled(front, entries), StillDisabled(disabled, entries);
    StillDisabledMeans(front, entries);
    if j < |before| {
      DisabledNamesInOrder(front, entries, i, j);
      var a :| 0 <= a < |front| && front[a] == before[i] && before[j] !in front[..a + 1];
      assert front[..a + 1] == disabled[..a + 1] && disabled[a] == names[i];
    } else {
      assert names[i] in before;
      var a :| 0 <= a < |front| && front[a] == names[i];
      assert disabled[a] == names[i] && disabled[..a + 1] <= front;
      assert name in disabled[..a + 1] ==> name in front;
    }
  }

  /** The values come first, in their order, and then the disabled names, in the order of their first mention. */
  lemma RowsInOrder(entries: seq<Entry>, existing: seq<Row>, disabled: seq<string>, uid: string -> string,
                    i: nat, j: nat)
    requires i < j < |ScriptVariableRows(entries, existing, disabled, uid)|
    ensures var rows := ScriptVariableRows(entries, existing, disabled, uid); var n := |entries|;
      && (rows[i].enabled <==> i < n)
      && (i < n ==> rows[i].name == entries[i].name && rows[i].value == entries[i].value)
      && (i >= n ==>
            exists a :: 0 <= a < |disabled| && disabled[a] == rows[i].name && rows[j].name !in disabled[..a + 1])
  {
    RowAt(entries, existing, disabled, uid, i);
    RowAt(entries, existing, disabled, uid, j);
    if i >= |entries| { DisabledNamesInOrder(disabled, entries, i - |entries|, j - |entries|); }
  }

  /** Names are unique in the written rows, whatever the old rows were. */
  lemma RowNamesAreUnique(entries: seq<Entry>, existing: seq<Row>, disabled: seq<string>, uid: string -> string,
                          i: nat, j: nat)
    requires Distinct(entries) && i < j < |ScriptVariableRows(entries, existing, disabled, uid)|
    ensures var rows := ScriptVariableRows(entries, existing, disabled, uid); rows[i].name != rows[j].name
  {
    RowAt(entries, existing, disabled, uid, i);
    RowAt(entries, existing, disabled, uid, j);
    StillDisabledMeans(disabled, entries);
    if i < |entries| <= j {
      var name := StillDisabled(disabled, entries)[j - |entries|];
      assert name in StillDisabled(disabled, entries);
      assert entries[i].name == name ==> Names(entries, name);
    }
  }

  /** The enabled rows read back as the values, and the disabled rows as the disabled names that have
      no value. */
  lemma RowsReadBack(entries: seq<Entry>, existing: seq<Row>, disabled: seq<string>, uid: string -> string)
    ensures var rows := ScriptVariableRows(entries, existing, disabled, uid);
      && (forall e :: e in entries
           <==> exists k :: 0 <= k < |rows| && rows[k].enabled && Entry(rows[k].name, rows[k].value) == e)
      && (forall name :: (name in disabled && !Names(entries, name))
           <==> exists k :: 0 <= k < |rows| && !rows[k].enabled && rows[k].name == name)
  {
    var rows := ScriptVariableRows(entries, existing, disabled, uid);
    var names := StillDisabled(disabled, entries);
    var n := |entries|;
    StillDisabledMeans(disabled, entries);
    forall k | 0 <= k < |rows|
      ensures if k < n then rows[k].enabled && Entry(rows[k].name, rows[k].value) == entries[k]
        else !rows[k].enabled && rows[k].name == names[k - n]
    {
      RowAt(entries, existing, disabled, uid, k);
    }
    forall e | e in entries
      ensures exists k :: 0 <= k < |rows| && rows[k].enabled && Entry(rows[k].name, rows[k].value) == e
    {
      var k :| 0 <= k < n && entries[k] == e;
      assert rows[k].enabled;
    }
    forall name | name in names ensures exists k :: 0 <= k < |rows| && !rows[k].enabled && rows[k].name == name {
      var k :| 0 <= k < |names| && names[k] == name;
      assert !rows[n + k].enabled;
    }
  }

  lemma {:induction false} FindUnique(rows: seq<Row>, k: nat)
    requires k < |rows| && forall i, j :: 0 <= i < j < |rows| ==> rows[i].name != rows[j].name
    ensures Find(rows, rows[k].name) == Some(rows[k])
    decreases k
  {
    if k > 0 {
      assert rows[0].name != rows[k].name;
      forall i, j | 0 <= i < j < |rows[1..]|
        ensures rows[1..][i].name != rows[1..][j].name
      {
        assert rows[i + 1].name != rows[j + 1].name;
      }
      FindUnique(rows[1..], k - 1);
    }
  }

  /** Writing the same values and disabled names a second time leaves every row and id unchanged. */
  lemma WritingTwiceChangesNothing(entries: seq<Entry>, existing: seq<Row>, disabled: seq<string>,
                                   uid: string -> string, uid': string -> string)
    requires Distinct(entries)
    ensures var rows := ScriptVariableRows(entries, existing, disabled, uid);
      ScriptVariableRows(entries, rows, disabled, uid') == rows
  {
    var rows := ScriptVariableRows(entries, existing, disabled, uid);
    var again := ScriptVariableRows(entries, rows, disabled, uid');
    forall i, j | 0 <= i < j < |rows| ensures rows[i].name != rows[j].name {
      RowNamesAreUnique(entries, existing, disabled, uid, i, j);
    }
    forall k | 0 <= k < |rows| ensures again[k] == rows[k] {
      RowAt(entries, existing, disabled, uid, k);
      FindUnique(rows, k);
    }
  }

  function NamesFrom(rows: seq<Row>, n: nat): seq<string>
    requires n <= |rows|
  {
    seq(|rows| - n, k requires 0 <= k < |rows| - n => rows[n + k].name)
  }

  lemma {:induction false} DisabledTail(rows: seq<Row>, n: nat)
    requires n <= |rows| && forall k :: 0 <= k < |rows| ==> (rows[k].enabled <==> k < n)
    requires forall k :: n <= k < |rows| ==> rows[k].name != ""
    ensures DisabledRowNames(rows) == NamesFrom(rows, n)
    decreases |rows|
  {
    if rows != [] {
      var rest := rows[1..];
      assert forall k :: 0 <= k < |rest| ==> rest[k] == rows[k + 1];
      if n > 0 {
        DisabledTail(rest, n - 1);
        assert NamesFrom(rows, n) == NamesFrom(rest, n - 1);
      } else {
        DisabledTail(rest, 0);
        assert NamesFrom(rows, 0) == [rows[0].name] + NamesFrom(rest, 0);
      }
    }
  }

  lemma {:induction false} StillDisabledAgain(names: seq<string>, entries: seq<Entry>)
    requires forall i, j :: 0 <= i < j < |names| ==> names[i] != names[j]
    requires forall name :: name in names ==> !Names(entries, name)
    ensures StillDisabled(names, entries) == names
    decreases |names|
  {
    if names != [] {
      var front := names[..|names| - 1];
      StillDisabledAgain(front, entries);
      assert names == front + [names[|names| - 1]];
      assert names[|names| - 1] in names;
    }
  }

  /** With the default list of disabled names, taken from the rows themselves, a second write changes
      nothing exactly when the empty name is not among the disabled rows: it is skipped there. */
  lemma WritingTwiceByDefault(entries: seq<Entry>, existing: seq<Row>, disabled: seq<string>, uid: string -> string,
                              uid': string -> string)
    requires Distinct(entries)
    ensures var rows := ScriptVariableRows(entries, existing, disabled, uid);
      ScriptVariableRows(entries, rows, DisabledRowNames(rows), uid') == rows
      <==> !("" in disabled && !Names(entries, ""))
  {
    var rows := ScriptVariableRows(entries, existing, disabled, uid);
    var names := StillDisabled(disabled, entries);
    StillDisabledMeans(disabled, entries);
    forall k | 0 <= k < |rows|
      ensures rows[k].enabled <==> k < |entries|
    {
      RowAt(entries, existing, disabled, uid, k);
    }
    forall k | |entries| <= k < |rows|
      ensures rows[k].name == names[k - |entries|]
    {
      RowAt(entries, existing, disabled, uid, k);
    }
    if "" in names {
      var again := ScriptVariableRows(entries, rows, DisabledRowNames(rows), uid');
      EmptyIsSkipped(rows);
      StillDisabledMeans(DisabledRowNames(rows), entries);
      RowsReadBack(entries, rows, DisabledRowNames(rows), uid');
      RowsReadBack(entries, existing, disabled, uid);
    } else {
      forall k | |entries| <= k < |rows| ensures rows[k].name != "" { assert names[k - |entries|] in names; }
      DisabledTail(rows, |entries|);
      assert DisabledRowNames(rows) == names;
      StillDisabledAgain(names, entries);
      WritingTwiceChangesNothing(entries, existing, disabled, uid, uid');
      assert ScriptVariableRows(entries, rows, names, uid') == ScriptVariableRows(entries, rows, disabled, uid');
    }
  }

  lemma {:induction false} EmptyIsSkipped(rows: seq<Row>)
    ensures "" !in DisabledRowNames(rows)
  {
    if rows != [] { EmptyIsSkipped(rows[1..]); }
  }
}
