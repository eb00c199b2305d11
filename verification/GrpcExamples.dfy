/** The example request generated for a message descriptor: a mutual recursion over descriptors
    that may be cyclic, bounded by a depth and by a field budget shared by the whole example. */
module GrpcExamples {
  import opened Options
  import Strings = Text

  const MAX_GRPC_EXAMPLE_FIELDS := 500
  const MAX_GRPC_EXAMPLE_DEPTH := 3

  datatype Scalar =
    | Double | Float | Int32 | Int64 | Uint32 | Uint64 | Sint32 | Sint64
    | Fixed32 | Fixed64 | Sfixed32 | Sfixed64 | Bool | Str | Bytes

  datatype Kind = Plain(scalar: Scalar) | Enum(numbers: seq<int>) | Message(name: string)

  datatype Oneof = Oneof(fullName: string, synthetic: bool)

  /** For a map field, Map(key, valueName, value) describes its entry message. */
  datatype Cardinality = Single | List | Map(key: Scalar, valueName: string, value: Kind)

  datatype Field = Field(name: string, jsonName: string, kind: Kind, cardinality: Cardinality, oneof: Option<Oneof>)

  /** Every message of the pool by its full name; the messages may refer to each other in cycles. */
  type Pool = map<string, seq<Field>>

  predicate KindKnown(pool: Pool, kind: Kind) { kind.Message? ==> kind.name in pool }

  predicate FieldKnown(pool: Pool, f: Field) {
    KindKnown(pool, f.kind) && (f.cardinality.Map? ==> KindKnown(pool, f.cardinality.value))
  }

  /** A descriptor pool resolves every message name its fields mention. */
  ghost predicate Resolved(pool: Pool) {
    forall name, i :: name in pool && 0 <= i < |pool[name]| ==> FieldKnown(pool, pool[name][i])
  }

  datatype Json =
    | Num(number: real) | Truth(flag: bool) | Text(text: string)
    | Arr(items: seq<Json>) | Obj(fields: map<string, Json>)

  /** Random identifiers are drawn by place: the key or the value of the field counted with this number. */
  datatype Place = Key(field: nat) | Value(field: nat)

  type Draws = Place -> string

  function StringExample(fieldName: string, drawn: string): string {
    var n := |fieldName|;
    if n >= 2 && ((Strings.Lower(fieldName[0]) == 'i' && Strings.Lower(fieldName[1]) == 'd')
                  || (Strings.Lower(fieldName[n - 2]) == 'i' && Strings.Lower(fieldName[n - 1]) == 'd'))
    then drawn else "Hello"
  }

  function MapKeyExample(key: Scalar, fieldName: string, drawn: string): string {
    match key
    case Bool => "true"
    case Str => StringExample(fieldName, drawn)
    case Int32 => "10"
    case Int64 => "20"
    case Uint32 => "100"
    case Uint64 => "100"
    case Sint32 => "100"
    case Sint64 => "1200"
    case Fixed32 => "1400"
    case Fixed64 => "1500"
    case Sfixed32 => "1600"
    case Sfixed64 => "1700"
    case _ => "key"
  }

  function ScalarExample(scalar: Scalar, fieldName: string, drawn: string): Json {
    match scalar
    case Double => Num(1.4)
    case Float => Num(1.1)
    case Int32 => Num(10.0)
    case Int64 => Num(20.0)
    case Uint32 => Num(100.0)
    case Uint64 => Num(100.0)
    case Sint32 => Num(100.0)
    case Sint64 => Num(1200.0)
    case Fixed32 => Num(1400.0)
    case Fixed64 => Num(1500.0)
    case Sfixed32 => Num(1600.0)
    case Sfixed64 => Num(1700.0)
    case Bool => Truth(true)
    case Str => Text(StringExample(fieldName, drawn))
    case Bytes => Text("obLD")
  }

  // ---------------------------------------------------------------------- what the message parser accepts

  /** The integers of an integer type. */
  predicate InRange(scalar: Scalar, n: int) {
    match scalar
    case Int32 => -0x8000_0000 <= n < 0x8000_0000
    case Sint32 => -0x8000_0000 <= n < 0x8000_0000
    case Sfixed32 => -0x8000_0000 <= n < 0x8000_0000
    case Uint32 => 0 <= n < 0x1_0000_0000
    case Fixed32 => 0 <= n < 0x1_0000_0000
    case Int64 => -0x8000_0000_0000_0000 <= n < 0x8000_0000_0000_0000
    case Sint64 => -0x8000_0000_0000_0000 <= n < 0x8000_0000_0000_0000
    case Sfixed64 => -0x8000_0000_0000_0000 <= n < 0x8000_0000_0000_0000
    case Uint64 => 0 <= n < 0x1_0000_0000_0000_0000
    case Fixed64 => 0 <= n < 0x1_0000_0000_0000_0000
    case _ => false
  }

  predicate IsInteger(v: Json) { v.Num? && v.number == v.number.Floor as real }

  predicate IsBase64Char(c: char) {
    'A' <= c <= 'Z' || 'a' <= c <= 'z' || '0' <= c <= '9' || c == '+' || c == '/'
  }

  /** Groups of four, the last of which may end in one or two equals signs (section 4 of RFC 4648). */
  predicate IsBase64(s: string) {
    && |s| % 4 == 0
    && (forall i :: 0 <= i < |s| - 2 ==> IsBase64Char(s[i]))
    && (s != "" ==>
          && (IsBase64Char(s[|s| - 1]) || s[|s| - 1] == '=')
          && (IsBase64Char(s[|s| - 2]) || (s[|s| - 2] == '=' && s[|s| - 1] == '=')))
  }

  predicate AcceptsScalar(scalar: Scalar, v: Json) {
    match scalar
    case Double => v.Num?
    case Float => v.Num?
    case Bool => v.Truth?
    case Str => v.Text?
    case Bytes => v.Text? && IsBase64(v.text)
    case _ => IsInteger(v) && InRange(scalar, v.number.Floor)
  }

  /** A numeral of at most nine digits fits every integer type. */
  predicate IsNumeral(text: string) {
    1 <= |text| <= 9 && (forall c :: c in text ==> '0' <= c <= '9') && (text[0] != '0' || |text| == 1)
  }

  function Digit(c: char): int { c as int - '0' as int }

  function NumeralValue(text: string): int {
    if text == "" then 0 else 10 * NumeralValue(text[..|text| - 1]) + Digit(text[|text| - 1])
  }

  /** JSON texts a map key of this type may have. */
  predicate AcceptsKey(key: Scalar, text: string) {
    match key
    case Bool => text == "true" || text == "false"
    case Str => true
    case Double => false
    case Float => false
    case Bytes => false
    case _ => IsNumeral(text) && InRange(key, NumeralValue(text))
  }

  predicate MayBeKey(scalar: Scalar) { scalar != Double && scalar != Float && scalar != Bytes }

  predicate HasIdName(fieldName: string) {
    "id" <= Strings.LowerCase(fieldName) || Strings.EndsWith(Strings.LowerCase(fieldName), "id")
  }

  /** A field whose lower-case name begins or ends in id gets the drawn identifier, any other a greeting. */
  lemma StringsFit(fieldName: string, drawn: string)
    ensures StringExample(fieldName, drawn) == if HasIdName(fieldName) then drawn else "Hello"
  {
    var lower := Strings.LowerCase(fieldName);
    if |fieldName| >= 2 {
      assert lower[..2] == [lower[0], lower[1]] && lower[|lower| - 2..] == [lower[|lower| - 2], lower[|lower| - 1]];
      assert "id" == ['i', 'd'];
    }
  }

  /** Every scalar example is one the parser accepts for its type, and a string example is the identifier
      or the greeting. */
  lemma ScalarsFit(scalar: Scalar, fieldName: string, drawn: string)
    ensures var v := ScalarExample(scalar, fieldName, drawn);
      AcceptsScalar(scalar, v) && (scalar.Str? ==> v == Text(if HasIdName(fieldName) then drawn else "Hello"))
  {
    hide HasIdName, StringExample;
    StringsFit(fieldName, drawn);
  }

  lemma NumeralsHaveValues()
    ensures NumeralValue("10") == 10 && NumeralValue("20") == 20 && NumeralValue("100") == 100
    ensures NumeralValue("1200") == 1200 && NumeralValue("1400") == 1400 && NumeralValue("1500") == 1500
    ensures NumeralValue("1600") == 1600 && NumeralValue("1700") == 1700
  {
    ShortNumeral('1', '0', '0', '0');
    ShortNumeral('2', '0', '0', '0');
    ShortNumeral('1', '2', '0', '0');
    ShortNumeral('1', '4', '0', '0');
    ShortNumeral('1', '5', '0', '0');
    ShortNumeral('1', '6', '0', '0');
    ShortNumeral('1', '7', '0', '0');
    hide NumeralValue;
  }

  lemma ShortNumeral(a: char, b: char, c: char, d: char)
    ensures NumeralValue([a, b]) == 10 * Digit(a) + Digit(b)
    ensures NumeralValue([a, b, c]) == 100 * Digit(a) + 10 * Digit(b) + Digit(c)
    ensures NumeralValue([a, b, c, d]) == 1000 * Digit(a) + 100 * Digit(b) + 10 * Digit(c) + Digit(d)
  {
    assert [a, b, c, d][..3] == [a, b, c] && [a, b, c][..2] == [a, b] && [a, b][..1] == [a] && [a][..0] == [];
    assert NumeralValue([a]) == Digit(a);
  }

  /** The generated key fits every type a map key may have; a numeral is that of the scalar example, and a
      text is the string example of the map's name. */
  lemma MapKeysFit(key: Scalar, fieldName: string, drawn: string)
    requires MayBeKey(key)
    ensures var text := MapKeyExample(key, fieldName, drawn);
      && AcceptsKey(key, text)
      && (key.Str? ==> text == if HasIdName(fieldName) then drawn else "Hello")
      && (!key.Str? && !key.Bool? ==> ScalarExample(key, fieldName, drawn) == Num(NumeralValue(text) as real))
  {
    hide HasIdName, StringExample;
    if key.Str? {
      StringsFit(fieldName, drawn);
    } else if !key.Bool? {
      hide ScalarExample;
      NumeralKeysFit(key, fieldName, drawn);
      NumeralExamples(key, fieldName, drawn);
    }
  }

  lemma NumeralKeysFit(key: Scalar, fieldName: string, drawn: string)
    requires MayBeKey(key) && !key.Str? && !key.Bool?
    ensures AcceptsKey(key, MapKeyExample(key, fieldName, drawn))
  {
    hide NumeralValue;
    NumeralsHaveValues();
  }

  lemma NumeralExamples(key: Scalar, fieldName: string, drawn: string)
    requires MayBeKey(key) && !key.Str? && !key.Bool?
    ensures ScalarExample(key, fieldName, drawn) == Num(NumeralValue(MapKeyExample(key, fieldName, drawn)) as real)
  {
    hide NumeralValue;
    NumeralsHaveValues();
  }

  // ---------------------------------------------------------------------- sizes and conformance

  /** A field in a real oneof is skipped when an earlier field of the message is in the same oneof. */
  predicate Shadowed(fields: seq<Field>, i: nat)
    requires i < |fields|
  {
    && fields[i].oneof.Some? && !fields[i].oneof.value.synthetic
    && exists j :: 0 <= j < i && InOneof(fields[j], fields[i].oneof.value.fullName)
  }

  predicate InOneof(f: Field, fullName: string) {
    f.oneof.Some? && !f.oneof.value.synthetic && f.oneof.value.fullName == fullName
  }

  /** The number of fields an unbudgeted example counts inside a value of a message at this depth. */
  function KindSize(pool: Pool, kind: Kind, depth: nat): nat
    decreases MAX_GRPC_EXAMPLE_DEPTH + 1 - depth, 0, 0
  {
    if kind.Message? && kind.name in pool && depth < MAX_GRPC_EXAMPLE_DEPTH
    then Size(pool, pool[kind.name], |pool[kind.name]|, depth + 1) else 0
  }

  function FieldSize(pool: Pool, f: Field, depth: nat): nat
    decreases MAX_GRPC_EXAMPLE_DEPTH + 1 - depth, 1, 0
  {
    KindSize(pool, if f.cardinality.Map? then f.cardinality.value else f.kind, depth)
  }

  /** The same for the first n fields of a message at this depth. */
  function Size(pool: Pool, fields: seq<Field>, n: nat, depth: nat): nat
    requires n <= |fields|
    decreases MAX_GRPC_EXAMPLE_DEPTH + 1 - depth, 2, n
  {
    if n == 0 then 0
    else
      Size(pool, fields, n - 1, depth)
      + if Shadowed(fields, n - 1) then 0 else 1 + FieldSize(pool, fields[n - 1], depth)
  }

  function FullSize(pool: Pool, name: string): nat
    requires name in pool
  {
    Size(pool, pool[name], |pool[name]|, 0)
  }

  function Capped(n: nat): nat { if n < MAX_GRPC_EXAMPLE_FIELDS then n else MAX_GRPC_EXAMPLE_FIELDS }

  /** Field i is written in a message that begins when count fields have been counted. */
  ghost predicate Written(pool: Pool, fields: seq<Field>, i: nat, depth: nat, count: nat)
    requires i < |fields|
  {
    !Shadowed(fields, i) && count + Size(pool, fields, i, depth) < MAX_GRPC_EXAMPLE_FIELDS
  }

  ghost function WrittenNames(pool: Pool, fields: seq<Field>, n: nat, depth: nat, count: nat): set<string>
    requires n <= |fields|
  {
    set i | 0 <= i < n && Written(pool, fields, i, depth, count) :: fields[i].jsonName
  }

  /** The value of a kind inside the field counted as number count, the last one counted before it. */
  ghost predicate ConformsToKind(pool: Pool, draw: Draws, kind: Kind, fieldName: string, depth: nat, count: nat,
                                 v: Json)
    decreases MAX_GRPC_EXAMPLE_DEPTH + 1 - depth, 1
  {
    match kind
    case Plain(scalar) => v == ScalarExample(scalar, fieldName, draw(Value(count)))
    case Enum(numbers) => v == Num(if numbers == [] then 0.0 else numbers[0] as real)
    case Message(name) =>
      v.Obj? && if depth >= MAX_GRPC_EXAMPLE_DEPTH then v.fields == map[]
                else name in pool && ConformsToMessage(pool, draw, pool[name], |pool[name]|, depth + 1, count, v.fields)
  }

  /** One element for a list, one entry for a map. */
  ghost predicate ConformsToField(pool: Pool, draw: Draws, f: Field, depth: nat, count: nat, v: Json)
    requires depth <= MAX_GRPC_EXAMPLE_DEPTH
    decreases MAX_GRPC_EXAMPLE_DEPTH + 1 - depth, 2
  {
    match f.cardinality
    case Single => ConformsToKind(pool, draw, f.kind, f.name, depth, count, v)
    case List => v.Arr? && |v.items| == 1 && ConformsToKind(pool, draw, f.kind, f.name, depth, count, v.items[0])
    case Map(key, valueName, valueKind) =>
      var text := MapKeyExample(key, f.name, draw(Key(count)));
      && v.Obj? && v.fields.Keys == {text}
      && ConformsToKind(pool, draw, valueKind, valueName, depth, count, v.fields[text])
  }

  /** The members for the first n fields of a message that begins when count fields have been counted: of
      each real oneof the first member only, and no field from the place on where the budget is used up. */
  ghost predicate ConformsToMessage(pool: Pool, draw: Draws, fields: seq<Field>, n: nat, depth: nat, count: nat,
                                    members: map<string, Json>)
    requires n <= |fields| && depth <= MAX_GRPC_EXAMPLE_DEPTH
    decreases MAX_GRPC_EXAMPLE_DEPTH + 1 - depth, 4
  {
    && members.Keys == WrittenNames(pool, fields, n, depth, count)
    && forall key :: key in members ==>
         exists i :: 0 <= i < n && IsMember(pool, draw, fields, i, n, depth, count, key, members[key])
  }

  /** This key and value are those of field i, the last written one of its name among the first n. */
  ghost predicate IsMember(pool: Pool, draw: Draws, fields: seq<Field>, i: nat, n: nat, depth: nat, count: nat,
                           key: string, v: Json)
    requires i < n <= |fields| && depth <= MAX_GRPC_EXAMPLE_DEPTH
    decreases MAX_GRPC_EXAMPLE_DEPTH + 1 - depth, 3
  {
    && IsLastNamed(pool, fields, i, n, depth, count, key)
    && ConformsToField(pool, draw, fields[i], depth, count + Size(pool, fields, i, depth) + 1, v)
  }

  ghost predicate IsLastNamed(pool: Pool, fields: seq<Field>, i: nat, n: nat, depth: nat, count: nat, key: string)
    requires i < n <= |fields|
  {
    && fields[i].jsonName == key && Written(pool, fields, i, depth, count)
    && forall j :: i < j < n && Written(pool, fields, j, depth, count) ==> fields[j].jsonName != key
  }

  lemma {:induction false} SizeGrows(pool: Pool, fields: seq<Field>, i: nat, n: nat, depth: nat)
    requires i <= n <= |fields|
    ensures Size(pool, fields, i, depth) <= Size(pool, fields, n, depth)
    ensures i < n && !Shadowed(fields, i) ==>
      Size(pool, fields, i, depth) + 1 + FieldSize(pool, fields[i], depth) <= Size(pool, fields, n, depth)
    decreases n
  {
    if i < n { SizeGrows(pool, fields, i, n - 1, depth); }
  }

  // ---------------------------------------------------------------------- the generator, in place

  /** The mutable budget threaded through one generation. */
  class Budget {
    var fields: nat

    constructor ()
      ensures fields == 0
    {
      fields := 0;
    }
  }

  method KindExample(pool: Pool, kind: Kind, fieldName: string, draw: Draws, depth: nat, budget: Budget)
      returns (v: Json)
    requires Resolved(pool) && KindKnown(pool, kind)
    requires depth <= MAX_GRPC_EXAMPLE_DEPTH && budget.fields <= MAX_GRPC_EXAMPLE_FIELDS
    modifies budget
    ensures budget.fields == Capped(old(budget.fields) + KindSize(pool, kind, depth))
    ensures ConformsToKind(pool, draw, kind, fieldName, depth, old(budget.fields), v)
    decreases MAX_GRPC_EXAMPLE_DEPTH + 1 - depth, 0
  {
    hide ConformsToMessage, Size;
    match kind
    case Plain(scalar) => v := ScalarExample(scalar, fieldName, draw(Value(budget.fields)));
    case Enum(numbers) => v := Num(if numbers == [] then 0.0 else numbers[0] as real);
    case Message(name) => v := MessageExample(pool, name, draw, depth + 1, budget);
  }

  method MessageExample(pool: Pool, name: string, draw: Draws, depth: nat, budget: Budget) returns (v: Json)
    requires Resolved(pool) && name in pool && budget.fields <= MAX_GRPC_EXAMPLE_FIELDS
    modifies budget
    ensures v.Obj?
    ensures depth > MAX_GRPC_EXAMPLE_DEPTH ==> v.fields == map[] && budget.fields == old(budget.fields)
    ensures depth <= MAX_GRPC_EXAMPLE_DEPTH ==>
      && budget.fields == Capped(old(budget.fields) + Size(pool, pool[name], |pool[name]|, depth))
      && ConformsToMessage(pool, draw, pool[name], |pool[name]|, depth, old(budget.fields), v.fields)
    decreases MAX_GRPC_EXAMPLE_DEPTH + 1 - depth
  {
    hide ConformsToMessage, Size, Shadowed, OneofsAmong, Resolved;
    var fields := pool[name];
    ghost var count := budget.fields;
    if depth > MAX_GRPC_EXAMPLE_DEPTH {
      return Obj(map[]);
    }
    NothingYet(pool, draw, fields, depth, count);
    if budget.fields >= MAX_GRPC_EXAMPLE_FIELDS {
      NothingMore(pool, draw, fields, 0, depth, count, map[]);
      return Obj(map[]);
    }
    var members: map<string, Json> := map[];
    var selectedOneofs: set<string> := {};
    var i := 0;
    while i < |fields| && budget.fields < MAX_GRPC_EXAMPLE_FIELDS
      invariant 0 <= i <= |fields| && budget.fields == Capped(count + Size(pool, fields, i, depth))
      invariant selectedOneofs == OneofsAmong(fields, i)
      invariant ConformsToMessage(pool, draw, fields, i, depth, count, members)
    {
      var f := fields[i];
      OneMoreField(pool, name, i);
      var shadowed := false;
      if f.oneof.Some? && !f.oneof.value.synthetic {
        shadowed := f.oneof.value.fullName in selectedOneofs;
        selectedOneofs := selectedOneofs + {f.oneof.value.fullName};
      }
      if shadowed {
        MessagePasses(pool, draw, fields, i, depth, count, members);
      } else {
        members := PutField(pool, name, draw, depth, i, count, members, budget);
      }
      i := i + 1;
    }
    NothingMore(pool, draw, fields, i, depth, count, members);
    v := Obj(members);
  }

  /** One counted field: its example under its JSON name. */
  method PutField(pool: Pool, name: string, draw: Draws, depth: nat, i: nat, ghost count: nat,
                  members: map<string, Json>, budget: Budget)
      returns (more: map<string, Json>)
    requires Resolved(pool) && name in pool && i < |pool[name]| && FieldKnown(pool, pool[name][i])
    requires depth <= MAX_GRPC_EXAMPLE_DEPTH && !Shadowed(pool[name], i)
    requires budget.fields == count + Size(pool, pool[name], i, depth) < MAX_GRPC_EXAMPLE_FIELDS
    requires ConformsToMessage(pool, draw, pool[name], i, depth, count, members)
    modifies budget
    ensures budget.fields == Capped(count + Size(pool, pool[name], i + 1, depth))
    ensures ConformsToMessage(pool, draw, pool[name], i + 1, depth, count, more)
    decreases MAX_GRPC_EXAMPLE_DEPTH + 1 - depth, 2
  {
    hide ConformsToMessage, ConformsToField, Shadowed, Resolved;
    var f := pool[name][i];
    budget.fields := budget.fields + 1;
    var value := FieldExample(pool, f, draw, depth, budget);
    MessageGrows(pool, draw, pool[name], i, depth, count, members, value);
    more := members[f.jsonName := value];
  }

  method FieldExample(pool: Pool, f: Field, draw: Draws, depth: nat, budget: Budget) returns (v: Json)
    requires Resolved(pool) && FieldKnown(pool, f)
    requires depth <= MAX_GRPC_EXAMPLE_DEPTH && budget.fields <= MAX_GRPC_EXAMPLE_FIELDS
    modifies budget
    ensures budget.fields == Capped(old(budget.fields) + FieldSize(pool, f, depth))
    ensures ConformsToField(pool, draw, f, depth, old(budget.fields), v)
    decreases MAX_GRPC_EXAMPLE_DEPTH + 1 - depth, 1
  {
    hide ConformsToKind, KindSize;
    match f.cardinality
    case Map(key, valueName, valueKind) =>
      var text := MapKeyExample(key, f.name, draw(Key(budget.fields)));
      var value := KindExample(pool, valueKind, valueName, draw, depth, budget);
      v := Obj(map[text := value]);
    case List =>
      var value := KindExample(pool, f.kind, f.name, draw, depth, budget);
      v := Arr([value]);
    case Single =>
      v := KindExample(pool, f.kind, f.name, draw, depth, budget);
  }

  /** request_example. The whole example conforms to its descriptor, and the count is its size up to the budget. */
  method RequestExample(pool: Pool, name: string, draw: Draws) returns (v: Json, counted: nat)
    requires Resolved(pool) && name in pool
    ensures counted == Capped(FullSize(pool, name))
    ensures v.Obj? && ConformsToMessage(pool, draw, pool[name], |pool[name]|, 0, 0, v.fields)
    ensures WellFormed(pool) ==> AcceptsMessage(pool, pool[name], v)
  {
    hide ConformsToMessage, AcceptsMessage, Size, WellFormed, Resolved;
    var budget := new Budget();
    v := MessageExample(pool, name, draw, 0, budget);
    counted := budget.fields;
    if WellFormed(pool) { MessageIsAccepted(pool, draw, name, 0, 0, v); }
  }

  /** The full names of the real oneofs the first n fields belong to. */
  ghost function OneofsAmong(fields: seq<Field>, n: nat): set<string>
    requires n <= |fields|
  {
    set i | 0 <= i < n && fields[i].oneof.Some? && !fields[i].oneof.value.synthetic :: fields[i].oneof.value.fullName
  }

  lemma NothingYet(pool: Pool, draw: Draws, fields: seq<Field>, depth: nat, count: nat)
    requires depth <= MAX_GRPC_EXAMPLE_DEPTH
    ensures ConformsToMessage(pool, draw, fields, 0, depth, count, map[])
    ensures OneofsAmong(fields, 0) == {} && Size(pool, fields, 0, depth) == 0
  {
  }

  /** What one more field adds to the oneofs seen. */
  lemma OneMoreField(pool: Pool, name: string, i: nat)
    requires Resolved(pool) && name in pool && i < |pool[name]|
    ensures var fields := pool[name]; var f := fields[i]; var member := f.oneof.Some? && !f.oneof.value.synthetic;
      && FieldKnown(pool, f)
      && (Shadowed(fields, i) <==> member && f.oneof.value.fullName in OneofsAmong(fields, i))
      && OneofsAmong(fields, i + 1) == OneofsAmong(fields, i) + (if member then {f.oneof.value.fullName} else {})
  {
  }

  lemma WrittenAdds(pool: Pool, fields: seq<Field>, i: nat, depth: nat, count: nat)
    requires i < |fields|
    ensures WrittenNames(pool, fields, i + 1, depth, count) ==
      WrittenNames(pool, fields, i, depth, count) +
          (if Written(pool, fields, i, depth, count) then {fields[i].jsonName} else {})
  {
    hide Written;
  }

  lemma MessagePasses(pool: Pool, draw: Draws, fields: seq<Field>, i: nat, depth: nat, count: nat,
                      members: map<string, Json>)
    requires depth <= MAX_GRPC_EXAMPLE_DEPTH && i < |fields|
    requires !Written(pool, fields, i, depth, count)
    requires ConformsToMessage(pool, draw, fields, i, depth, count, members)
    ensures ConformsToMessage(pool, draw, fields, i + 1, depth, count, members)
    ensures Shadowed(fields, i) ==> Size(pool, fields, i + 1, depth) == Size(pool, fields, i, depth)
  {
    WrittenAdds(pool, fields, i, depth, count);
    hide IsMember, Shadowed, Written, WrittenNames;
    var n := i + 1;
    forall key | key in members
      ensures exists j :: 0 <= j < n && IsMember(pool, draw, fields, j, n, depth, count, key, members[key])
    {
      var j :| 0 <= j < i && IsMember(pool, draw, fields, j, i, depth, count, key, members[key]);
      MemberStays(pool, draw, fields, j, i, depth, count, key, members[key]);
    }
  }

  /** Once the budget is used up, or at the end, the rest of the message changes nothing. */
  lemma {:induction false} NothingMore(pool: Pool, draw: Draws, fields: seq<Field>, i: nat, depth: nat, count: nat,
                                       members: map<string, Json>)
    requires depth <= MAX_GRPC_EXAMPLE_DEPTH && i <= |fields|
    requires i == |fields| || count + Size(pool, fields, i, depth) >= MAX_GRPC_EXAMPLE_FIELDS
    requires ConformsToMessage(pool, draw, fields, i, depth, count, members)
    ensures ConformsToMessage(pool, draw, fields, |fields|, depth, count, members)
    ensures Capped(count + Size(pool, fields, i, depth)) == Capped(count + Size(pool, fields, |fields|, depth))
    decreases |fields| - i
  {
    hide ConformsToMessage, Size, Shadowed;
    if i < |fields| {
      SizeGrows(pool, fields, i, i + 1, depth);
      MessagePasses(pool, draw, fields, i, depth, count, members);
      NothingMore(pool, draw, fields, i + 1, depth, count, members);
    }
  }

  lemma MessageGrows(pool: Pool, draw: Draws, fields: seq<Field>, i: nat, depth: nat, count: nat,
                     members: map<string, Json>, value: Json)
    requires depth <= MAX_GRPC_EXAMPLE_DEPTH && i < |fields| && Written(pool, fields, i, depth, count)
    requires ConformsToMessage(pool, draw, fields, i, depth, count, members)
    requires ConformsToField(pool, draw, fields[i], depth, count + Size(pool, fields, i, depth) + 1, value)
    ensures ConformsToMessage(pool, draw, fields, i + 1, depth, count, members[fields[i].jsonName := value])
  {
    hide ConformsToField, IsMember, Written, WrittenNames, Size, Shadowed;
    var name, n, more := fields[i].jsonName, i + 1, members[fields[i].jsonName := value];
    WrittenAdds(pool, fields, i, depth, count);
    assert more.Keys == members.Keys + {name};
    forall key | key in more
      ensures exists j :: 0 <= j < n && IsMember(pool, draw, fields, j, n, depth, count, key, more[key])
    {
      var j := GrownMember(pool, draw, fields, i, depth, count, members, value, key);
    }
  }

  lemma GrownMember(pool: Pool, draw: Draws, fields: seq<Field>, i: nat, depth: nat, count: nat,
                    members: map<string, Json>, value: Json, key: string) returns (j: nat)
    requires depth <= MAX_GRPC_EXAMPLE_DEPTH && i < |fields| && Written(pool, fields, i, depth, count)
    requires ConformsToMessage(pool, draw, fields, i, depth, count, members)
    requires ConformsToField(pool, draw, fields[i], depth, count + Size(pool, fields, i, depth) + 1, value)
    requires key in members || key == fields[i].jsonName
    ensures j < i + 1
    ensures IsMember(pool, draw, fields, j, i + 1, depth, count, key, members[fields[i].jsonName := value][key])
  {
    hide ConformsToField, Written, WrittenNames, Size, Shadowed;
    if key == fields[i].jsonName {
      j := i;
    } else {
      j :| 0 <= j < i && IsMember(pool, draw, fields, j, i, depth, count, key, members[key]);
      MemberStays(pool, draw, fields, j, i, depth, count, key, members[key]);
    }
  }

  lemma MemberStays(pool: Pool, draw: Draws, fields: seq<Field>, j: nat, i: nat, depth: nat, count: nat,
                    key: string, v: Json)
    requires depth <= MAX_GRPC_EXAMPLE_DEPTH && j < i < |fields|
    requires IsMember(pool, draw, fields, j, i, depth, count, key, v)
    requires Written(pool, fields, i, depth, count) ==> fields[i].jsonName != key
    ensures IsMember(pool, draw, fields, j, i + 1, depth, count, key, v)
  {
    hide ConformsToField, Written;
  }

  // ---------------------------------------------------------------------- complete examples

  /** Every field that is not shadowed appears, in every message above the depth limit. */
  ghost predicate IsWholeKind(pool: Pool, kind: Kind, depth: nat, v: Json)
    decreases MAX_GRPC_EXAMPLE_DEPTH + 1 - depth, 1
  {
    kind.Message? && depth < MAX_GRPC_EXAMPLE_DEPTH ==>
      v.Obj? && kind.name in pool && IsWholeMessage(pool, pool[kind.name], depth + 1, v.fields)
  }

  ghost predicate IsWholeField(pool: Pool, f: Field, depth: nat, v: Json)
    requires depth <= MAX_GRPC_EXAMPLE_DEPTH
    decreases MAX_GRPC_EXAMPLE_DEPTH + 1 - depth, 2
  {
    match f.cardinality
    case Single => IsWholeKind(pool, f.kind, depth, v)
    case List => v.Arr? && |v.items| == 1 && IsWholeKind(pool, f.kind, depth, v.items[0])
    case Map(_, _, valueKind) =>
      v.Obj? && |v.fields| == 1 && forall key :: key in v.fields ==> IsWholeKind(pool, valueKind, depth, v.fields[key])
  }

  ghost predicate IsWholeMessage(pool: Pool, fields: seq<Field>, depth: nat, members: map<string, Json>)
    requires depth <= MAX_GRPC_EXAMPLE_DEPTH
    decreases MAX_GRPC_EXAMPLE_DEPTH + 1 - depth, 3
  {
    forall i :: 0 <= i < |fields| && !Shadowed(fields, i) ==>
      fields[i].jsonName in members && IsWholeField(pool, fields[i], depth, members[fields[i].jsonName])
  }

  ghost predicate DistinctNames(pool: Pool) {
    forall name, i, j :: name in pool && 0 <= i < j < |pool[name]| ==> pool[name][i].jsonName != pool[name][j].jsonName
  }

  /** The key of a field belongs to that field. */
  lemma MemberOfField(pool: Pool, draw: Draws, name: string, depth: nat, count: nat, members: map<string, Json>, i: nat)
    requires DistinctNames(pool) && name in pool && depth <= MAX_GRPC_EXAMPLE_DEPTH && i < |pool[name]|
    requires ConformsToMessage(pool, draw, pool[name], |pool[name]|, depth, count, members)
    ensures var fields := pool[name]; var key := fields[i].jsonName;
      && (key in members <==> Written(pool, fields, i, depth, count))
      && (key in members ==> IsMember(pool, draw, fields, i, |fields|, depth, count, key, members[key]))
  {
    hide Written, ConformsToField;
    var fields, key := pool[name], pool[name][i].jsonName;
    if key in members {
      var j :| 0 <= j < |fields| && IsMember(pool, draw, fields, j, |fields|, depth, count, key, members[key]);
      assert j == i;
    }
  }

  /** The first field that does not fit into the rest of the budget. */
  lemma {:induction false} FieldBeyondBudget(pool: Pool, fields: seq<Field>, n: nat, depth: nat, room: nat)
      returns (i: nat)
    requires n <= |fields| && Size(pool, fields, n, depth) > room
    ensures i < n && !Shadowed(fields, i)
    ensures Size(pool, fields, i, depth) <= room < Size(pool, fields, i, depth) + 1 + FieldSize(pool, fields[i], depth)
    decreases n
  {
    if Size(pool, fields, n - 1, depth) > room {
      i := FieldBeyondBudget(pool, fields, n - 1, depth, room);
    } else {
      i := n - 1;
    }
  }

  lemma {:induction false} WholeKindFits(pool: Pool, draw: Draws, kind: Kind, fieldName: string, depth: nat,
                                         count: nat, v: Json)
    requires DistinctNames(pool) && depth <= MAX_GRPC_EXAMPLE_DEPTH && count <= MAX_GRPC_EXAMPLE_FIELDS
    requires ConformsToKind(pool, draw, kind, fieldName, depth, count, v)
    ensures IsWholeKind(pool, kind, depth, v) <==> count + KindSize(pool, kind, depth) <= MAX_GRPC_EXAMPLE_FIELDS
    decreases MAX_GRPC_EXAMPLE_DEPTH + 1 - depth, 1
  {
    hide ConformsToMessage, IsWholeMessage, DistinctNames, Size;
    if kind.Message? && depth < MAX_GRPC_EXAMPLE_DEPTH {
      WholeMessageFits(pool, draw, kind.name, depth + 1, count, v.fields);
    }
  }

  lemma {:induction false} WholeFieldFits(pool: Pool, draw: Draws, f: Field, depth: nat, count: nat, v: Json)
    requires DistinctNames(pool) && depth <= MAX_GRPC_EXAMPLE_DEPTH && count <= MAX_GRPC_EXAMPLE_FIELDS
    requires ConformsToField(pool, draw, f, depth, count, v)
    ensures IsWholeField(pool, f, depth, v) <==> count + FieldSize(pool, f, depth) <= MAX_GRPC_EXAMPLE_FIELDS
    decreases MAX_GRPC_EXAMPLE_DEPTH + 1 - depth, 2
  {
    hide ConformsToKind, IsWholeKind, DistinctNames, KindSize, MapKeyExample;
    match f.cardinality
    case Single => WholeKindFits(pool, draw, f.kind, f.name, depth, count, v);
    case List => WholeKindFits(pool, draw, f.kind, f.name, depth, count, v.items[0]);
    case Map(key, valueName, valueKind) =>
      var text := MapKeyExample(key, f.name, draw(Key(count)));
      assert |v.fields| == |v.fields.Keys| == 1;
      WholeKindFits(pool, draw, valueKind, valueName, depth, count, v.fields[text]);
  }

  /** Where the JSON names of each message differ, an example is complete if and only if it fits the budget. */
  lemma {:induction false} WholeMessageFits(pool: Pool, draw: Draws, name: string, depth: nat, count: nat,
                                            members: map<string, Json>)
    requires DistinctNames(pool) && name in pool && depth <= MAX_GRPC_EXAMPLE_DEPTH && count <= MAX_GRPC_EXAMPLE_FIELDS
    requires ConformsToMessage(pool, draw, pool[name], |pool[name]|, depth, count, members)
    ensures IsWholeMessage(pool, pool[name], depth, members)
       <==> count + Size(pool, pool[name], |pool[name]|, depth) <= MAX_GRPC_EXAMPLE_FIELDS
    decreases MAX_GRPC_EXAMPLE_DEPTH + 1 - depth, 3
  {
    hide ConformsToMessage, ConformsToField, IsWholeField, DistinctNames, Shadowed, Size, FieldSize;
    var fields := pool[name];
    if count + Size(pool, fields, |fields|, depth) > MAX_GRPC_EXAMPLE_FIELDS {
      var i := FieldBeyondBudget(pool, fields, |fields|, depth, MAX_GRPC_EXAMPLE_FIELDS - count);
      MemberOfField(pool, draw, name, depth, count, members, i);
      if fields[i].jsonName in members {
        WholeFieldFits(pool, draw, fields[i], depth, count + Size(pool, fields, i, depth) + 1,
            members[fields[i].jsonName]);
      }
    } else {
      forall i | 0 <= i < |fields| && !Shadowed(fields, i)
        ensures fields[i].jsonName in members && IsWholeField(pool, fields[i], depth, members[fields[i].jsonName])
      {
        SizeGrows(pool, fields, i, |fields|, depth);
        MemberOfField(pool, draw, name, depth, count, members, i);
        WholeFieldFits(pool, draw, fields[i], depth, count + Size(pool, fields, i, depth) + 1,
            members[fields[i].jsonName]);
      }
    }
  }

  /** There is one conforming example for the drawn identifiers. */
  lemma {:induction false} MessageIsDetermined(pool: Pool, draw: Draws, name: string, depth: nat, count: nat,
                                               members: map<string, Json>, others: map<string, Json>)
    requires name in pool && depth <= MAX_GRPC_EXAMPLE_DEPTH
    requires ConformsToMessage(pool, draw, pool[name], |pool[name]|, depth, count, members)
    requires ConformsToMessage(pool, draw, pool[name], |pool[name]|, depth, count, others)
    ensures members == others
    decreases MAX_GRPC_EXAMPLE_DEPTH + 1 - depth, 4
  {
    hide ConformsToField, Written, Shadowed, Size, IsMember;
    var fields := pool[name];
    assert members.Keys == others.Keys;
    forall key | key in members ensures members[key] == others[key] {
      var n := |fields|;
      var i :| 0 <= i < n && IsMember(pool, draw, fields, i, n, depth, count, key, members[key]);
      var j :| 0 <= j < n && IsMember(pool, draw, fields, j, n, depth, count, key, others[key]);
      hide ConformsToMessage;
      MemberIsDetermined(pool, draw, fields, i, j, depth, count, key, members[key], others[key]);
    }
  }

  lemma {:induction false} MemberIsDetermined(pool: Pool, draw: Draws, fields: seq<Field>, i: nat, j: nat, depth: nat,
                                              count: nat, key: string, v: Json, w: Json)
    requires depth <= MAX_GRPC_EXAMPLE_DEPTH && i < |fields| && j < |fields|
    requires IsMember(pool, draw, fields, i, |fields|, depth, count, key, v)
    requires IsMember(pool, draw, fields, j, |fields|, depth, count, key, w)
    ensures v == w
    decreases MAX_GRPC_EXAMPLE_DEPTH + 1 - depth, 3
  {
    hide ConformsToField, Written, Size;
    assert i == j;
    FieldIsDetermined(pool, draw, fields[i], depth, count + Size(pool, fields, i, depth) + 1, v, w);
  }

  lemma {:induction false} FieldIsDetermined(pool: Pool, draw: Draws, f: Field, depth: nat, count: nat, v: Json,
                                             w: Json)
    requires depth <= MAX_GRPC_EXAMPLE_DEPTH
    requires ConformsToField(pool, draw, f, depth, count, v) && ConformsToField(pool, draw, f, depth, count, w)
    ensures v == w
    decreases MAX_GRPC_EXAMPLE_DEPTH + 1 - depth, 2
  {
    hide ConformsToKind, MapKeyExample;
    match f.cardinality
    case Single => KindIsDetermined(pool, draw, f.kind, f.name, depth, count, v, w);
    case List => KindIsDetermined(pool, draw, f.kind, f.name, depth, count, v.items[0], w.items[0]);
    case Map(key, valueName, valueKind) =>
      var text := MapKeyExample(key, f.name, draw(Key(count)));
      KindIsDetermined(pool, draw, valueKind, valueName, depth, count, v.fields[text], w.fields[text]);
      assert v.fields == w.fields;
  }

  lemma {:induction false} KindIsDetermined(pool: Pool, draw: Draws, kind: Kind, fieldName: string, depth: nat,
                                            count: nat, v: Json, w: Json)
    requires depth <= MAX_GRPC_EXAMPLE_DEPTH
    requires ConformsToKind(pool, draw, kind, fieldName, depth, count, v)
    requires ConformsToKind(pool, draw, kind, fieldName, depth, count, w)
    ensures v == w
    decreases MAX_GRPC_EXAMPLE_DEPTH + 1 - depth, 1
  {
    hide ConformsToMessage, ScalarExample;
    if kind.Message? && depth < MAX_GRPC_EXAMPLE_DEPTH {
      MessageIsDetermined(pool, draw, kind.name, depth + 1, count, v.fields, w.fields);
    }
  }

  // ---------------------------------------------------------------------- examples are accepted

  ghost predicate AcceptsKind(pool: Pool, kind: Kind, v: Json)
    decreases v, 1
  {
    match kind
    case Plain(scalar) => AcceptsScalar(scalar, v)
    case Enum(numbers) => IsInteger(v) && (v.number.Floor in numbers || (numbers == [] && v.number == 0.0))
    case Message(name) => v.Obj? && name in pool && AcceptsMessage(pool, pool[name], v)
  }

  ghost predicate AcceptsField(pool: Pool, f: Field, v: Json)
    decreases v, 2
  {
    match f.cardinality
    case Single => AcceptsKind(pool, f.kind, v)
    case List => v.Arr? && forall i :: 0 <= i < |v.items| ==> AcceptsKind(pool, f.kind, v.items[i])
    case Map(key, _, valueKind) =>
      && v.Obj?
      && forall text :: text in v.fields ==> AcceptsKey(key, text) && AcceptsKind(pool, valueKind, v.fields[text])
  }

  /** Every member is known and acceptable, and no two belong to one real oneof. */
  ghost predicate AcceptsMessage(pool: Pool, fields: seq<Field>, v: Json)
    requires v.Obj?
    decreases v, 0
  {
    && (forall key :: key in v.fields ==> exists i :: 0 <= i < |fields| && fields[i].jsonName == key)
    && (forall i :: 0 <= i < |fields| && fields[i].jsonName in v.fields ==>
          AcceptsField(pool, fields[i], v.fields[fields[i].jsonName]))
    && forall i, j :: 0 <= i < j < |fields| && fields[i].jsonName in v.fields && fields[j].jsonName in v.fields ==>
         !InSameOneof(fields[i], fields[j])
  }

  predicate InSameOneof(f: Field, g: Field) {
    g.oneof.Some? && !g.oneof.value.synthetic && InOneof(f, g.oneof.value.fullName)
  }

  /** What every descriptor pool guarantees. */
  ghost predicate WellFormed(pool: Pool) {
    && Resolved(pool) && DistinctNames(pool)
    && forall name, i :: name in pool && 0 <= i < |pool[name]| ==> KeyAllowed(pool[name][i])
  }

  predicate KeyAllowed(f: Field) { f.cardinality.Map? ==> MayBeKey(f.cardinality.key) }

  lemma {:induction false} KindIsAccepted(pool: Pool, draw: Draws, kind: Kind, fieldName: string, depth: nat,
                                          count: nat, v: Json)
    requires WellFormed(pool) && KindKnown(pool, kind)
    requires ConformsToKind(pool, draw, kind, fieldName, depth, count, v)
    ensures AcceptsKind(pool, kind, v)
    decreases MAX_GRPC_EXAMPLE_DEPTH + 1 - depth, 1
  {
    hide ConformsToMessage, AcceptsMessage, WellFormed, AcceptsScalar, ScalarExample;
    match kind
    case Plain(scalar) => ScalarsFit(scalar, fieldName, draw(Value(count)));
    case Enum(numbers) => assert numbers != [] ==> numbers[0] in numbers;
    case Message(name) =>
      if depth < MAX_GRPC_EXAMPLE_DEPTH {
        MessageIsAccepted(pool, draw, name, depth + 1, count, v);
      } else {
        EmptyIsAccepted(pool, pool[name], v);
      }
  }

  lemma EmptyIsAccepted(pool: Pool, fields: seq<Field>, v: Json)
    requires v.Obj? && v.fields == map[]
    ensures AcceptsMessage(pool, fields, v)
  {
  }

  lemma {:induction false} FieldIsAccepted(pool: Pool, draw: Draws, f: Field, depth: nat, count: nat, v: Json)
    requires WellFormed(pool) && FieldKnown(pool, f) && KeyAllowed(f) && depth <= MAX_GRPC_EXAMPLE_DEPTH
    requires ConformsToField(pool, draw, f, depth, count, v)
    ensures AcceptsField(pool, f, v)
    decreases MAX_GRPC_EXAMPLE_DEPTH + 1 - depth, 2
  {
    hide ConformsToKind, AcceptsKind, WellFormed, AcceptsKey, MapKeyExample;
    match f.cardinality
    case Single => KindIsAccepted(pool, draw, f.kind, f.name, depth, count, v);
    case List => KindIsAccepted(pool, draw, f.kind, f.name, depth, count, v.items[0]);
    case Map(key, valueName, valueKind) =>
      var text := MapKeyExample(key, f.name, draw(Key(count)));
      MapKeysFit(key, f.name, draw(Key(count)));
      KindIsAccepted(pool, draw, valueKind, valueName, depth, count, v.fields[text]);
  }

  /** In a well-formed pool the message parser accepts every conforming example: each member is known and
      has a value of its type, at every depth, and no real oneof has two members. */
  lemma {:induction false} MessageIsAccepted(pool: Pool, draw: Draws, name: string, depth: nat, count: nat, v: Json)
    requires WellFormed(pool) && name in pool && depth <= MAX_GRPC_EXAMPLE_DEPTH && v.Obj?
    requires ConformsToMessage(pool, draw, pool[name], |pool[name]|, depth, count, v.fields)
    ensures AcceptsMessage(pool, pool[name], v)
    decreases MAX_GRPC_EXAMPLE_DEPTH + 1 - depth, 3
  {
    hide ConformsToField, AcceptsField, Size;
    var fields := pool[name];
    MembersAreFields(pool, draw, fields, depth, count, v.fields);
    hide ConformsToMessage;
    forall i | 0 <= i < |fields| && fields[i].jsonName in v.fields
      ensures AcceptsField(pool, fields[i], v.fields[fields[i].jsonName]) && !Shadowed(fields, i)
    {
      MemberOfField(pool, draw, name, depth, count, v.fields, i);
      var seen := count + Size(pool, fields, i, depth) + 1;
      FieldIsAccepted(pool, draw, fields[i], depth, seen, v.fields[fields[i].jsonName]);
    }
  }

  lemma MembersAreFields(pool: Pool, draw: Draws, fields: seq<Field>, depth: nat, count: nat,
                         members: map<string, Json>)
    requires depth <= MAX_GRPC_EXAMPLE_DEPTH
    requires ConformsToMessage(pool, draw, fields, |fields|, depth, count, members)
    ensures forall key :: key in members ==> exists i :: 0 <= i < |fields| && fields[i].jsonName == key
  {
    hide ConformsToField, Written;
  }
}
