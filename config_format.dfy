/** The config-value formatter of src/cli/utils.ts: the values a user gave
    for a server are matched against the server's configuration schema, a
    default fills in a value that was not given, a required key with neither
    is an error, and each value is coerced to the type its property
    declares. */
module ConfigFormat {
  import opened Text
  import opened Wrappers

  /** A JavaScript value as the formatter sees it. Only integral numbers are
      modelled. */
  datatype Value =
    | Undefined
    | Null
    | Bool(b: bool)
    | Num(n: int)
    | Str(s: string)
    | Arr(items: seq<Value>)
    | Obj(fields: map<string, Value>)

  /** The values `!value` holds for: "", 0, false, null and undefined.
      Arrays and objects are truthy, even empty ones. */
  predicate Falsy(v: Value) {
    match v
    case Undefined => true
    case Null => true
    case Bool(b) => !b
    case Num(n) => n == 0
    case Str(s) => |s| == 0
    case _ => false
  }

  function DigitChar(d: nat): char
    requires d < 10
  {
    "0123456789"[d]
  }

  function NatToString(n: nat): string
    decreases n
  {
    if n < 10 then [DigitChar(n)] else NatToString(n / 10) + [DigitChar(n % 10)]
  }

  /** `String(value)`. An array prints its elements joined by ",", a null or
      undefined element as the empty string; every object prints as
      "[object Object]". */
  function ToStr(v: Value): string
    decreases v
  {
    match v
    case Undefined => "undefined"
    case Null => "null"
    case Bool(b) => if b then "true" else "false"
    case Num(n) => if n < 0 then "-" + NatToString(-n) else NatToString(n)
    case Str(s) => s
    case Arr(items) =>
      Join(seq(|items|, i requires 0 <= i < |items| =>
                 if items[i].Undefined? || items[i].Null? then "" else ToStr(items[i])), ',')
    case Obj(_) => "[object Object]"
  }

  function TrimAll(pieces: seq<string>): (r: seq<string>)
    ensures |r| == |pieces| && forall i :: 0 <= i < |r| ==> r[i] == Trim(pieces[i])
  {
    seq(|pieces|, i requires 0 <= i < |pieces| => Trim(pieces[i]))
  }

  /** A list item as the array coercion produces it: non-empty, free of ","
      and without white space at either end. */
  predicate IsItem(s: string) {
    s != [] && ',' !in s && !IsSpace(s[0]) && !IsSpace(s[|s| - 1])
  }

  /** A string that is free of "," and has no white space at either end. */
  predicate Clean(x: string) {
    ',' !in x && (x == [] || (!IsSpace(x[0]) && !IsSpace(x[|x| - 1])))
  }

  /** Trimming a piece free of "," cleans it. */
  lemma TrimClean(p: string)
    requires ',' !in p
    ensures Clean(Trim(p))
  {
    TrimLacks(p, ',');
  }

  /** `s.split(",").map(item => item.trim()).filter(Boolean)`. */
  function SplitList(s: string): (items: seq<string>)
    ensures forall i :: 0 <= i < |items| ==> IsItem(items[i])
  {
    var pieces := Split(s, ',');
    SplitPiecesLackSep(s, ',');
    var trimmed := TrimAll(pieces);
    SplitListItems(pieces, trimmed);
    NonEmpty(trimmed)
  }

  lemma SplitListItems(pieces: seq<string>, trimmed: seq<string>)
    requires forall p :: p in pieces ==> ',' !in p
    requires trimmed == TrimAll(pieces)
    ensures forall i :: 0 <= i < |NonEmpty(trimmed)| ==> IsItem(NonEmpty(trimmed)[i])
  {
    forall x | x in trimmed
      ensures Clean(x)
    {
      var i :| 0 <= i < |trimmed| && trimmed[i] == x;
      assert pieces[i] in pieces;
      TrimClean(pieces[i]);
    }
    NonEmptyKeeps(trimmed);
    var r := NonEmpty(trimmed);
    forall i | 0 <= i < |r|
      ensures IsItem(r[i])
    {
      assert r[i] in trimmed && r[i] != "";
    }
  }

  /** Every string NonEmpty keeps comes from its input. */
  lemma {:induction false} NonEmptyKeeps(xs: seq<string>)
    ensures forall i :: 0 <= i < |NonEmpty(xs)| ==> NonEmpty(xs)[i] in xs
  {
    if xs != [] {
      NonEmptyKeeps(xs[1..]);
      var r := NonEmpty(xs);
      var tail := NonEmpty(xs[1..]);
      forall i | 0 <= i < |r|
        ensures r[i] in xs
      {
        if xs[0] == "" {
          assert r == tail;
        } else if i > 0 {
          assert r[i] == tail[i - 1];
        }
      }
    }
  }

  /** NonEmpty keeps a sequence of non-empty strings as it is. */
  lemma {:induction false} NonEmptyIdentity(xs: seq<string>)
    requires forall i :: 0 <= i < |xs| ==> xs[i] != ""
    ensures NonEmpty(xs) == xs
  {
    if xs != [] {
      NonEmptyIdentity(xs[1..]);
      assert [xs[0]] + xs[1..] == xs;
    }
  }

  function StrAll(items: seq<string>): (r: seq<Value>)
    ensures |r| == |items| && forall i :: 0 <= i < |r| ==> r[i] == Str(items[i])
  {
    seq(|items|, i requires 0 <= i < |items| => Str(items[i]))
  }

  /** The types convertValueToType coerces to. */
  predicate KnownType(t: string) {
    t == "boolean" || t == "number" || t == "integer" || t == "array"
  }

  /** convertValueToType. The "number" and "integer" branches are handed to
      `numeric`, which receives the type and the value. */
  function ConvertValueToType(value: Value, typ: Option<string>, numeric: (string, Value) -> Value): (r: Value)
    ensures typ.None? || typ == Some("") || Falsy(value) ==> r == value
    ensures typ.Some? && !KnownType(typ.value) ==> r == value
    ensures typ == Some("boolean") && !Falsy(value) ==> r.Bool?
    ensures typ == Some("array") && !Falsy(value) ==>
      r.Arr? && (value.Arr? ==> r == value)
      && (!value.Arr? ==> forall i :: 0 <= i < |r.items| ==> r.items[i].Str? && IsItem(r.items[i].s))
  {
    if typ.None? || typ.value == "" || Falsy(value) then value
    else if typ.value == "boolean" then Bool(ToLower(ToStr(value)) == "true")
    else if typ.value == "number" || typ.value == "integer" then numeric(typ.value, value)
    else if typ.value == "array" then (if value.Arr? then value else Arr(StrAll(SplitList(ToStr(value)))))
    else value
  }

  /** A truthy value coerced to "boolean" is true exactly when its string
      form is "true" in any mix of upper and lower case. */
  lemma BooleanCoercion(value: Value, numeric: (string, Value) -> Value)
    requires !Falsy(value)
    ensures var s := ToStr(value);
      ConvertValueToType(value, Some("boolean"), numeric) == Bool(
        |s| == 4 && (s[0] == 't' || s[0] == 'T') && (s[1] == 'r' || s[1] == 'R')
        && (s[2] == 'u' || s[2] == 'U') && (s[3] == 'e' || s[3] == 'E'))
  {
    LowerIsTrue(ToStr(value));
  }

  /** Coercing to "boolean" twice is coercing once: true stays true and
      false is falsy, so it passes through. */
  lemma BooleanIdempotent(value: Value, numeric: (string, Value) -> Value)
    ensures var once := ConvertValueToType(value, Some("boolean"), numeric);
      ConvertValueToType(once, Some("boolean"), numeric) == once
  {
    var once := ConvertValueToType(value, Some("boolean"), numeric);
    if once == Bool(true) {
      assert ToLower("true") == "true";
    }
  }

  /** Some concrete coercions: case does not matter, "1" and "yes" are not
      true, and an array prints as its elements. */
  lemma BooleanExamples(numeric: (string, Value) -> Value)
    ensures ConvertValueToType(Str("TRUE"), Some("boolean"), numeric) == Bool(true)
    ensures ConvertValueToType(Str("yes"), Some("boolean"), numeric) == Bool(false)
    ensures ConvertValueToType(Num(1), Some("boolean"), numeric) == Bool(false)
    ensures ConvertValueToType(Str("false"), Some("boolean"), numeric) == Bool(false)
    ensures ConvertValueToType(Arr([Str("True")]), Some("boolean"), numeric) == Bool(true)
  {
    BooleanCoercion(Str("TRUE"), numeric);
    BooleanCoercion(Str("yes"), numeric);
    BooleanCoercion(Num(1), numeric);
    BooleanCoercion(Str("false"), numeric);
    var a := Arr([Str("True")]);
    assert ToStr(a) == Join(["True"], ',') == "True";
    BooleanCoercion(a, numeric);
  }

  /** The "array" branch for a truthy value that is not an array. */
  lemma ArrayBranch(v: Value, numeric: (string, Value) -> Value)
    requires !Falsy(v) && !v.Arr?
    ensures ConvertValueToType(v, Some("array"), numeric) == Arr(StrAll(SplitList(ToStr(v))))
  {
  }

  /** Trimming clean strings changes nothing. */
  lemma TrimAllIdentity(items: seq<string>)
    requires forall i :: 0 <= i < |items| ==> IsItem(items[i])
    ensures TrimAll(items) == items
  {
    forall i | 0 <= i < |items|
      ensures Trim(items[i]) == items[i]
    {
      TrimUnchanged(items[i]);
    }
  }

  /** Splitting the ","-join of list items gives back the items. */
  lemma SplitListJoin(items: seq<string>)
    requires items != []
    requires forall i :: 0 <= i < |items| ==> IsItem(items[i])
    ensures SplitList(Join(items, ',')) == items
  {
    forall p | p in items
      ensures ',' !in p
    {
      var i :| 0 <= i < |items| && items[i] == p;
    }
    SplitJoin(items, ',');
    TrimAllIdentity(items);
    NonEmptyIdentity(items);
  }

  /** Joining list items with "," and coercing the result to "array" gives
      back the items, in order. */
  lemma ArrayRoundTrip(items: seq<string>, numeric: (string, Value) -> Value)
    requires items != []
    requires forall i :: 0 <= i < |items| ==> IsItem(items[i])
    ensures ConvertValueToType(Str(Join(items, ',')), Some("array"), numeric) == Arr(StrAll(items))
  {
    var s := Join(items, ',');
    JoinNonEmpty(items, ',');
    ArrayBranch(Str(s), numeric);
    assert ToStr(Str(s)) == s;
    SplitListJoin(items);
  }

  lemma JoinNonEmpty(parts: seq<string>, sep: char)
    requires parts != [] && parts[0] != []
    ensures Join(parts, sep) != []
  {
  }

  /** One schema property: its declared `type` and its `default` (Undefined
      when it has none). */
  datatype Property = Property(typ: Option<string>, default: Value)

  /** A server's configuration schema: its properties in the order
      `Object.entries` lists them, and its `required` list. */
  datatype Schema = Schema(properties: Option<seq<(string, Property)>>, required: Option<seq<string>>)

  type Config = map<string, Value>

  const MissingPrefix: string := "Missing required config value: "

  /** `configValues?.[key]`. */
  function Provided(values: Option<Config>, key: string): (v: Value)
    ensures values.None? || key !in values.value ==> v == Undefined
  {
    if values.Some? && key in values.value then values.value[key] else Undefined
  }

  /** `value ?? default`: null yields to the default too. */
  function Coalesce(value: Value, default: Value): (v: Value)
    ensures value != Undefined && value != Null ==> v == value
    ensures value == Undefined || value == Null ==> v == default
  {
    if value.Undefined? || value.Null? then default else value
  }

  /** Neither a value nor a default: the key gets no entry. */
  predicate Missing(values: Option<Config>, key: string, prop: Property) {
    Provided(values, key) == Undefined && prop.default == Undefined
  }

  /** What the formatter stores for a key that is not missing. */
  function Entry(values: Option<Config>, key: string, prop: Property, numeric: (string, Value) -> Value): Value {
    ConvertValueToType(Coalesce(Provided(values, key), prop.default), prop.typ, numeric)
  }

  /** The loop of FormatConfigValues over the remaining entries, from the
      values formatted so far. */
  function FoldEntries(entries: seq<(string, Property)>, values: Option<Config>, required: set<string>,
                       numeric: (string, Value) -> Value, acc: Config): Result<Config, string>
    decreases |entries|
  {
    if entries == [] then Ok(acc)
    else
      var key := entries[0].0;
      var prop := entries[0].1;
      if !Missing(values, key, prop) then
        FoldEntries(entries[1..], values, required, numeric, acc[key := Entry(values, key, prop, numeric)])
      else if key in required then Err(MissingPrefix + key)
      else FoldEntries(entries[1..], values, required, numeric, acc)
  }

  function RequiredSet(schema: Schema): set<string> {
    set k | k in schema.required.GetOr([])
  }

  /** What FormatConfigValues resolves to (Ok) or throws (Err). */
  function Format(schema: Option<Schema>, values: Option<Config>, numeric: (string, Value) -> Value): Result<Config, string> {
    if schema.None? || schema.value.properties.None? then Ok(values.GetOr(map[]))
    else FoldEntries(schema.value.properties.value, values, RequiredSet(schema.value), numeric, map[])
  }

  /** FormatConfigValues: walks the schema's properties in order, filling the
      output and throwing at the first required key that has neither a value
      nor a default. */
  method FormatConfigValues(schema: Option<Schema>, values: Option<Config>, numeric: (string, Value) -> Value)
    returns (r: Result<Config, string>)
    ensures r == Format(schema, values, numeric)
  {
    var formatted: Config := map[];
    if schema.None? || schema.value.properties.None? {
      return Ok(values.GetOr(map[]));
    }
    var entries := schema.value.properties.value;
    var required := RequiredSet(schema.value);
    var i := 0;
    while i < |entries|
      invariant 0 <= i <= |entries|
      invariant FoldEntries(entries, values, required, numeric, map[])
             == FoldEntries(entries[i..], values, required, numeric, formatted)
    {
      var key := entries[i].0;
      var prop := entries[i].1;
      assert entries[i..][1..] == entries[i + 1..];
      var value := Provided(values, key);
      if value != Undefined || prop.default != Undefined {
        formatted := formatted[key := ConvertValueToType(Coalesce(value, prop.default), prop.typ, numeric)];
      } else if key in required {
        return Err(MissingPrefix + key);
      }
      i := i + 1;
    }
    return Ok(formatted);
  }

  ghost predicate DistinctKeys(entries: seq<(string, Property)>) {
    forall i, j :: 0 <= i < j < |entries| ==> entries[i].0 != entries[j].0
  }

  predicate MissingRequiredAt(entries: seq<(string, Property)>, values: Option<Config>, required: set<string>, i: nat)
    requires i < |entries|
  {
    Missing(values, entries[i].0, entries[i].1) && entries[i].0 in required
  }

  /** The index of the first required entry with neither a value nor a default. */
  function FirstMissingRequired(entries: seq<(string, Property)>, values: Option<Config>, required: set<string>)
    : (r: Option<nat>)
    ensures r.Some? ==> (r.value < |entries| && MissingRequiredAt(entries, values, required, r.value)
                         && forall k :: 0 <= k < r.value ==> !MissingRequiredAt(entries, values, required, k))
    ensures r.None? ==> forall k :: 0 <= k < |entries| ==> !MissingRequiredAt(entries, values, required, k)
    decreases |entries|
  {
    if entries == [] then None
    else if MissingRequiredAt(entries, values, required, 0) then Some(0)
    else
      var rest := FirstMissingRequired(entries[1..], values, required);
      assert forall k :: 1 <= k < |entries| ==>
        MissingRequiredAt(entries, values, required, k) == MissingRequiredAt(entries[1..], values, required, k - 1);
      match rest
      case None => None
      case Some(j) => Some(j + 1)
  }

  /** The fold fails exactly when some required entry is missing, and then
      with the message naming the first of them. */
  lemma {:induction false} FoldError(entries: seq<(string, Property)>, values: Option<Config>, required: set<string>,
                                     numeric: (string, Value) -> Value, acc: Config)
    ensures var first := FirstMissingRequired(entries, values, required);
      match first
      case None => FoldEntries(entries, values, required, numeric, acc).Ok?
      case Some(j) => FoldEntries(entries, values, required, numeric, acc) == Err(MissingPrefix + entries[j].0)
    decreases |entries|
  {
    if entries != [] {
      var key := entries[0].0;
      var prop := entries[0].1;
      var next := if !Missing(values, key, prop) then acc[key := Entry(values, key, prop, numeric)] else acc;
      FoldError(entries[1..], values, required, numeric, next);
    }
  }

  /** A key no remaining entry names keeps what the values so far give it. */
  lemma {:induction false} FoldKeepsOthers(entries: seq<(string, Property)>, values: Option<Config>, required: set<string>,
                                           numeric: (string, Value) -> Value, acc: Config, k: string)
    requires forall i :: 0 <= i < |entries| ==> entries[i].0 != k
    ensures var r := FoldEntries(entries, values, required, numeric, acc);
      r.Ok? ==> (k in r.value <==> k in acc) && (k in acc ==> r.value[k] == acc[k])
    decreases |entries|
  {
    if entries != [] {
      var key := entries[0].0;
      var prop := entries[0].1;
      var next := if !Missing(values, key, prop) then acc[key := Entry(values, key, prop, numeric)] else acc;
      FoldKeepsOthers(entries[1..], values, required, numeric, next, k);
    }
  }

  /** The output keys are the keys so far and the keys of the entries. */
  lemma {:induction false} FoldKeys(entries: seq<(string, Property)>, values: Option<Config>, required: set<string>,
                                    numeric: (string, Value) -> Value, acc: Config)
    ensures var r := FoldEntries(entries, values, required, numeric, acc);
      r.Ok? ==> forall k :: k in r.value ==> k in acc || exists i :: 0 <= i < |entries| && entries[i].0 == k
    decreases |entries|
  {
    if entries != [] {
      var key := entries[0].0;
      var prop := entries[0].1;
      var next := if !Missing(values, key, prop) then acc[key := Entry(values, key, prop, numeric)] else acc;
      FoldKeys(entries[1..], values, required, numeric, next);
      var r := FoldEntries(entries, values, required, numeric, acc);
      if r.Ok? {
        assert r == FoldEntries(entries[1..], values, required, numeric, next);
        forall k | k in r.value
          ensures k in acc || exists i :: 0 <= i < |entries| && entries[i].0 == k
        {
          if k !in acc && k == key {
            assert entries[0].0 == k;
          } else if k !in acc {
            assert k !in next;
            assert k in FoldEntries(entries[1..], values, required, numeric, next).value;
            var i :| 0 <= i < |entries[1..]| && entries[1..][i].0 == k;
            assert entries[i + 1].0 == k;
          }
        }
      }
    }
  }

  /** With distinct keys, an entry that is not missing ends up in the output
      with its coerced value, and a missing one not at all. */
  lemma {:induction false} FoldEntryOutcome(entries: seq<(string, Property)>, values: Option<Config>, required: set<string>,
                                            numeric: (string, Value) -> Value, acc: Config, i: nat)
    requires DistinctKeys(entries) && i < |entries| && entries[i].0 !in acc
    ensures var r := FoldEntries(entries, values, required, numeric, acc);
      var key := entries[i].0;
      var prop := entries[i].1;
      r.Ok? ==> (key in r.value <==> !Missing(values, key, prop))
                && (!Missing(values, key, prop) ==> r.value[key] == Entry(values, key, prop, numeric))
    decreases |entries|
  {
    var key := entries[0].0;
    var prop := entries[0].1;
    var next := if !Missing(values, key, prop) then acc[key := Entry(values, key, prop, numeric)] else acc;
    if i == 0 {
      FoldKeepsOthers(entries[1..], values, required, numeric, next, key);
    } else {
      assert entries[1..][i - 1] == entries[i];
      assert DistinctKeys(entries[1..]) by {
        forall a, b | 0 <= a < b < |entries[1..]|
          ensures entries[1..][a].0 != entries[1..][b].0
        {
          assert entries[1..][a] == entries[a + 1] && entries[1..][b] == entries[b + 1];
        }
      }
      assert entries[0].0 != entries[i].0;
      FoldEntryOutcome(entries[1..], values, required, numeric, next, i - 1);
    }
  }

  /** Without `properties` the given values come back as they are, or an
      empty map when none were given. */
  lemma NoProperties(schema: Option<Schema>, values: Option<Config>, numeric: (string, Value) -> Value)
    requires schema.None? || schema.value.properties.None?
    ensures Format(schema, values, numeric) == Ok(if values.Some? then values.value else map[])
  {
  }

  /** An empty `properties` object is not missing: nothing is passed
      through. */
  lemma EmptyProperties(required: Option<seq<string>>, values: Option<Config>, numeric: (string, Value) -> Value)
    ensures Format(Some(Schema(Some([]), required)), values, numeric) == Ok(map[])
  {
  }

  /** Every output key is a property key: extra given values are dropped. */
  lemma OutputKeys(schema: Schema, values: Option<Config>, numeric: (string, Value) -> Value)
    requires schema.properties.Some?
    ensures var r := Format(Some(schema), values, numeric);
      var ps := schema.properties.value;
      r.Ok? ==> forall k :: k in r.value ==> exists i :: 0 <= i < |ps| && ps[i].0 == k
  {
    FoldKeys(schema.properties.value, values, RequiredSet(schema), numeric, map[]);
  }

  /** A given value other than undefined and null wins over the default, and
      is stored coerced to the property's type. */
  lemma ValueBeatsDefault(schema: Schema, values: Option<Config>, numeric: (string, Value) -> Value, i: nat)
    requires schema.properties.Some? && DistinctKeys(schema.properties.value) && i < |schema.properties.value|
    ensures var ps := schema.properties.value;
      var key := ps[i].0;
      var v := Provided(values, key);
      var r := Format(Some(schema), values, numeric);
      v != Undefined && v != Null && r.Ok? ==>
        key in r.value && r.value[key] == ConvertValueToType(v, ps[i].1.typ, numeric)
  {
    FoldEntryOutcome(schema.properties.value, values, RequiredSet(schema), numeric, map[], i);
  }

  /** A key given no value, or null, takes the default when there is one. */
  lemma DefaultFillsIn(schema: Schema, values: Option<Config>, numeric: (string, Value) -> Value, i: nat)
    requires schema.properties.Some? && DistinctKeys(schema.properties.value) && i < |schema.properties.value|
    ensures var ps := schema.properties.value;
      var key := ps[i].0;
      var v := Provided(values, key);
      var r := Format(Some(schema), values, numeric);
      (v == Undefined || v == Null) && ps[i].1.default != Undefined && r.Ok? ==>
        key in r.value && r.value[key] == ConvertValueToType(ps[i].1.default, ps[i].1.typ, numeric)
  {
    FoldEntryOutcome(schema.properties.value, values, RequiredSet(schema), numeric, map[], i);
  }

  /** A null value with no default is stored, as undefined. */
  lemma NullWithoutDefault(schema: Schema, values: Option<Config>, numeric: (string, Value) -> Value, i: nat)
    requires schema.properties.Some? && DistinctKeys(schema.properties.value) && i < |schema.properties.value|
    ensures var ps := schema.properties.value;
      var key := ps[i].0;
      var r := Format(Some(schema), values, numeric);
      Provided(values, key) == Null && ps[i].1.default == Undefined && r.Ok? ==>
        key in r.value && r.value[key] == Undefined
  {
    FoldEntryOutcome(schema.properties.value, values, RequiredSet(schema), numeric, map[], i);
  }

  /** A key with neither a value nor a default gets no entry. */
  lemma MissingKeyAbsent(schema: Schema, values: Option<Config>, numeric: (string, Value) -> Value, i: nat)
    requires schema.properties.Some? && DistinctKeys(schema.properties.value) && i < |schema.properties.value|
    ensures var ps := schema.properties.value;
      var r := Format(Some(schema), values, numeric);
      Missing(values, ps[i].0, ps[i].1) && r.Ok? ==> ps[i].0 !in r.value
  {
    FoldEntryOutcome(schema.properties.value, values, RequiredSet(schema), numeric, map[], i);
  }

  /** Formatting fails exactly when a required key has neither a value nor
      a default, and the error names the first such key in property order;
      a missing key that is not required is no error. */
  lemma MissingRequired(schema: Schema, values: Option<Config>, numeric: (string, Value) -> Value)
    requires schema.properties.Some?
    ensures var ps := schema.properties.value;
      var required := RequiredSet(schema);
      var r := Format(Some(schema), values, numeric);
      (r.Err? <==> exists i :: 0 <= i < |ps| && MissingRequiredAt(ps, values, required, i))
      && (r.Err? ==> exists j :: 0 <= j < |ps| && MissingRequiredAt(ps, values, required, j)
                      && (forall k :: 0 <= k < j ==> !MissingRequiredAt(ps, values, required, k))
                      && r.error == MissingPrefix + ps[j].0)
  {
    FoldError(schema.properties.value, values, RequiredSet(schema), numeric, map[]);
  }
}
