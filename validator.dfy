/** The validation of parsed tool calls against the JSON Schema of each
    tool's parameters (`src/fc/validator.rs`): the tool must exist, its
    arguments must be an object, and the arguments must satisfy the subset
    of JSON Schema the gateway checks (`allOf`, `anyOf`, `oneOf`, `const`,
    `enum`, `type`, string lengths and patterns, numeric bounds, required
    and additional properties, array items), to a depth of eight nested
    schemas. */
module Validator {
  import opened Wrappers
  import opened Bytes
  import opened JsonValue
  import Ints
  import Util
  import Canonical
  import FcParser

  /** `MAX_DEPTH`: deeper schemas are not looked at. */
  const MAX_DEPTH: nat := 8

  /** What an error reports; the path says where. */
  datatype Kind =
    | UnknownTool(allowed: seq<bytes>)
    | ArgumentsNotObject(got: bytes)
    | AnyOfUnsatisfied
    | OneOfMatched(count: nat)
    | ConstMismatch
    | EnumMismatch
    | TypeMismatch(got: bytes)
    | ShorterThanMin(min: nat)
    | LongerThanMax(max: nat)
    | PatternMismatch
    | BelowMinimum
    | AboveMaximum
    | MissingRequired(key: bytes)
    | UnexpectedProperty(key: bytes)

  /** `ValidationError`. */
  datatype ValidationError = ValidationError(path: bytes, kind: Kind)

  /** `ParsedToolCall`: a call's name and arguments. */
  datatype ParsedToolCall = ParsedToolCall(name: bytes, arguments: Json)

  /** The two operations the validator borrows from elsewhere: the `f64`
      comparison `as_f64(a) < as_f64(b)` of two JSON numbers, and regular
      expression matching (`None` when the pattern does not compile). */
  datatype Env = Env(lessF64: (Num, Num) -> bool, regexMatch: (bytes, bytes) -> Option<bool>)

  // ---------------------------------------------------------------------
  // Types
  // ---------------------------------------------------------------------

  const I64_MIN: int := -0x8000_0000_0000_0000

  /** `is_i64() || is_u64()`: an integer that serde keeps as an integer. */
  predicate IsInteger(v: Json) {
    v.Number? && v.n.Int? && I64_MIN <= v.n.i < Ints.U64_LIMIT
  }

  /** `json_type_name`. */
  function JsonTypeName(v: Json): (name: bytes)
    ensures name in TYPE_NAMES
  {
    match v
    case Null => "null"
    case Bool(_) => "boolean"
    case Number(_) => if IsInteger(v) then "integer" else "number"
    case Str(_) => "string"
    case Array(_) => "array"
    case Object(_) => "object"
  }

  /** The type names JSON Schema defines. */
  const TYPE_NAMES: seq<bytes> := ["object", "array", "string", "boolean", "integer", "number", "null"]

  /** `type_ok`: whether a value has the named type; an unknown name accepts
      everything. */
  function TypeOk(t: bytes, v: Json): bool {
    if t == "object" then v.Object?
    else if t == "array" then v.Array?
    else if t == "string" then v.Str?
    else if t == "boolean" then v.Bool?
    else if t == "integer" then IsInteger(v)
    else if t == "number" then v.Number?
    else if t == "null" then v.Null?
    else true
  }

  /** A value has exactly the type it is named after, and numbers also
      include integers; every value has its own type, and names outside
      the seven accept everything. */
  lemma {:induction false} TypeOkMeaning(t: bytes, v: Json)
    ensures TypeOk(JsonTypeName(v), v)
    ensures t in TYPE_NAMES ==>
      (TypeOk(t, v) <==> JsonTypeName(v) == t || (t == "number" && JsonTypeName(v) == "integer"))
    ensures t !in TYPE_NAMES ==> TypeOk(t, v)
  {
  }

  // ---------------------------------------------------------------------
  // Reading the schema
  // ---------------------------------------------------------------------

  /** `get(key).and_then(as_array)`. */
  function ArrayAt(s: seq<(bytes, Json)>, key: bytes): (r: Option<seq<Json>>)
    ensures r.Some? <==> Lookup(s, key).Some? && Lookup(s, key).value.Array?
    ensures r.Some? ==> r.value == Lookup(s, key).value.items
  {
    match Lookup(s, key)
    case Some(Array(items)) => Some(items)
    case _ => None
  }

  /** A `null` sub-schema counts as the empty schema. */
  function SubSchema(sub: Json): (r: Json)
    ensures sub.Null? ==> r == Object([])
    ensures !sub.Null? ==> r == sub
  {
    if sub.Null? then Object([]) else sub
  }

  /** `has_implicit_object_type`. */
  predicate HasImplicitObjectType(s: seq<(bytes, Json)>) {
    Lookup(s, "properties").Some? || Lookup(s, "required").Some? || Lookup(s, "additionalProperties").Some?
  }

  /** The measure of the recursion: how many levels are still looked at. */
  function Levels(depth: nat): nat {
    if depth > MAX_DEPTH then 0 else MAX_DEPTH + 1 - depth
  }

  /** `concat` of error lists. */
  function Concat(ss: seq<seq<ValidationError>>): seq<ValidationError> {
    if |ss| == 0 then [] else Concat(ss[..|ss| - 1]) + ss[|ss| - 1]
  }

  // ---------------------------------------------------------------------
  // validate_value
  // ---------------------------------------------------------------------

  /** `validate_value`: the errors of `value` against `schema`, reported at
      `path` and below. Past `MAX_DEPTH`, and for a schema that is not an
      object, nothing is checked. A combinator decides alone; otherwise a
      `const`/`enum` error or a type error is the only error; otherwise the
      string, numeric, object and array constraints are checked. */
  function ValidateValue(value: Json, schema: Json, path: bytes, depth: nat, env: Env): (errs: seq<ValidationError>)
    ensures depth > MAX_DEPTH ==> errs == []
    decreases Levels(depth), 3
  {
    if depth > MAX_DEPTH || !schema.Object? then []
    else
      var s := schema.fields;
      match Combinators(value, s, path, depth, env)
      case Some(errs) => errs
      case None =>
        var ce := ConstEnumErrors(value, s, path);
        if ce != [] then ce
        else
          var te := TypeErrors(value, s, path);
          if te != [] then te
          else
            StringErrors(value, s, path, env) + NumericErrors(value, s, path, env)
            + ObjectErrors(value, s, path, depth, env) + ArrayErrors(value, s, path, depth, env)
  }

  /** `validate_combinators`: `allOf` collects the errors of every
      sub-schema, each at its own path; `anyOf` fails when no sub-schema
      accepts the value; `oneOf` fails unless exactly one does. A `null`
      sub-schema is the empty schema. */
  function Combinators(value: Json, s: seq<(bytes, Json)>, path: bytes, depth: nat, env: Env): Option<seq<ValidationError>>
    requires depth <= MAX_DEPTH
    decreases Levels(depth), 2
  {
    match ArrayAt(s, "allOf")
    case Some(subs) => Some(Concat(AllOfResults(value, subs, path, depth, env)))
    case None =>
      match ArrayAt(s, "anyOf")
      case Some(subs) =>
        var results := OptionResults(value, subs, path, depth, env);
        Some(if exists i | 0 <= i < |results| :: results[i] == [] then [] else [ValidationError(path, AnyOfUnsatisfied)])
      case None =>
        match ArrayAt(s, "oneOf")
        case Some(subs) =>
          var n := CountEmpty(OptionResults(value, subs, path, depth, env));
          Some(if n == 1 then [] else [ValidationError(path, OneOfMatched(n))])
        case None => None
  }

  /** The path of the `i`-th `allOf` sub-schema. */
  function AllOfPath(path: bytes, i: nat): bytes {
    path + ".allOf[" + Util.Decimal(i) + "]"
  }

  /** The errors of each `allOf` sub-schema, at its own path. */
  function AllOfResults(value: Json, subs: seq<Json>, path: bytes, depth: nat, env: Env): (r: seq<seq<ValidationError>>)
    requires depth <= MAX_DEPTH
    ensures |r| == |subs|
    decreases Levels(depth), 0
  {
    seq(|subs|, i requires 0 <= i < |subs| => ValidateValue(value, SubSchema(subs[i]), AllOfPath(path, i), depth + 1, env))
  }

  /** The errors of each `anyOf`/`oneOf` option, at the path of the value. */
  function OptionResults(value: Json, subs: seq<Json>, path: bytes, depth: nat, env: Env): (r: seq<seq<ValidationError>>)
    requires depth <= MAX_DEPTH
    ensures |r| == |subs|
    decreases Levels(depth), 0
  {
    seq(|subs|, i requires 0 <= i < |subs| => ValidateValue(value, SubSchema(subs[i]), path, depth + 1, env))
  }

  /** How many of the results are empty. */
  function CountEmpty(results: seq<seq<ValidationError>>): (n: nat)
    ensures n <= |results|
  {
    if |results| == 0 then 0
    else CountEmpty(results[..|results| - 1]) + (if results[|results| - 1] == [] then 1 else 0)
  }

  /** `validate_const_enum`: a value different from `const`, or outside
      `enum`, gives one error. */
  function ConstEnumErrors(value: Json, s: seq<(bytes, Json)>, path: bytes): (errs: seq<ValidationError>)
    ensures |errs| <= 1
  {
    if Lookup(s, "const").Some? && Lookup(s, "const").value != value then [ValidationError(path, ConstMismatch)]
    else
      match ArrayAt(s, "enum")
      case Some(vals) => if value !in vals then [ValidationError(path, EnumMismatch)] else []
      case None => []
  }

  /** `validate_type_constraints` and, without `type`, the implicit object
      type of a schema with `properties`, `required` or
      `additionalProperties`: a value of another type gives one error. A
      `type` that is neither a string nor an array checks nothing. */
  function TypeErrors(value: Json, s: seq<(bytes, Json)>, path: bytes): (errs: seq<ValidationError>)
    ensures |errs| <= 1
  {
    var mismatch := [ValidationError(path, TypeMismatch(JsonTypeName(value)))];
    match Lookup(s, "type")
    case Some(Str(t)) => if TypeOk(t, value) then [] else mismatch
    case Some(Array(types)) =>
      if exists k | 0 <= k < |types| :: types[k].Str? && TypeOk(types[k].s, value) then [] else mismatch
    case Some(_) => []
    case None => if HasImplicitObjectType(s) && !value.Object? then mismatch else []
  }

  /** `validate_string_constraints`: byte length against `minLength` and
      `maxLength`, and the `pattern` when it compiles. */
  function StringErrors(value: Json, s: seq<(bytes, Json)>, path: bytes, env: Env): (errs: seq<ValidationError>)
    ensures !value.Str? ==> errs == []
  {
    if !value.Str? then []
    else
      var text := value.s;
      (match GetU64(Object(s), "minLength")
       case Some(min) => if |text| < min then [ValidationError(path, ShorterThanMin(min))] else []
       case None => [])
      + (match GetU64(Object(s), "maxLength")
         case Some(max) => if |text| > max then [ValidationError(path, LongerThanMax(max))] else []
         case None => [])
      + (match GetStr(Object(s), "pattern")
         case Some(p) => if env.regexMatch(p, text) == Some(false) then [ValidationError(path, PatternMismatch)] else []
         case None => [])
  }

  /** `validate_numeric_constraints`: a number below `minimum` or above
      `maximum`, compared as `f64`. */
  function NumericErrors(value: Json, s: seq<(bytes, Json)>, path: bytes, env: Env): (errs: seq<ValidationError>)
    ensures !value.Number? ==> errs == []
  {
    if !value.Number? then []
    else
      (match Lookup(s, "minimum")
       case Some(Number(min)) => if env.lessF64(value.n, min) then [ValidationError(path, BelowMinimum)] else []
       case _ => [])
      + (match Lookup(s, "maximum")
         case Some(Number(max)) => if env.lessF64(max, value.n) then [ValidationError(path, AboveMaximum)] else []
         case _ => [])
  }

  /** `validate_object_constraints`: each string in `required` missing from
      the object, then each member in order: checked against its property
      schema when there is one, otherwise rejected by
      `additionalProperties: false` or checked against an object
      `additionalProperties`. */
  function ObjectErrors(value: Json, s: seq<(bytes, Json)>, path: bytes, depth: nat, env: Env): (errs: seq<ValidationError>)
    requires depth <= MAX_DEPTH
    ensures !value.Object? ==> errs == []
    decreases Levels(depth), 2
  {
    if !value.Object? then []
    else
      var required := match ArrayAt(s, "required") case Some(keys) => MissingKeys(value.fields, keys, path) case None => [];
      required + Concat(MemberResults(value.fields, s, path, depth, env))
  }

  /** The property schemas of a schema (`properties`, or none). */
  function Properties(s: seq<(bytes, Json)>): seq<(bytes, Json)> {
    match Lookup(s, "properties")
    case Some(Object(p)) => p
    case _ => []
  }

  /** The path of a member of an object. */
  function MemberPath(path: bytes, key: bytes): bytes {
    path + "." + key
  }

  /** The errors of each member of an object. */
  function MemberResults(fields: seq<(bytes, Json)>, s: seq<(bytes, Json)>, path: bytes, depth: nat, env: Env)
    : (r: seq<seq<ValidationError>>)
    requires depth <= MAX_DEPTH
    ensures |r| == |fields|
    decreases Levels(depth), 1
  {
    seq(|fields|, i requires 0 <= i < |fields| => MemberErrors(fields[i], s, path, depth, env))
  }

  /** The errors of one member: against its property schema when there is
      one, otherwise rejected by `additionalProperties: false` or checked
      against an object `additionalProperties`. */
  function MemberErrors(member: (bytes, Json), s: seq<(bytes, Json)>, path: bytes, depth: nat, env: Env)
    : seq<ValidationError>
    requires depth <= MAX_DEPTH
    decreases Levels(depth), 0
  {
    var key := member.0;
    match Lookup(Properties(s), key)
    case Some(propSchema) => ValidateValue(member.1, propSchema, MemberPath(path, key), depth + 1, env)
    case None =>
      match Lookup(s, "additionalProperties")
      case Some(Bool(false)) => [ValidationError(path, UnexpectedProperty(key))]
      case Some(Object(a)) => ValidateValue(member.1, Object(a), MemberPath(path, key), depth + 1, env)
      case _ => []
  }

  /** The `required` keys, in order, that the object lacks; entries that
      are not strings are ignored. */
  function MissingKeys(fields: seq<(bytes, Json)>, keys: seq<Json>, path: bytes): seq<ValidationError> {
    if |keys| == 0 then []
    else
      MissingKeys(fields, keys[..|keys| - 1], path)
      + (var k := keys[|keys| - 1]; if k.Str? && Lookup(fields, k.s).None? then [ValidationError(path, MissingRequired(k.s))] else [])
  }

  /** The path of an array element. */
  function ItemPath(path: bytes, i: nat): bytes {
    path + "[" + Util.Decimal(i) + "]"
  }

  /** `validate_array_constraints`: each element against an object `items`
      schema, at its own path. */
  function ArrayErrors(value: Json, s: seq<(bytes, Json)>, path: bytes, depth: nat, env: Env): (errs: seq<ValidationError>)
    requires depth <= MAX_DEPTH
    ensures !value.Array? ==> errs == []
    decreases Levels(depth), 2
  {
    if !value.Array? then []
    else
      match Lookup(s, "items")
      case Some(Object(o)) => Concat(ItemResults(value.items, o, path, depth, env))
      case _ => []
  }

  /** The errors of each element of an array against the item schema. */
  function ItemResults(items: seq<Json>, o: seq<(bytes, Json)>, path: bytes, depth: nat, env: Env)
    : (r: seq<seq<ValidationError>>)
    requires depth <= MAX_DEPTH
    ensures |r| == |items|
    decreases Levels(depth), 1
  {
    seq(|items|, i requires 0 <= i < |items| => ValidateValue(items[i], Object(o), ItemPath(path, i), depth + 1, env))
  }

  // ---------------------------------------------------------------------
  // What the errors say
  // ---------------------------------------------------------------------

  /** `Concat` is empty exactly when every list is. */
  lemma {:induction false} ConcatEmpty(ss: seq<seq<ValidationError>>)
    ensures Concat(ss) == [] <==> forall i | 0 <= i < |ss| :: ss[i] == []
  {
    if |ss| > 0 {
      ConcatEmpty(ss[..|ss| - 1]);
      assert forall i | 0 <= i < |ss| - 1 :: ss[..|ss| - 1][i] == ss[i];
    }
  }

  /** Every error is reported at `path` or below it. */
  predicate Below(errs: seq<ValidationError>, path: bytes) {
    forall e | e in errs :: StartsWith(e.path, path)
  }

  lemma {:induction false} ConcatBelow(ss: seq<seq<ValidationError>>, path: bytes)
    requires forall i | 0 <= i < |ss| :: Below(ss[i], path)
    ensures Below(Concat(ss), path)
  {
    if |ss| > 0 {
      ConcatBelow(ss[..|ss| - 1], path);
    }
  }

  /** Errors below a longer path are below its prefix. */
  lemma {:induction false} ExtendBelow(errs: seq<ValidationError>, path: bytes, ext: bytes)
    requires Below(errs, path + ext)
    ensures Below(errs, path)
  {
    forall e | e in errs
      ensures StartsWith(e.path, path)
    {
      assert e.path[..|path|] == e.path[..|path + ext|][..|path|] == (path + ext)[..|path|] == path;
    }
  }

  /** Errors all at `path` are below it. */
  lemma {:induction false} AtBelow(errs: seq<ValidationError>, path: bytes)
    requires forall e | e in errs :: e.path == path
    ensures Below(errs, path)
  {
    assert path[..|path|] == path;
  }

  /** The required-key errors are all at the object's path. */
  lemma {:induction false} MissingKeysAt(fields: seq<(bytes, Json)>, keys: seq<Json>, path: bytes)
    ensures forall e | e in MissingKeys(fields, keys, path) :: e.path == path
  {
    if |keys| > 0 {
      MissingKeysAt(fields, keys[..|keys| - 1], path);
    }
  }

  /** Every error of `validate_value` is reported at the path it was given
      or below it: a sub-schema's errors carry its own path. */
  lemma {:induction false} ErrorsBelowPath(value: Json, schema: Json, path: bytes, depth: nat, env: Env)
    ensures Below(ValidateValue(value, schema, path, depth, env), path)
    decreases Levels(depth), 3
  {
    if depth <= MAX_DEPTH && schema.Object? {
      var s := schema.fields;
      CombinatorsBelow(value, s, path, depth, env);
      ObjectBelow(value, s, path, depth, env);
      ArrayBelow(value, s, path, depth, env);
      AtBelow(ConstEnumErrors(value, s, path), path);
      AtBelow(TypeErrors(value, s, path), path);
      AtBelow(StringErrors(value, s, path, env) + NumericErrors(value, s, path, env), path);
    }
  }

  lemma {:induction false} CombinatorsBelow(value: Json, s: seq<(bytes, Json)>, path: bytes, depth: nat, env: Env)
    requires depth <= MAX_DEPTH
    ensures Combinators(value, s, path, depth, env).Some? ==> Below(Combinators(value, s, path, depth, env).value, path)
    decreases Levels(depth), 2
  {
    match ArrayAt(s, "allOf")
    case Some(subs) =>
      var results := AllOfResults(value, subs, path, depth, env);
      forall i | 0 <= i < |results|
        ensures Below(results[i], path)
      {
        var ext := ".allOf[" + Util.Decimal(i) + "]";
        assert AllOfPath(path, i) == path + ext;
        ErrorsBelowPath(value, SubSchema(subs[i]), AllOfPath(path, i), depth + 1, env);
        ExtendBelow(results[i], path, ext);
      }
      ConcatBelow(results, path);
    case None =>
      AtBelow([ValidationError(path, AnyOfUnsatisfied)], path);
  }

  lemma {:induction false} ObjectBelow(value: Json, s: seq<(bytes, Json)>, path: bytes, depth: nat, env: Env)
    requires depth <= MAX_DEPTH
    ensures Below(ObjectErrors(value, s, path, depth, env), path)
    decreases Levels(depth), 2
  {
    if value.Object? {
      var results := MemberResults(value.fields, s, path, depth, env);
      forall i | 0 <= i < |results|
        ensures Below(results[i], path)
      {
        var key := value.fields[i].0;
        assert results[i] == MemberErrors(value.fields[i], s, path, depth, env);
        assert MemberPath(path, key) == path + ("." + key);
        match Lookup(Properties(s), key)
        case Some(propSchema) =>
          ErrorsBelowPath(value.fields[i].1, propSchema, MemberPath(path, key), depth + 1, env);
          ExtendBelow(results[i], path, "." + key);
        case None =>
          match Lookup(s, "additionalProperties")
          case Some(Object(a)) =>
            ErrorsBelowPath(value.fields[i].1, Object(a), MemberPath(path, key), depth + 1, env);
            ExtendBelow(results[i], path, "." + key);
          case _ =>
            AtBelow(results[i], path);
      }
      ConcatBelow(results, path);
      match ArrayAt(s, "required")
      case Some(keys) =>
        MissingKeysAt(value.fields, keys, path);
        AtBelow(MissingKeys(value.fields, keys, path), path);
      case None =>
    }
  }

  lemma {:induction false} ArrayBelow(value: Json, s: seq<(bytes, Json)>, path: bytes, depth: nat, env: Env)
    requires depth <= MAX_DEPTH
    ensures Below(ArrayErrors(value, s, path, depth, env), path)
    decreases Levels(depth), 2
  {
    if value.Array? {
      match Lookup(s, "items")
      case Some(Object(o)) =>
        var results := ItemResults(value.items, o, path, depth, env);
        forall i | 0 <= i < |results|
          ensures Below(results[i], path)
        {
          var ext := "[" + Util.Decimal(i) + "]";
          assert ItemPath(path, i) == path + ext;
          ErrorsBelowPath(value.items[i], Object(o), ItemPath(path, i), depth + 1, env);
          ExtendBelow(results[i], path, ext);
        }
        ConcatBelow(results, path);
      case _ =>
    }
  }

  // ---------------------------------------------------------------------
  // What each keyword checks
  // ---------------------------------------------------------------------

  const COMBINATOR_KEYWORDS: seq<bytes> := ["allOf", "anyOf", "oneOf"]
  const CONSTRAINT_KEYWORDS: seq<bytes> :=
    ["minLength", "maxLength", "pattern", "minimum", "maximum", "properties", "required", "additionalProperties", "items"]

  /** None of `keys` is a member of the schema. */
  predicate Lacks(s: seq<(bytes, Json)>, keys: seq<bytes>) {
    forall k | k in keys :: Lookup(s, k).None?
  }

  lemma {:induction false} LacksSingle(key: bytes, v: Json, keys: seq<bytes>)
    requires key !in keys
    ensures Lacks([(key, v)], keys)
  {
  }

  lemma {:induction false} NoCombinators(value: Json, s: seq<(bytes, Json)>, path: bytes, depth: nat, env: Env)
    requires depth <= MAX_DEPTH && Lacks(s, COMBINATOR_KEYWORDS)
    ensures Combinators(value, s, path, depth, env).None?
  {
    assert "allOf" in COMBINATOR_KEYWORDS && "anyOf" in COMBINATOR_KEYWORDS && "oneOf" in COMBINATOR_KEYWORDS;
  }

  /** The errors of the members of an object whose schema has neither
      `properties` nor `additionalProperties`: none. */
  lemma {:induction false} MembersUnchecked(fields: seq<(bytes, Json)>, s: seq<(bytes, Json)>, path: bytes, depth: nat, env: Env)
    requires depth <= MAX_DEPTH
    requires Lookup(s, "properties").None? && Lookup(s, "additionalProperties").None?
    ensures Concat(MemberResults(fields, s, path, depth, env)) == []
  {
    var results := MemberResults(fields, s, path, depth, env);
    assert Properties(s) == [];
    forall i | 0 <= i < |results|
      ensures results[i] == []
    {
      assert results[i] == MemberErrors(fields[i], s, path, depth, env);
    }
    ConcatEmpty(results);
  }

  lemma {:induction false} NoConstraints(value: Json, s: seq<(bytes, Json)>, path: bytes, depth: nat, env: Env)
    requires depth <= MAX_DEPTH && Lacks(s, CONSTRAINT_KEYWORDS)
    ensures StringErrors(value, s, path, env) == [] && NumericErrors(value, s, path, env) == []
    ensures ObjectErrors(value, s, path, depth, env) == [] && ArrayErrors(value, s, path, depth, env) == []
  {
    assert "minLength" in CONSTRAINT_KEYWORDS && "maxLength" in CONSTRAINT_KEYWORDS && "pattern" in CONSTRAINT_KEYWORDS;
    assert "minimum" in CONSTRAINT_KEYWORDS && "maximum" in CONSTRAINT_KEYWORDS && "items" in CONSTRAINT_KEYWORDS;
    assert "properties" in CONSTRAINT_KEYWORDS && "additionalProperties" in CONSTRAINT_KEYWORDS;
    assert "required" in CONSTRAINT_KEYWORDS;
    if value.Object? {
      MembersUnchecked(value.fields, s, path, depth, env);
    }
  }

  /** A schema of only `const`, `enum` and `type` reports the `const`/`enum`
      error if there is one, and otherwise the type error if there is one. */
  lemma {:induction false} OnlyValueKeywords(value: Json, s: seq<(bytes, Json)>, path: bytes, depth: nat, env: Env)
    requires depth <= MAX_DEPTH && Lacks(s, COMBINATOR_KEYWORDS) && Lacks(s, CONSTRAINT_KEYWORDS)
    ensures ValidateValue(value, Object(s), path, depth, env)
      == if ConstEnumErrors(value, s, path) != [] then ConstEnumErrors(value, s, path) else TypeErrors(value, s, path)
    ensures !HasImplicitObjectType(s)
  {
    assert "properties" in CONSTRAINT_KEYWORDS && "additionalProperties" in CONSTRAINT_KEYWORDS;
    assert "required" in CONSTRAINT_KEYWORDS;
    NoCombinators(value, s, path, depth, env);
    NoConstraints(value, s, path, depth, env);
  }

  /** The empty schema accepts every value. */
  lemma {:induction false} EmptySchemaAcceptsAll(value: Json, path: bytes, depth: nat, env: Env)
    ensures ValidateValue(value, Object([]), path, depth, env) == []
  {
    if depth <= MAX_DEPTH {
      OnlyValueKeywords(value, [], path, depth, env);
    }
  }

  /** `{"const": c}` accepts exactly `c`, and reports anything else once at
      the value's path. */
  lemma {:induction false} ConstSchema(value: Json, c: Json, path: bytes, depth: nat, env: Env)
    requires depth <= MAX_DEPTH
    ensures ValidateValue(value, Object([("const", c)]), path, depth, env)
      == if value == c then [] else [ValidationError(path, ConstMismatch)]
  {
    LacksSingle("const", c, COMBINATOR_KEYWORDS);
    LacksSingle("const", c, CONSTRAINT_KEYWORDS);
    OnlyValueKeywords(value, [("const", c)], path, depth, env);
    assert "const"[0] != "enum"[0] && "const"[0] != "type"[0];
    LacksSingle("const", c, ["enum", "type"]);
    assert "enum" in ["enum", "type"] && "type" in ["enum", "type"];
  }

  /** `{"enum": [...]}` accepts exactly the listed values. */
  lemma {:induction false} EnumSchema(value: Json, vals: seq<Json>, path: bytes, depth: nat, env: Env)
    requires depth <= MAX_DEPTH
    ensures ValidateValue(value, Object([("enum", Array(vals))]), path, depth, env)
      == if value in vals then [] else [ValidationError(path, EnumMismatch)]
  {
    LacksSingle("enum", Array(vals), COMBINATOR_KEYWORDS);
    LacksSingle("enum", Array(vals), CONSTRAINT_KEYWORDS);
    OnlyValueKeywords(value, [("enum", Array(vals))], path, depth, env);
    EnumErrors(value, vals, path);
  }

  /** Under `{"enum": [...]}` only the enumeration can fail. */
  lemma {:induction false} EnumErrors(value: Json, vals: seq<Json>, path: bytes)
    ensures ConstEnumErrors(value, [("enum", Array(vals))], path)
      == if value in vals then [] else [ValidationError(path, EnumMismatch)]
    ensures !HasImplicitObjectType([("enum", Array(vals))]) ==> TypeErrors(value, [("enum", Array(vals))], path) == []
  {
    assert "enum"[0] != "const"[0] && "enum"[0] != "type"[0];
    LacksSingle("enum", Array(vals), ["const", "type"]);
    assert "const" in ["const", "type"] && "type" in ["const", "type"];
  }

  /** A schema holding only `type` is decided by the type check alone. */
  lemma {:induction false} TypeOnly(value: Json, v: Json, path: bytes, depth: nat, env: Env)
    requires depth <= MAX_DEPTH
    ensures Lookup([("type", v)], "type") == Some(v)
    ensures ValidateValue(value, Object([("type", v)]), path, depth, env) == TypeErrors(value, [("type", v)], path)
  {
    LacksSingle("type", v, COMBINATOR_KEYWORDS);
    LacksSingle("type", v, CONSTRAINT_KEYWORDS);
    OnlyValueKeywords(value, [("type", v)], path, depth, env);
    assert "type"[0] != "const"[0] && "type"[0] != "enum"[0];
    LacksSingle("type", v, ["const", "enum"]);
    assert "const" in ["const", "enum"] && "enum" in ["const", "enum"];
    assert ConstEnumErrors(value, [("type", v)], path) == [];
  }

  /** `{"type": t}` accepts exactly the values of type `t`, and reports the
      value's own type otherwise. */
  lemma {:induction false} TypeSchema(value: Json, t: bytes, path: bytes, depth: nat, env: Env)
    requires depth <= MAX_DEPTH
    ensures ValidateValue(value, Object([("type", Str(t))]), path, depth, env)
      == if TypeOk(t, value) then [] else [ValidationError(path, TypeMismatch(JsonTypeName(value)))]
  {
    TypeOnly(value, Str(t), path, depth, env);
  }

  /** `{"type": [...]}` accepts exactly the values of one of the listed type
      names; entries that are not strings name no type. */
  lemma {:induction false} TypeUnionSchema(value: Json, types: seq<Json>, path: bytes, depth: nat, env: Env)
    requires depth <= MAX_DEPTH
    ensures ValidateValue(value, Object([("type", Array(types))]), path, depth, env) == [] <==>
      exists k | 0 <= k < |types| :: types[k].Str? && TypeOk(types[k].s, value)
  {
    TypeOnly(value, Array(types), path, depth, env);
  }

  /** `allOf` decides alone, whatever else the schema says: the value is
      accepted exactly when every sub-schema accepts it at its own path. */
  lemma {:induction false} AllOfSchema(value: Json, s: seq<(bytes, Json)>, subs: seq<Json>, path: bytes, depth: nat, env: Env)
    requires depth <= MAX_DEPTH && ArrayAt(s, "allOf") == Some(subs)
    ensures ValidateValue(value, Object(s), path, depth, env) == [] <==>
      forall i | 0 <= i < |subs| :: ValidateValue(value, SubSchema(subs[i]), AllOfPath(path, i), depth + 1, env) == []
  {
    var results := AllOfResults(value, subs, path, depth, env);
    assert Combinators(value, s, path, depth, env) == Some(Concat(results));
    CombinatorsDecide(value, s, path, depth, env);
    ConcatEmpty(results);
    assert forall i | 0 <= i < |subs| ::
      results[i] == ValidateValue(value, SubSchema(subs[i]), AllOfPath(path, i), depth + 1, env);
  }

  /** A combinator's verdict is the verdict of the whole schema. */
  lemma {:induction false} CombinatorsDecide(value: Json, s: seq<(bytes, Json)>, path: bytes, depth: nat, env: Env)
    requires depth <= MAX_DEPTH
    ensures Combinators(value, s, path, depth, env).Some? ==>
      ValidateValue(value, Object(s), path, depth, env) == Combinators(value, s, path, depth, env).value
  {
  }

  /** Without `allOf`, `anyOf` decides alone: the value is accepted exactly
      when some option accepts it. */
  lemma {:induction false} AnyOfSchema(value: Json, s: seq<(bytes, Json)>, subs: seq<Json>, path: bytes, depth: nat, env: Env)
    requires depth <= MAX_DEPTH && ArrayAt(s, "allOf").None? && ArrayAt(s, "anyOf") == Some(subs)
    ensures ValidateValue(value, Object(s), path, depth, env) == [] <==>
      exists i | 0 <= i < |subs| :: ValidateValue(value, SubSchema(subs[i]), path, depth + 1, env) == []
  {
    var results := OptionResults(value, subs, path, depth, env);
    if exists i | 0 <= i < |subs| :: ValidateValue(value, SubSchema(subs[i]), path, depth + 1, env) == [] {
      var i :| 0 <= i < |subs| && ValidateValue(value, SubSchema(subs[i]), path, depth + 1, env) == [];
      assert results[i] == [];
    }
  }

  /** The count of empty results is one exactly when one result is empty
      and every other is not. */
  lemma {:induction false} CountEmptyOne(results: seq<seq<ValidationError>>)
    ensures CountEmpty(results) == 0 <==> forall j | 0 <= j < |results| :: results[j] != []
    ensures CountEmpty(results) == 1 <==>
      exists i | 0 <= i < |results| :: results[i] == [] && forall j | 0 <= j < |results| && j != i :: results[j] != []
  {
    if |results| > 0 {
      var n := |results| - 1;
      var init := results[..n];
      CountEmptyOne(init);
      assert forall j | 0 <= j < n :: init[j] == results[j];
      if CountEmpty(results) == 1 {
        if results[n] == [] {
          assert CountEmpty(init) == 0;
          assert forall j | 0 <= j < |results| && j != n :: results[j] != [];
        } else {
          var i :| 0 <= i < n && init[i] == [] && forall j | 0 <= j < n && j != i :: init[j] != [];
          assert forall j | 0 <= j < |results| && j != i :: results[j] != [];
        }
      }
      if exists i | 0 <= i < |results| :: results[i] == [] && forall j | 0 <= j < |results| && j != i :: results[j] != [] {
        var i :| 0 <= i < |results| && results[i] == [] && forall j | 0 <= j < |results| && j != i :: results[j] != [];
        if i == n {
          assert CountEmpty(init) == 0;
        } else {
          assert init[i] == [] && forall j | 0 <= j < n && j != i :: init[j] != [];
          assert results[n] != [];
        }
      }
    }
  }

  /** Exactly one of the options accepts the value. */
  predicate OneAccepts(value: Json, subs: seq<Json>, path: bytes, depth: nat, env: Env) {
    exists i | 0 <= i < |subs| ::
      && ValidateValue(value, SubSchema(subs[i]), path, depth + 1, env) == []
      && forall j | 0 <= j < |subs| && j != i :: ValidateValue(value, SubSchema(subs[j]), path, depth + 1, env) != []
  }

  /** Without `allOf` and `anyOf`, `oneOf` decides alone: the value is
      accepted exactly when one option accepts it and every other rejects
      it. */
  lemma {:induction false} OneOfSchema(value: Json, s: seq<(bytes, Json)>, subs: seq<Json>, path: bytes, depth: nat, env: Env)
    requires depth <= MAX_DEPTH && ArrayAt(s, "allOf").None? && ArrayAt(s, "anyOf").None? && ArrayAt(s, "oneOf") == Some(subs)
    ensures ValidateValue(value, Object(s), path, depth, env) == [] <==> OneAccepts(value, subs, path, depth, env)
  {
    var results := OptionResults(value, subs, path, depth, env);
    var n := CountEmpty(results);
    assert Combinators(value, s, path, depth, env) == Some(if n == 1 then [] else [ValidationError(path, OneOfMatched(n))]);
    CombinatorsDecide(value, s, path, depth, env);
    OneEmptyIsOneAccepts(value, subs, path, depth, env);
  }

  lemma {:induction false} OneEmptyIsOneAccepts(value: Json, subs: seq<Json>, path: bytes, depth: nat, env: Env)
    requires depth <= MAX_DEPTH
    ensures CountEmpty(OptionResults(value, subs, path, depth, env)) == 1 <==> OneAccepts(value, subs, path, depth, env)
  {
    var results := OptionResults(value, subs, path, depth, env);
    CountEmptyOne(results);
    if CountEmpty(results) == 1 {
      OneEmptyAccepts(value, subs, path, depth, env, results);
    }
    if OneAccepts(value, subs, path, depth, env) {
      var i :| 0 <= i < |subs| && ValidateValue(value, SubSchema(subs[i]), path, depth + 1, env) == []
        && forall j | 0 <= j < |subs| && j != i :: ValidateValue(value, SubSchema(subs[j]), path, depth + 1, env) != [];
      assert results[i] == [];
      assert forall j | 0 <= j < |results| && j != i :: results[j] != [];
    }
  }

  lemma {:induction false} OneEmptyAccepts(value: Json, subs: seq<Json>, path: bytes, depth: nat, env: Env,
                                           results: seq<seq<ValidationError>>)
    requires depth <= MAX_DEPTH && results == OptionResults(value, subs, path, depth, env)
    requires exists i | 0 <= i < |results| :: results[i] == [] && forall j | 0 <= j < |results| && j != i :: results[j] != []
    ensures OneAccepts(value, subs, path, depth, env)
  {
    var i :| 0 <= i < |results| && results[i] == [] && forall j | 0 <= j < |results| && j != i :: results[j] != [];
    assert ValidateValue(value, SubSchema(subs[i]), path, depth + 1, env) == [];
    assert forall j | 0 <= j < |subs| && j != i :: ValidateValue(value, SubSchema(subs[j]), path, depth + 1, env) != [] by {
      forall j | 0 <= j < |subs| && j != i
        ensures ValidateValue(value, SubSchema(subs[j]), path, depth + 1, env) != []
      {
        assert results[j] != [];
      }
    }
  }

  const VALUE_KEYWORDS: seq<bytes> := ["const", "enum", "type"]

  lemma {:induction false} LacksPair(a: bytes, x: Json, b: bytes, y: Json, keys: seq<bytes>)
    requires a !in keys && b !in keys
    ensures Lacks([(a, x), (b, y)], keys)
  {
    forall k | k in keys
      ensures Lookup([(a, x), (b, y)], k).None?
    {
      LookupMeaning([(a, x), (b, y)], k);
    }
  }

  /** The second member of a two-member object is found by its name. */
  lemma {:induction false} LookupSecond(a: bytes, x: Json, b: bytes, y: Json)
    requires a != b
    ensures Lookup([(a, x), (b, y)], b) == Some(y)
  {
    assert [(a, x), (b, y)][1..] == [(b, y)];
  }

  /** Without combinators, `const`, `enum` and `type`, and for an object
      whenever the schema implies the object type, the errors are those of
      the string, numeric, object and array constraints. */
  lemma {:induction false} ConstraintsOnly(value: Json, s: seq<(bytes, Json)>, path: bytes, depth: nat, env: Env)
    requires depth <= MAX_DEPTH && Lacks(s, COMBINATOR_KEYWORDS) && Lacks(s, VALUE_KEYWORDS)
    requires value.Object? || !HasImplicitObjectType(s)
    ensures ValidateValue(value, Object(s), path, depth, env)
      == StringErrors(value, s, path, env) + NumericErrors(value, s, path, env)
         + ObjectErrors(value, s, path, depth, env) + ArrayErrors(value, s, path, depth, env)
  {
    NoCombinators(value, s, path, depth, env);
    assert "const" in VALUE_KEYWORDS && "enum" in VALUE_KEYWORDS && "type" in VALUE_KEYWORDS;
  }

  /** What `MissingKeys` reports: nothing exactly when every string in
      `required` names a member, and otherwise one error per missing
      required key. */
  lemma {:induction false} MissingKeysMeaning(fields: seq<(bytes, Json)>, keys: seq<Json>, path: bytes)
    ensures MissingKeys(fields, keys, path) == [] <==>
      forall k | 0 <= k < |keys| :: keys[k].Str? ==> Lookup(fields, keys[k].s).Some?
    ensures forall e | e in MissingKeys(fields, keys, path) ::
      e.kind.MissingRequired? && Str(e.kind.key) in keys && Lookup(fields, e.kind.key).None?
  {
    if |keys| > 0 {
      var init := keys[..|keys| - 1];
      MissingKeysMeaning(fields, init, path);
      assert forall k | 0 <= k < |init| :: init[k] == keys[k];
      assert forall j | j in init :: j in keys;
    }
  }

  /** `{"required": [...]}`: an object is checked for the required keys
      alone; any other value is rejected as not an object. */
  lemma {:induction false} RequiredSchema(value: Json, keys: seq<Json>, path: bytes, depth: nat, env: Env)
    requires depth <= MAX_DEPTH
    ensures value.Object? ==>
      ValidateValue(value, Object([("required", Array(keys))]), path, depth, env) == MissingKeys(value.fields, keys, path)
    ensures !value.Object? ==>
      ValidateValue(value, Object([("required", Array(keys))]), path, depth, env)
        == [ValidationError(path, TypeMismatch(JsonTypeName(value)))]
  {
    var s := [("required", Array(keys))];
    LacksSingle("required", Array(keys), COMBINATOR_KEYWORDS);
    LacksSingle("required", Array(keys), VALUE_KEYWORDS);
    NoCombinators(value, s, path, depth, env);
    assert "const" in VALUE_KEYWORDS && "enum" in VALUE_KEYWORDS && "type" in VALUE_KEYWORDS;
    assert HasImplicitObjectType(s);
    if value.Object? {
      ConstraintsOnly(value, s, path, depth, env);
      LacksSingle("required", Array(keys), ["properties", "additionalProperties"]);
      assert "properties" in ["properties", "additionalProperties"];
      assert "additionalProperties" in ["properties", "additionalProperties"];
      MembersUnchecked(value.fields, s, path, depth, env);
    }
  }

  /** A member is accepted by the property schema of its key, and a key
      without one is not accepted. */
  predicate MemberAccepted(props: seq<(bytes, Json)>, member: (bytes, Json), path: bytes, depth: nat, env: Env) {
    match Lookup(props, member.0)
    case Some(propSchema) => ValidateValue(member.1, propSchema, MemberPath(path, member.0), depth + 1, env) == []
    case None => false
  }

  lemma {:induction false} ConcatHas(ss: seq<seq<ValidationError>>, i: nat, e: ValidationError)
    requires i < |ss| && e in ss[i]
    ensures e in Concat(ss)
  {
    if i < |ss| - 1 {
      ConcatHas(ss[..|ss| - 1], i, e);
      assert ss[..|ss| - 1][i] == ss[i];
    }
  }

  /** The closed object schema with the given property schemas. */
  function ClosedSchema(props: seq<(bytes, Json)>): seq<(bytes, Json)> {
    [("properties", Object(props)), ("additionalProperties", Bool(false))]
  }

  /** Under a closed schema a member is checked by its property schema, or
      rejected when it has none. */
  lemma {:induction false} ClosedMember(member: (bytes, Json), props: seq<(bytes, Json)>, path: bytes, depth: nat, env: Env)
    requires depth <= MAX_DEPTH
    ensures MemberErrors(member, ClosedSchema(props), path, depth, env) == [] <==> MemberAccepted(props, member, path, depth, env)
    ensures Lookup(props, member.0).None? ==>
      MemberErrors(member, ClosedSchema(props), path, depth, env) == [ValidationError(path, UnexpectedProperty(member.0))]
  {
    var s := ClosedSchema(props);
    assert Properties(s) == props;
    LookupSecond("properties", Object(props), "additionalProperties", Bool(false));
  }

  /** A closed object schema (`properties` and `additionalProperties:
      false`) accepts an object exactly when every member has a property
      schema that accepts it, and reports each member without one. */
  lemma {:induction false} ClosedObjectSchema(value: Json, props: seq<(bytes, Json)>, path: bytes, depth: nat, env: Env)
    requires depth <= MAX_DEPTH && value.Object?
    ensures var errs := ValidateValue(value, Object(ClosedSchema(props)), path, depth, env);
      && (errs == [] <==> forall i | 0 <= i < |value.fields| :: MemberAccepted(props, value.fields[i], path, depth, env))
      && forall i | 0 <= i < |value.fields| && Lookup(props, value.fields[i].0).None? ::
           ValidationError(path, UnexpectedProperty(value.fields[i].0)) in errs
  {
    var s := ClosedSchema(props);
    ClosedSchemaErrors(value, props, path, depth, env);
    var results := MemberResults(value.fields, s, path, depth, env);
    ConcatEmpty(results);
    forall i | 0 <= i < |value.fields|
      ensures results[i] == [] <==> MemberAccepted(props, value.fields[i], path, depth, env)
    {
      ClosedMember(value.fields[i], props, path, depth, env);
    }
    forall i | 0 <= i < |value.fields| && Lookup(props, value.fields[i].0).None?
      ensures ValidationError(path, UnexpectedProperty(value.fields[i].0)) in Concat(results)
    {
      ClosedMember(value.fields[i], props, path, depth, env);
      ConcatHas(results, i, ValidationError(path, UnexpectedProperty(value.fields[i].0)));
    }
  }

  /** A closed object schema reports the errors of the members, in order. */
  lemma ClosedSchemaErrors(value: Json, props: seq<(bytes, Json)>, path: bytes, depth: nat, env: Env)
    requires depth <= MAX_DEPTH && value.Object?
    ensures ValidateValue(value, Object(ClosedSchema(props)), path, depth, env)
      == Concat(MemberResults(value.fields, ClosedSchema(props), path, depth, env))
  {
    var s := ClosedSchema(props);
    LacksPair("properties", Object(props), "additionalProperties", Bool(false), COMBINATOR_KEYWORDS);
    LacksPair("properties", Object(props), "additionalProperties", Bool(false), VALUE_KEYWORDS);
    ConstraintsOnly(value, s, path, depth, env);
    ClosedObjectErrors(value, props, path, depth, env);
  }

  /** A closed object schema has no `required`: only the members are checked. */
  lemma {:induction false} ClosedObjectErrors(value: Json, props: seq<(bytes, Json)>, path: bytes, depth: nat, env: Env)
    requires depth <= MAX_DEPTH && value.Object?
    ensures ObjectErrors(value, ClosedSchema(props), path, depth, env)
      == Concat(MemberResults(value.fields, ClosedSchema(props), path, depth, env))
  {
    LacksPair("properties", Object(props), "additionalProperties", Bool(false), ["required"]);
    assert "required" in ["required"];
    assert ArrayAt(ClosedSchema(props), "required").None?;
  }

  /** `{"items": {...}}`: an array is accepted exactly when the item schema
      accepts every element, each at its own index path. */
  lemma {:induction false} ItemsSchema(value: Json, o: seq<(bytes, Json)>, path: bytes, depth: nat, env: Env)
    requires depth <= MAX_DEPTH && value.Array?
    ensures ValidateValue(value, Object([("items", Object(o))]), path, depth, env) == [] <==>
      forall i | 0 <= i < |value.items| :: ValidateValue(value.items[i], Object(o), ItemPath(path, i), depth + 1, env) == []
  {
    var s := [("items", Object(o))];
    LacksSingle("items", Object(o), COMBINATOR_KEYWORDS);
    LacksSingle("items", Object(o), VALUE_KEYWORDS);
    LacksSingle("items", Object(o), IMPLICIT_OBJECT_KEYWORDS);
    NotImplicit(s);
    ConstraintsOnly(value, s, path, depth, env);
    assert ArrayErrors(value, s, path, depth, env) == Concat(ItemResults(value.items, o, path, depth, env));
    ItemResultsEmpty(value.items, o, path, depth, env);
  }

  lemma {:induction false} ItemResultsEmpty(items: seq<Json>, o: seq<(bytes, Json)>, path: bytes, depth: nat, env: Env)
    requires depth <= MAX_DEPTH
    ensures Concat(ItemResults(items, o, path, depth, env)) == [] <==>
      forall i | 0 <= i < |items| :: ValidateValue(items[i], Object(o), ItemPath(path, i), depth + 1, env) == []
  {
    var results := ItemResults(items, o, path, depth, env);
    ConcatEmpty(results);
    assert forall i | 0 <= i < |items| :: results[i] == ValidateValue(items[i], Object(o), ItemPath(path, i), depth + 1, env);
  }

  const IMPLICIT_OBJECT_KEYWORDS: seq<bytes> := ["properties", "required", "additionalProperties"]

  lemma {:induction false} NotImplicit(s: seq<(bytes, Json)>)
    requires Lacks(s, IMPLICIT_OBJECT_KEYWORDS)
    ensures !HasImplicitObjectType(s)
  {
    assert "properties" in IMPLICIT_OBJECT_KEYWORDS && "required" in IMPLICIT_OBJECT_KEYWORDS;
    assert "additionalProperties" in IMPLICIT_OBJECT_KEYWORDS;
  }

  /** `minLength` and `maxLength` bound the byte length of a string. */
  lemma {:induction false} LengthSchema(text: bytes, min: Ints.u64, max: Ints.u64, path: bytes, depth: nat, env: Env)
    requires depth <= MAX_DEPTH
    ensures ValidateValue(Str(text), Object([("minLength", Number(Int(min))), ("maxLength", Number(Int(max)))]), path, depth, env) == []
      <==> min <= |text| <= max
  {
    var s := [("minLength", Number(Int(min))), ("maxLength", Number(Int(max)))];
    LacksPair("minLength", Number(Int(min)), "maxLength", Number(Int(max)), COMBINATOR_KEYWORDS);
    LacksPair("minLength", Number(Int(min)), "maxLength", Number(Int(max)), VALUE_KEYWORDS);
    LacksPair("minLength", Number(Int(min)), "maxLength", Number(Int(max)), IMPLICIT_OBJECT_KEYWORDS);
    LacksPair("minLength", Number(Int(min)), "maxLength", Number(Int(max)), ["pattern"]);
    assert "pattern" in ["pattern"];
    NotImplicit(s);
    ConstraintsOnly(Str(text), s, path, depth, env);
    LookupSecond("minLength", Number(Int(min)), "maxLength", Number(Int(max)));
    assert GetU64(Object(s), "minLength") == Some(min) && GetU64(Object(s), "maxLength") == Some(max);
  }

  /** `pattern` rejects a string exactly when the compiled pattern does not
      match it; a pattern that does not compile checks nothing. */
  lemma {:induction false} PatternSchema(text: bytes, pattern: bytes, path: bytes, depth: nat, env: Env)
    requires depth <= MAX_DEPTH
    ensures ValidateValue(Str(text), Object([("pattern", Str(pattern))]), path, depth, env) == []
      <==> env.regexMatch(pattern, text) != Some(false)
  {
    var s := [("pattern", Str(pattern))];
    LacksSingle("pattern", Str(pattern), COMBINATOR_KEYWORDS);
    LacksSingle("pattern", Str(pattern), VALUE_KEYWORDS);
    LacksSingle("pattern", Str(pattern), IMPLICIT_OBJECT_KEYWORDS);
    LacksSingle("pattern", Str(pattern), ["minLength", "maxLength"]);
    assert "minLength" in ["minLength", "maxLength"] && "maxLength" in ["minLength", "maxLength"];
    NotImplicit(s);
    ConstraintsOnly(Str(text), s, path, depth, env);
    assert GetStr(Object(s), "pattern") == Some(pattern);
  }

  /** `minimum` and `maximum` bound a number, compared as `f64`. */
  lemma {:induction false} BoundsSchema(n: Num, min: Num, max: Num, path: bytes, depth: nat, env: Env)
    requires depth <= MAX_DEPTH
    ensures ValidateValue(Number(n), Object([("minimum", Number(min)), ("maximum", Number(max))]), path, depth, env) == []
      <==> !env.lessF64(n, min) && !env.lessF64(max, n)
  {
    var s := [("minimum", Number(min)), ("maximum", Number(max))];
    LacksPair("minimum", Number(min), "maximum", Number(max), COMBINATOR_KEYWORDS);
    LacksPair("minimum", Number(min), "maximum", Number(max), VALUE_KEYWORDS);
    LacksPair("minimum", Number(min), "maximum", Number(max), IMPLICIT_OBJECT_KEYWORDS);
    NotImplicit(s);
    ConstraintsOnly(Number(n), s, path, depth, env);
    LookupSecond("minimum", Number(min), "maximum", Number(max));
  }

  // ---------------------------------------------------------------------
  // The permissive-object shortcut
  // ---------------------------------------------------------------------

  /** The members a permissive object schema may have. */
  const PERMISSIVE_KEYS: seq<bytes> := ["type", "properties", "required", "additionalProperties", "title", "description"]

  /** `schema_is_permissive_object`: an object schema that accepts every
      object. A `type` that is a string must be `object`; `properties` and
      `required`, when of their own type, must be empty;
      `additionalProperties`, when present, must be `true`; and no other
      member than `PERMISSIVE_KEYS` may appear. A `type` that is not a
      string is not looked at. */
  predicate SchemaIsPermissiveObject(schema: Json) {
    && schema.Object?
    && (match Lookup(schema.fields, "type") case Some(Str(t)) => t == "object" case _ => true)
    && (match Lookup(schema.fields, "properties") case Some(Object(p)) => p == [] case _ => true)
    && (match Lookup(schema.fields, "required") case Some(Array(r)) => r == [] case _ => true)
    && (match Lookup(schema.fields, "additionalProperties") case Some(a) => a == Bool(true) case None => true)
    && forall k | 0 <= k < |schema.fields| :: schema.fields[k].0 in PERMISSIVE_KEYS
  }

  /** The shortcut as it is evidently meant: as written, and moreover any
      `type` is the string `object`. */
  predicate PermissiveObjectIntended(schema: Json) {
    && SchemaIsPermissiveObject(schema)
    && (Lookup(schema.fields, "type").None? || Lookup(schema.fields, "type") == Some(Str("object")))
  }

  /** A key outside `PERMISSIVE_KEYS` is absent from a permissive schema. */
  lemma {:induction false} PermissiveLacks(schema: Json, keys: seq<bytes>)
    requires SchemaIsPermissiveObject(schema)
    requires forall k | k in keys :: k !in PERMISSIVE_KEYS
    ensures Lacks(schema.fields, keys)
  {
    forall k | k in keys
      ensures Lookup(schema.fields, k).None?
    {
      LookupMeaning(schema.fields, k);
    }
  }

  /** The intended shortcut is sound: a schema it accepts accepts every
      object, so skipping `validate_value` changes nothing. */
  lemma {:induction false} PermissiveIntendedSound(value: Json, schema: Json, path: bytes, depth: nat, env: Env)
    requires PermissiveObjectIntended(schema) && value.Object? && depth <= MAX_DEPTH
    ensures ValidateValue(value, schema, path, depth, env) == []
  {
    var s := schema.fields;
    PermissiveLacks(schema, COMBINATOR_KEYWORDS);
    PermissiveLacks(schema, ["const", "enum"]);
    NoCombinators(value, s, path, depth, env);
    assert "const" in ["const", "enum"] && "enum" in ["const", "enum"];
    assert ConstEnumErrors(value, s, path) == [];
    assert TypeErrors(value, s, path) == [];
    PermissiveLacks(schema, ["items"]);
    assert "items" in ["items"];
    assert ArrayErrors(value, s, path, depth, env) == [];
    PermissiveObjectErrors(value, schema, path, depth, env);
  }

  lemma {:induction false} PermissiveObjectErrors(value: Json, schema: Json, path: bytes, depth: nat, env: Env)
    requires SchemaIsPermissiveObject(schema) && value.Object? && depth <= MAX_DEPTH
    ensures ObjectErrors(value, schema.fields, path, depth, env) == []
  {
    var s := schema.fields;
    assert Properties(s) == [];
    var results := MemberResults(value.fields, s, path, depth, env);
    forall i | 0 <= i < |results|
      ensures results[i] == []
    {
      assert results[i] == MemberErrors(value.fields[i], s, path, depth, env);
    }
    ConcatEmpty(results);
    match ArrayAt(s, "required")
    case Some(keys) => assert keys == [];
    case None =>
  }

  /** As written, the shortcut also takes a schema whose `type` is an array
      of other types: `{"type": ["string"]}` is taken as permissive, while
      `validate_value` rejects every object against it. */
  lemma {:induction false} PermissiveAsWrittenSkipsTypeArray(path: bytes, env: Env)
    ensures SchemaIsPermissiveObject(Object([("type", Array([Str("string")]))]))
    ensures ValidateValue(Object([]), Object([("type", Array([Str("string")]))]), path, 0, env)
      == [ValidationError(path, TypeMismatch("object"))]
    ensures !PermissiveObjectIntended(Object([("type", Array([Str("string")]))]))
  {
    var s := [("type", Array([Str("string")]))];
    assert s[0].0 in PERMISSIVE_KEYS;
    assert Lookup(s, "type") == Some(Array([Str("string")]));
    StringArrayRejectsObject(path, env);
  }

  /** `{"type": ["string"]}` rejects the empty object, with a type mismatch. */
  lemma {:induction false} StringArrayRejectsObject(path: bytes, env: Env)
    ensures ValidateValue(Object([]), Object([("type", Array([Str("string")]))]), path, 0, env)
      == [ValidationError(path, TypeMismatch("object"))]
  {
    var types := [Str("string")];
    var s := [("type", Array(types))];
    TypeOnly(Object([]), Array(types), path, 0, env);
    assert !TypeOk("string", Object([]));
    assert forall k | 0 <= k < |types| :: !(types[k].Str? && TypeOk(types[k].s, Object([])));
    assert TypeErrors(Object([]), s, path) == [ValidationError(path, TypeMismatch("object"))];
  }

  // ---------------------------------------------------------------------
  // validate_tool_call(s)
  // ---------------------------------------------------------------------

  /** The tool a call names: the only tool when there is one (if its name
      matches), otherwise the first tool of that name. */
  function FindTool(tools: seq<Canonical.ToolSpec>, name: bytes): Option<Canonical.ToolSpec> {
    if |tools| == 1 then (if tools[0].name == name then Some(tools[0]) else None)
    else FirstNamed(tools, name)
  }

  /** `tools.iter().find(|t| t.function.name == name)`. */
  function FirstNamed(tools: seq<Canonical.ToolSpec>, name: bytes): Option<Canonical.ToolSpec> {
    if |tools| == 0 then None
    else if tools[0].name == name then Some(tools[0])
    else FirstNamed(tools[1..], name)
  }

  /** `FindTool` finds the first tool with the name, in both of its cases,
      and finds nothing exactly when no tool has the name. */
  lemma {:induction false} FindToolIsFirst(tools: seq<Canonical.ToolSpec>, name: bytes)
    ensures FindTool(tools, name).None? <==> forall k | 0 <= k < |tools| :: tools[k].name != name
    ensures FindTool(tools, name).Some? ==>
      exists k | 0 <= k < |tools| ::
        && tools[k] == FindTool(tools, name).value && tools[k].name == name
        && forall j | 0 <= j < k :: tools[j].name != name
  {
    FirstNamedIsFirst(tools, name);
  }

  lemma {:induction false} FirstNamedIsFirst(tools: seq<Canonical.ToolSpec>, name: bytes)
    ensures FirstNamed(tools, name).None? <==> forall k | 0 <= k < |tools| :: tools[k].name != name
    ensures FirstNamed(tools, name).Some? ==>
      exists k | 0 <= k < |tools| ::
        && tools[k] == FirstNamed(tools, name).value && tools[k].name == name
        && forall j | 0 <= j < k :: tools[j].name != name
  {
    if |tools| > 0 && tools[0].name != name {
      var rest := tools[1..];
      FirstNamedIsFirst(rest, name);
      assert forall k | 0 <= k < |rest| :: rest[k] == tools[k + 1];
      if FirstNamed(rest, name).Some? {
        var k :| 0 <= k < |rest| && rest[k] == FirstNamed(rest, name).value && rest[k].name == name
          && forall j | 0 <= j < k :: rest[j].name != name;
        assert tools[k + 1] == FirstNamed(tools, name).value;
        assert forall j | 0 <= j < k + 1 :: tools[j].name != name by {
          forall j | 0 <= j < k + 1
            ensures tools[j].name != name
          {
            if j > 0 {
              assert tools[j] == rest[j - 1];
            }
          }
        }
      } else {
        forall k | 0 <= k < |tools|
          ensures tools[k].name != name
        {
          if k > 0 {
            assert tools[k] == rest[k - 1];
          }
        }
      }
    }
  }

  /** The names of the tools, for the unknown-tool error. */
  function ToolNames(tools: seq<Canonical.ToolSpec>): (names: seq<bytes>)
    ensures |names| == |tools|
  {
    seq(|tools|, i requires 0 <= i < |tools| => tools[i].name)
  }

  /** The checks of `validate_tool_call`, with the shortcut taken for the
      schemas `shortcut` holds of: the tool must exist and the arguments
      must be an object; a schema the shortcut holds of is not looked at;
      otherwise the errors of `validate_value` at depth zero, reported
      under the tool's name. */
  function ValidateToolCallWith(name: bytes, arguments: Json, tools: seq<Canonical.ToolSpec>, env: Env, shortcut: Json -> bool)
    : (r: Result<(), seq<ValidationError>>)
    ensures r.Err? ==> r.error != []
  {
    match FindTool(tools, name)
    case None => Err([ValidationError(name, UnknownTool(ToolNames(tools)))])
    case Some(tool) =>
      if !arguments.Object? then Err([ValidationError(name, ArgumentsNotObject(JsonTypeName(arguments)))])
      else if shortcut(tool.parameters) then Ok(())
      else
        var errs := ValidateValue(arguments, tool.parameters, name, 0, env);
        if errs == [] then Ok(()) else Err(errs)
  }

  /** `validate_tool_call`, with the shortcut as it is evidently meant
      (see `AsWrittenShortcutAcceptsRejected` for the shortcut as written). */
  function ValidateToolCall(name: bytes, arguments: Json, tools: seq<Canonical.ToolSpec>, env: Env)
    : (r: Result<(), seq<ValidationError>>)
    ensures r.Err? ==> r.error != []
  {
    ValidateToolCallWith(name, arguments, tools, env, PermissiveObjectIntended)
  }

  /** What a call's verdict means: it is accepted exactly when a tool has
      its name, its arguments are an object, and the tool's schema accepts
      them; an unknown tool is reported with the names of all tools, and
      every error lies under the tool's name. */
  lemma {:induction false} ValidateToolCallMeaning(name: bytes, arguments: Json, tools: seq<Canonical.ToolSpec>, env: Env)
    ensures var r := ValidateToolCall(name, arguments, tools, env);
      && (FindTool(tools, name).None? ==> r == Err([ValidationError(name, UnknownTool(ToolNames(tools)))]))
      && (r.Ok? <==>
           && FindTool(tools, name).Some? && arguments.Object?
           && ValidateValue(arguments, FindTool(tools, name).value.parameters, name, 0, env) == [])
      && (r.Err? ==> Below(r.error, name))
  {
    IntendedShortcutExact(name, arguments, tools, env);
    var r := ValidateToolCallWith(name, arguments, tools, env, NoShortcut);
    match FindTool(tools, name)
    case None =>
      AtBelow(r.error, name);
    case Some(tool) =>
      if !arguments.Object? {
        AtBelow(r.error, name);
      } else {
        ErrorsBelowPath(arguments, tool.parameters, name, 0, env);
      }
  }

  /** No shortcut at all: `validate_value` always runs. */
  predicate NoShortcut(schema: Json) {
    false
  }

  /** With the intended shortcut, skipping `validate_value` never changes
      the verdict of a call. */
  lemma {:induction false} IntendedShortcutExact(name: bytes, arguments: Json, tools: seq<Canonical.ToolSpec>, env: Env)
    ensures ValidateToolCallWith(name, arguments, tools, env, PermissiveObjectIntended)
      == ValidateToolCallWith(name, arguments, tools, env, NoShortcut)
  {
    match FindTool(tools, name)
    case None =>
    case Some(tool) =>
      if arguments.Object? && PermissiveObjectIntended(tool.parameters) {
        PermissiveIntendedSound(arguments, tool.parameters, name, 0, env);
      }
  }

  /** As written, the shortcut accepts a call that `validate_value` would
      reject: a tool whose parameters are `{"type": ["string"]}` called
      with `{}`. */
  lemma {:induction false} AsWrittenShortcutAcceptsRejected(env: Env)
    ensures var tools := [Canonical.ToolSpec("f", None, Object([("type", Array([Str("string")]))]))];
      && ValidateToolCallWith("f", Object([]), tools, env, SchemaIsPermissiveObject) == Ok(())
      && ValidateToolCallWith("f", Object([]), tools, env, NoShortcut) == Err([ValidationError("f", TypeMismatch("object"))])
  {
    PermissiveAsWrittenSkipsTypeArray("f", env);
  }

  /** The errors of one call: none when it is accepted. */
  function CallErrors(call: ParsedToolCall, tools: seq<Canonical.ToolSpec>, env: Env): seq<ValidationError> {
    match ValidateToolCall(call.name, call.arguments, tools, env)
    case Ok(_) => []
    case Err(errs) => errs
  }

  /** The errors of all calls, in order. */
  function CallsErrors(calls: seq<ParsedToolCall>, tools: seq<Canonical.ToolSpec>, env: Env): seq<ValidationError> {
    if |calls| == 0 then []
    else CallsErrors(calls[..|calls| - 1], tools, env) + CallErrors(calls[|calls| - 1], tools, env)
  }

  /** The verdict on a batch of calls: accepted when no call has an error,
      and otherwise all their errors, in order. */
  function CallsVerdict(calls: seq<ParsedToolCall>, tools: seq<Canonical.ToolSpec>, env: Env): Result<(), seq<ValidationError>> {
    var errs := CallsErrors(calls, tools, env);
    if errs == [] then Ok(()) else Err(errs)
  }

  /** A batch is accepted exactly when every call in it is. */
  lemma {:induction false} CallsVerdictOk(calls: seq<ParsedToolCall>, tools: seq<Canonical.ToolSpec>, env: Env)
    ensures CallsVerdict(calls, tools, env).Ok? <==>
      forall i | 0 <= i < |calls| :: ValidateToolCall(calls[i].name, calls[i].arguments, tools, env).Ok?
  {
    CallsErrorsEmpty(calls, tools, env);
    forall i | 0 <= i < |calls|
      ensures CallErrors(calls[i], tools, env) == [] <==> ValidateToolCall(calls[i].name, calls[i].arguments, tools, env).Ok?
    {
    }
  }

  /** The batch has no error exactly when no call in it has one. */
  lemma {:induction false} CallsErrorsEmpty(calls: seq<ParsedToolCall>, tools: seq<Canonical.ToolSpec>, env: Env)
    ensures CallsErrors(calls, tools, env) == [] <==> forall i | 0 <= i < |calls| :: CallErrors(calls[i], tools, env) == []
  {
    if |calls| > 0 {
      var init := calls[..|calls| - 1];
      CallsErrorsEmpty(init, tools, env);
      assert forall i | 0 <= i < |init| :: init[i] == calls[i];
    }
  }

  /** `validate_tool_calls`: the loop collecting every call's errors. */
  method ValidateToolCalls(calls: seq<ParsedToolCall>, tools: seq<Canonical.ToolSpec>, env: Env)
    returns (r: Result<(), seq<ValidationError>>)
    ensures r == CallsVerdict(calls, tools, env)
  {
    var all: seq<ValidationError> := [];
    var i := 0;
    while i < |calls|
      invariant 0 <= i <= |calls|
      invariant all == CallsErrors(calls[..i], tools, env)
    {
      var call := calls[i];
      var verdict := ValidateToolCall(call.name, call.arguments, tools, env);
      if verdict.Err? {
        all := all + verdict.error;
      }
      assert calls[..i + 1][..i] == calls[..i];
      i := i + 1;
    }
    assert calls[..|calls|] == calls;
    r := if all == [] then Ok(()) else Err(all);
  }

  /** The validator's view of a call from the parser. */
  function FromParser(call: FcParser.ParsedToolCall): ParsedToolCall {
    ParsedToolCall(call.name, call.arguments)
  }

  /** `validate_parser_tool_calls`: the same loop over the parser's calls. */
  method ValidateParserToolCalls(calls: seq<FcParser.ParsedToolCall>, tools: seq<Canonical.ToolSpec>, env: Env)
    returns (r: Result<(), seq<ValidationError>>)
    ensures r == CallsVerdict(seq(|calls|, i requires 0 <= i < |calls| => FromParser(calls[i])), tools, env)
  {
    r := ValidateToolCalls(seq(|calls|, i requires 0 <= i < |calls| => FromParser(calls[i])), tools, env);
  }
}
