/**
 * The route matcher and value coercer of a URI scheme route (`SchemeItem`):
 * the schema a route declares, the pure meaning of `convertFrom` and `match`
 * on that schema, and the class whose loop methods compute them.
 */
module Scheme {
  import opened Wrappers
  import opened JavaLang

  /** A nullable `String[]` of key names; its elements may be null too. */
  type KeyList = Option<seq<Option<string>>>

  /** The required keys of a route, in order, each with an optional literal value. */
  type Required = Option<seq<(string, Option<string>)>>

  /** A nullable `Map<String, String>` of raw URI parameters; keys and values may be null. */
  type RawMap = map<Option<string>, Option<string>>
  type Params = Option<RawMap>

  /** The six schema fields the constructor stores, as values. */
  datatype Schema = Schema(
    required: Required,
    intKeys: KeyList,
    boolKeys: KeyList,
    longKeys: KeyList,
    floatKeys: KeyList,
    doubleKeys: KeyList)

  /**
   * What the coercion takes from code outside SchemeItem: the name of the
   * force-new-activity flag (`QMUISchemeHandler.ARG_FORCE_TO_NEW_ACTIVITY`)
   * and which strings `Float.valueOf` and `Double.valueOf` accept.
   */
  datatype Platform = Platform(
    forceToNewActivity: string,
    parsesFloat: string -> bool,
    parsesDouble: string -> bool)

  /** The class recorded in a value: `Integer.TYPE`, `Boolean.TYPE`, ..., `String.class`. */
  datatype TypeTag = IntType | BoolType | LongType | FloatType | DoubleType | StringType

  /**
   * A coerced parameter: the raw string, the typed value and (through the
   * constructor) its type. Float and double values are kept as their raw
   * text only; a string value is its raw text, which may be null.
   */
  datatype SchemeValue =
    | IntValue(origin: string, intValue: int)
    | BoolValue(origin: string, boolValue: bool)
    | LongValue(origin: string, longValue: int)
    | FloatValue(origin: string)
    | DoubleValue(origin: string)
    | StringValue(text: Option<string>)
  {
    function Tag(): TypeTag
    {
      match this
      case IntValue(_, _) => IntType
      case BoolValue(_, _) => BoolType
      case LongValue(_, _) => LongType
      case FloatValue(_) => FloatType
      case DoubleValue(_) => DoubleType
      case StringValue(_) => StringType
    }

    /** The raw string the value was built from. */
    function Raw(): Option<string>
    {
      if StringValue? then text else Some(origin)
    }

    /** The typed value fits the Java type its tag names. */
    predicate WellTyped()
    {
      match this
      case IntValue(_, n) => INT_MIN <= n <= INT_MAX
      case LongValue(_, n) => LONG_MIN <= n <= LONG_MAX
      case _ => true
    }
  }

  /** `contains`: the key list is non-null and one of its elements equals the key. */
  predicate HasKey(keys: KeyList, key: string)
  {
    keys.Some? && Some(key) in keys.value
  }

  /**
   * The type a parameter name is coerced to: the first of int, bool (the
   * force-new-activity flag or a declared bool key), long, float, double
   * whose keys name it; string otherwise.
   */
  function TypeOf(s: Schema, p: Platform, name: string): TypeTag
  {
    if HasKey(s.intKeys, name) then IntType
    else if name == p.forceToNewActivity || HasKey(s.boolKeys, name) then BoolType
    else if HasKey(s.longKeys, name) then LongType
    else if HasKey(s.floatKeys, name) then FloatType
    else if HasKey(s.doubleKeys, name) then DoubleType
    else StringType
  }

  /** The boolean rule of `convertFrom`: false only for "0" and any casing of "false". */
  predicate IsFalse(v: string)
  {
    v == "0" || ToLowerCase(v) == "false"
  }

  /**
   * The body of the `try` block for one parameter of type `t`. `None` is an
   * exception: a failed number parse, or a null value of a non-string type.
   */
  function CoerceAs(t: TypeTag, p: Platform, value: Option<string>): Option<SchemeValue>
  {
    if t == StringType then Some(StringValue(value))
    else if value.None? then None
    else
      var v := value.value;
      match t
      case IntType => (match ParseInt(v) case Some(n) => Some(IntValue(v, n)) case None => None)
      case BoolType => Some(BoolValue(v, !IsFalse(v)))
      case LongType => (match ParseLong(v) case Some(n) => Some(LongValue(v, n)) case None => None)
      case FloatType => if p.parsesFloat(v) then Some(FloatValue(v)) else None
      case DoubleType => if p.parsesDouble(v) then Some(DoubleValue(v)) else None
  }

  function Coerce(s: Schema, p: Platform, name: string, value: Option<string>): Option<SchemeValue>
  {
    CoerceAs(TypeOf(s, p, name), p, value)
  }

  /** The names of the entries `convertFrom` does not skip: non-null and non-empty. */
  function Names(keys: set<Option<string>>): (r: set<string>)
    ensures forall x :: x in r <==> Some(x) in keys && x != ""
  {
    set o | o in keys && o.Some? && o.value != "" :: o.value
  }

  /** The map `convertFrom` fills: one entry per named parameter whose coercion succeeds. */
  function ConvertEntries(s: Schema, p: Platform, m: RawMap): map<string, SchemeValue>
  {
    map name | name in Names(m.Keys) && Coerce(s, p, name, m[Some(name)]).Some?
      :: Coerce(s, p, name, m[Some(name)]).value
  }

  /** `convertFrom`: null for a null or empty input, otherwise the converted entries. */
  function Convert(s: Schema, p: Platform, params: Params): Option<map<string, SchemeValue>>
  {
    if params.None? || |params.value| == 0 then None else Some(ConvertEntries(s, p, params.value))
  }

  /** One required key is present and, when it demands a literal, carries exactly that value. */
  predicate Satisfies(m: RawMap, req: (string, Option<string>))
  {
    Some(req.0) in m && (req.1.Some? ==> m[Some(req.0)] == req.1)
  }

  /** `match`: every required key is satisfied; a route without required keys matches anything. */
  predicate Matches(s: Schema, scheme: Params)
  {
    || s.required.None?
    || |s.required.value| == 0
    || (&& scheme.Some?
        && |scheme.value| > 0
        && forall i :: 0 <= i < |s.required.value| ==> Satisfies(scheme.value, s.required.value[i]))
  }

  /**
   * Adding one entry to the input adds at most its own name to the result:
   * the entry is either skipped (a null or empty name, or a failed coercion)
   * or `put` under its name.
   */
  lemma ConvertEntriesAdd(s: Schema, p: Platform, m: RawMap, o: Option<string>, value: Option<string>)
    requires o !in m
    ensures ConvertEntries(s, p, m[o := value])
            == if o.Some? && o.value != "" && Coerce(s, p, o.value, value).Some?
               then ConvertEntries(s, p, m)[o.value := Coerce(s, p, o.value, value).value]
               else ConvertEntries(s, p, m)
  {
    if o.Some? && o.value != "" && Coerce(s, p, o.value, value).Some? {
      ConvertEntriesPut(s, p, m, o.value, value);
    } else {
      ConvertEntriesSkip(s, p, m, o, value);
    }
  }

  lemma ConvertEntriesPut(s: Schema, p: Platform, m: RawMap, name: string, value: Option<string>)
    requires Some(name) !in m && name != "" && Coerce(s, p, name, value).Some?
    ensures ConvertEntries(s, p, m[Some(name) := value])
            == ConvertEntries(s, p, m)[name := Coerce(s, p, name, value).value]
  {
    var m' := m[Some(name) := value];
    var after := ConvertEntries(s, p, m');
    var expected := ConvertEntries(s, p, m)[name := Coerce(s, p, name, value).value];
    forall k
      ensures k in after <==> k in expected
      ensures k in after ==> after[k] == expected[k]
    {
      ConvertEntriesAt(s, p, m, k);
      ConvertEntriesAt(s, p, m', k);
    }
    assert after == expected;
  }

  lemma ConvertEntriesSkip(s: Schema, p: Platform, m: RawMap, o: Option<string>, value: Option<string>)
    requires o !in m
    requires o.Some? && o.value != "" ==> Coerce(s, p, o.value, value).None?
    ensures ConvertEntries(s, p, m[o := value]) == ConvertEntries(s, p, m)
  {
    var m' := m[o := value];
    var after := ConvertEntries(s, p, m');
    var before := ConvertEntries(s, p, m);
    forall k
      ensures k in after <==> k in before
      ensures k in after ==> after[k] == before[k]
    {
      ConvertEntriesAt(s, p, m, k);
      ConvertEntriesAt(s, p, m', k);
    }
    assert after == before;
  }

  /**
   * Which names the result holds and what it holds for them: a name is in
   * the result exactly when it is non-empty, named by the input, and its
   * coercion succeeds.
   */
  lemma ConvertEntriesAt(s: Schema, p: Platform, m: RawMap, name: string)
    ensures var r := ConvertEntries(s, p, m);
            && (name in r <==> name != "" && Some(name) in m && Coerce(s, p, name, m[Some(name)]).Some?)
            && (name in r ==> r[name] == Coerce(s, p, name, m[Some(name)]).value)
  {
  }

  function ArrayOf(a: Option<array<Option<string>>>): set<object>
  {
    if a.Some? then {a.value} else {}
  }

  /** The current contents of a nullable key array. */
  function Elements(a: Option<array<Option<string>>>): KeyList
    reads ArrayOf(a)
  {
    if a.Some? then Some(a.value[..]) else None
  }

  /** `contains`: a scan of the array that stops at the first element equal to the key. */
  method Contains(a: Option<array<Option<string>>>, key: string) returns (found: bool)
    ensures found == HasKey(Elements(a), key)
    ensures a.None? || a.value.Length == 0 ==> !found
  {
    if a.None? || a.value.Length == 0 {
      return false;
    }
    var arr := a.value;
    for i := 0 to arr.Length
      invariant forall j :: 0 <= j < i ==> arr[j] != Some(key)
    {
      if arr[i] == Some(key) {
        return true;
      }
    }
    return false;
  }

  /** A route's parameter schema; the fields are set once, by the constructor. */
  class SchemeItem {
    const required: Required
    const keysForInt: Option<array<Option<string>>>
    const keysForBool: Option<array<Option<string>>>
    const keysForLong: Option<array<Option<string>>>
    const keysForFloat: Option<array<Option<string>>>
    const keysForDouble: Option<array<Option<string>>>

    constructor (required: Required,
                 keysForInt: Option<array<Option<string>>>,
                 keysForBool: Option<array<Option<string>>>,
                 keysForLong: Option<array<Option<string>>>,
                 keysForFloat: Option<array<Option<string>>>,
                 keysForDouble: Option<array<Option<string>>>)
      ensures this.required == required
      ensures this.keysForInt == keysForInt && this.keysForBool == keysForBool
      ensures this.keysForLong == keysForLong && this.keysForFloat == keysForFloat
      ensures this.keysForDouble == keysForDouble
    {
      this.required := required;
      this.keysForInt := keysForInt;
      this.keysForBool := keysForBool;
      this.keysForLong := keysForLong;
      this.keysForFloat := keysForFloat;
      this.keysForDouble := keysForDouble;
    }

    /** The key arrays this item reads; the caller may still change their contents. */
    function Repr(): set<object>
    {
      ArrayOf(keysForInt) + ArrayOf(keysForBool) + ArrayOf(keysForLong)
        + ArrayOf(keysForFloat) + ArrayOf(keysForDouble)
    }

    /** The schema as it stands now. */
    function Snapshot(): Schema
      reads Repr()
    {
      Schema(required, Elements(keysForInt), Elements(keysForBool), Elements(keysForLong),
             Elements(keysForFloat), Elements(keysForDouble))
    }

    /** The `try` block of `convertFrom` for one named parameter. */
    method ConvertParam(p: Platform, name: string, value: Option<string>) returns (v: Option<SchemeValue>)
      ensures v == Coerce(Snapshot(), p, name, value)
    {
      var isInt := Contains(keysForInt, name);
      if isInt {
        if value.None? { return None; }
        var n := ParseInt(value.value);
        return if n.Some? then Some(IntValue(value.value, n.value)) else None;
      }
      var isBool := name == p.forceToNewActivity;
      if !isBool {
        isBool := Contains(keysForBool, name);
      }
      if isBool {
        if value.None? { return None; }
        var isFalse := value.value == "0" || ToLowerCase(value.value) == "false";
        return Some(BoolValue(value.value, !isFalse));
      }
      var isLong := Contains(keysForLong, name);
      if isLong {
        if value.None? { return None; }
        var n := ParseLong(value.value);
        return if n.Some? then Some(LongValue(value.value, n.value)) else None;
      }
      var isFloat := Contains(keysForFloat, name);
      if isFloat {
        if value.None? { return None; }
        return if p.parsesFloat(value.value) then Some(FloatValue(value.value)) else None;
      }
      var isDouble := Contains(keysForDouble, name);
      if isDouble {
        if value.None? { return None; }
        return if p.parsesDouble(value.value) then Some(DoubleValue(value.value)) else None;
      }
      return Some(StringValue(value));
    }

    /**
     * `convertFrom`: visits the entries one at a time, in an order it does
     * not control, skipping unnamed entries and entries whose coercion fails.
     */
    method ConvertFrom(p: Platform, schemeParams: Params) returns (r: Option<map<string, SchemeValue>>)
      ensures r == Convert(Snapshot(), p, schemeParams)
    {
      if schemeParams.None? || |schemeParams.value| == 0 {
        return None;
      }
      var params := schemeParams.value;
      ghost var visited: RawMap := map[];
      var queryMap: map<string, SchemeValue> := map[];
      var rest := params.Keys;
      while rest != {}
        invariant rest <= params.Keys
        invariant forall o :: o in visited <==> o in params && o !in rest
        invariant forall o :: o in visited ==> visited[o] == params[o]
        invariant queryMap == ConvertEntries(Snapshot(), p, visited)
        decreases rest
      {
        var entry :| entry in rest;
        var value := params[entry];
        var v: Option<SchemeValue> := None;
        if entry.Some? && entry.value != "" {
          v := ConvertParam(p, entry.value, value);
        }
        ConvertEntriesAdd(Snapshot(), p, visited, entry, value);
        if v.Some? {
          queryMap := queryMap[entry.value := v.value];
        }
        visited := visited[entry := value];
        rest := rest - {entry};
      }
      assert visited == params;
      return Some(queryMap);
    }

    /** `match`: checks the required keys in order and stops at the first that fails. */
    method Match(scheme: Params) returns (b: bool)
      ensures b == Matches(Snapshot(), scheme)
    {
      if required.None? || |required.value| == 0 {
        return true;
      }
      if scheme.None? || |scheme.value| == 0 {
        return false;
      }
      var req := required.value;
      var m := scheme.value;
      for i := 0 to |req|
        invariant forall j :: 0 <= j < i ==> Satisfies(m, req[j])
      {
        var key := req[i].0;
        if Some(key) !in m {
          return false;
        }
        var value := req[i].1;
        if value.None? {
          continue;
        }
        var actual := m[Some(key)];
        if actual.None? || actual.value != value.value {
          return false;
        }
      }
      return true;
    }
  }
}
