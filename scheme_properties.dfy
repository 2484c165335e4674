/**
 * What `convertFrom` and `match` promise, stated on the specification
 * functions that the methods of `SchemeItem` are proved to compute.
 */
module SchemeProperties {
  import opened Wrappers
  import opened JavaLang
  import opened Scheme

  // ---------------------------------------------------------------------
  // convertFrom

  /** The result is null exactly when the input is null or empty. */
  lemma ConvertAbsent(s: Schema, p: Platform, params: Params)
    ensures Convert(s, p, params).None? <==> params.None? || params.value == map[]
  {
    if params.Some? && params.value != map[] {
      var o :| o in params.value;
      assert |params.value| > 0;
    }
  }

  lemma ConvertKeys(s: Schema, p: Platform, m: RawMap)
    ensures forall k :: k in ConvertEntries(s, p, m) ==> k != "" && Some(k) in m
  {
  }

  /**
   * Every stored value carries the type chosen for its name, fits that
   * Java type, and keeps the raw string it came from.
   */
  lemma {:induction false} ConvertedValue(s: Schema, p: Platform, m: RawMap, name: string)
    requires name in ConvertEntries(s, p, m)
    ensures var v := ConvertEntries(s, p, m)[name];
            v.Tag() == TypeOf(s, p, name) && v.WellTyped() && v.Raw() == m[Some(name)]
  {
    var value := m[Some(name)];
    match TypeOf(s, p, name)
    case IntType =>
      assert ParseInt(value.value).Some?;
    case LongType =>
      assert ParseLong(value.value).Some?;
    case _ =>
  }

  /** The type priority: int, then bool or the force-new-activity flag, long, float, double, string. */
  lemma TypePriority(s: Schema, p: Platform, name: string)
    ensures TypeOf(s, p, name) == IntType <==> HasKey(s.intKeys, name)
    ensures TypeOf(s, p, name) == BoolType
            <==> !HasKey(s.intKeys, name) && (name == p.forceToNewActivity || HasKey(s.boolKeys, name))
    ensures TypeOf(s, p, name) == LongType
            <==> !HasKey(s.intKeys, name) && name != p.forceToNewActivity && !HasKey(s.boolKeys, name)
                 && HasKey(s.longKeys, name)
    ensures TypeOf(s, p, name) == FloatType
            <==> !HasKey(s.intKeys, name) && name != p.forceToNewActivity && !HasKey(s.boolKeys, name)
                 && !HasKey(s.longKeys, name) && HasKey(s.floatKeys, name)
    ensures TypeOf(s, p, name) == DoubleType
            <==> !HasKey(s.intKeys, name) && name != p.forceToNewActivity && !HasKey(s.boolKeys, name)
                 && !HasKey(s.longKeys, name) && !HasKey(s.floatKeys, name) && HasKey(s.doubleKeys, name)
    ensures TypeOf(s, p, name) == StringType
            <==> !HasKey(s.intKeys, name) && name != p.forceToNewActivity && !HasKey(s.boolKeys, name)
                 && !HasKey(s.longKeys, name) && !HasKey(s.floatKeys, name) && !HasKey(s.doubleKeys, name)
  {
  }

  /** A name in none of the key lists, and not the flag, is stored as its raw string. */
  lemma StringPassthrough(s: Schema, p: Platform, m: RawMap, name: string)
    requires name != "" && Some(name) in m
    requires !HasKey(s.intKeys, name) && name != p.forceToNewActivity && !HasKey(s.boolKeys, name)
    requires !HasKey(s.longKeys, name) && !HasKey(s.floatKeys, name) && !HasKey(s.doubleKeys, name)
    ensures name in ConvertEntries(s, p, m)
    ensures ConvertEntries(s, p, m)[name] == StringValue(m[Some(name)])
  {
  }

  /**
   * The boolean rule: a bool-typed name with a non-null value is always
   * stored, and its value is false exactly for "0" and any casing of "false".
   */
  lemma BoolRule(s: Schema, p: Platform, m: RawMap, name: string, v: string)
    requires name != "" && Some(name) in m && m[Some(name)] == Some(v)
    requires !HasKey(s.intKeys, name) && (name == p.forceToNewActivity || HasKey(s.boolKeys, name))
    ensures name in ConvertEntries(s, p, m)
    ensures ConvertEntries(s, p, m)[name] == BoolValue(v, !(v == "0" || ToLowerCase(v) == "false"))
  {
  }

  /** "false" under ASCII case folding is exactly five letters f, a, l, s, e in any case. */
  lemma {:induction false} FalseSpelling(v: string)
    ensures IsFalse(v)
            <==> v == "0"
                 || (&& |v| == 5
                     && v[0] in "fF" && v[1] in "aA" && v[2] in "lL" && v[3] in "sS" && v[4] in "eE")
  {
    var lower := ToLowerCase(v);
    if |v| == 5 && v[0] in "fF" && v[1] in "aA" && v[2] in "lL" && v[3] in "sS" && v[4] in "eE" {
      assert lower == "false";
    }
    if lower == "false" {
      assert LowerChar(v[0]) == 'f' && LowerChar(v[1]) == 'a' && LowerChar(v[2]) == 'l';
      assert LowerChar(v[3]) == 's' && LowerChar(v[4]) == 'e';
    }
  }

  /** The boolean rule on the spellings the rule is known by. */
  lemma BoolExamples()
    ensures IsFalse("0") && IsFalse("false") && IsFalse("FALSE") && IsFalse("FaLsE")
    ensures !IsFalse("") && !IsFalse("no") && !IsFalse("1") && !IsFalse("true") && !IsFalse("00")
    ensures !IsFalse("falsey") && !IsFalse(" false")
  {
    assert IsFalse("FALSE") by { FalseSpelling("FALSE"); }
    assert IsFalse("FaLsE") by { FalseSpelling("FaLsE"); }
    assert IsFalse("false") by { FalseSpelling("false"); }
    assert !IsFalse("") by { FalseSpelling(""); }
    assert !IsFalse("no") by { FalseSpelling("no"); }
    assert !IsFalse("1") by { FalseSpelling("1"); }
    assert !IsFalse("true") by { FalseSpelling("true"); }
    assert !IsFalse("00") by { FalseSpelling("00"); }
    assert !IsFalse("falsey") by { FalseSpelling("falsey"); }
    assert !IsFalse(" false") by { FalseSpelling(" false"); }
  }

  /**
   * A failed coercion drops only its own entry: the result is still
   * non-null and equals the result for the input without that entry.
   */
  lemma ParseFailureDropsOnlyThatEntry(s: Schema, p: Platform, m: RawMap, name: string)
    requires Some(name) in m && Coerce(s, p, name, m[Some(name)]).None?
    ensures Convert(s, p, Some(m)).Some?
    ensures name !in Convert(s, p, Some(m)).value
    ensures Convert(s, p, Some(m)).value == ConvertEntries(s, p, m - {Some(name)})
  {
    var rest := m - {Some(name)};
    assert rest[Some(name) := m[Some(name)]] == m;
    ConvertEntriesSkip(s, p, rest, Some(name), m[Some(name)]);
    assert |m| > 0;
  }

  /** What one entry holds never changes the result under any other name. */
  lemma {:induction false} ConvertIsLocal(s: Schema, p: Platform, m: RawMap, o: Option<string>, value: Option<string>, name: string)
    requires o != Some(name)
    ensures name in ConvertEntries(s, p, m) <==> name in ConvertEntries(s, p, m[o := value])
    ensures name in ConvertEntries(s, p, m) ==> ConvertEntries(s, p, m)[name] == ConvertEntries(s, p, m[o := value])[name]
  {
    ConvertEntriesAt(s, p, m, name);
    ConvertEntriesAt(s, p, m[o := value], name);
  }

  /** A null value is stored only under a string-typed name. */
  lemma NullValue(s: Schema, p: Platform, m: RawMap, name: string)
    requires name != "" && Some(name) in m && m[Some(name)].None?
    ensures name in ConvertEntries(s, p, m) <==> TypeOf(s, p, name) == StringType
  {
  }

  /**
   * An int key with a value that is not a number is dropped; the other
   * entries stay. `n` is coerced as an int even when it is also the
   * force-new-activity flag.
   */
  lemma IntParseFailureExample(p: Platform)
    requires p.forceToNewActivity != "a"
    ensures var s := Schema(None, Some([Some("n")]), None, None, None, None);
            Convert(s, p, Some(map[Some("n") := Some("abc"), Some("a") := Some("1")]))
            == Some(map["a" := StringValue(Some("1"))])
  {
    var s := Schema(None, Some([Some("n")]), None, None, None, None);
    var m := map[Some("n") := Some("abc"), Some("a") := Some("1")];
    var rest := map[Some("a") := Some("1")];
    assert ConvertEntries(s, p, rest) == map["a" := StringValue(Some("1"))] by {
      assert "a" != "n" by { assert "a"[0] != "n"[0]; }
      assert TypeOf(s, p, "a") == StringType;
      ConvertEntriesPut(s, p, map[], "a", Some("1"));
      assert rest == map[][Some("a") := Some("1")];
    }
    assert ConvertEntries(s, p, m) == ConvertEntries(s, p, rest) by {
      assert ParseInt("abc").None?;
      assert Coerce(s, p, "n", Some("abc")).None?;
      ConvertEntriesSkip(s, p, rest, Some("n"), Some("abc"));
      assert m == rest[Some("n") := Some("abc")];
    }
    assert |m| > 0;
  }

  /** An entry with an empty name is dropped. */
  lemma EmptyNameExample(s: Schema, p: Platform)
    requires TypeOf(s, p, "a") == StringType
    ensures Convert(s, p, Some(map[Some("") := Some("v"), Some("a") := Some("1")]))
            == Some(map["a" := StringValue(Some("1"))])
  {
    var m := map[Some("") := Some("v"), Some("a") := Some("1")];
    var named := map[Some("a") := Some("1")];
    assert ConvertEntries(s, p, named) == map["a" := StringValue(Some("1"))] by {
      ConvertEntriesPut(s, p, map[], "a", Some("1"));
      assert named == map[][Some("a") := Some("1")];
    }
    assert ConvertEntries(s, p, m) == ConvertEntries(s, p, named) by {
      ConvertEntriesSkip(s, p, named, Some(""), Some("v"));
      assert m == named[Some("") := Some("v")];
    }
    assert |m| > 0;
  }

  // ---------------------------------------------------------------------
  // match

  /** A route without required keys matches every input, null included. */
  lemma MatchWithoutRequired(s: Schema, scheme: Params)
    requires s.required.None? || s.required.value == []
    ensures Matches(s, scheme)
  {
  }

  /** A route with required keys never matches a null or empty input. */
  lemma MatchEmptyInput(s: Schema, scheme: Params)
    requires s.required.Some? && s.required.value != []
    requires scheme.None? || scheme.value == map[]
    ensures !Matches(s, scheme)
  {
  }

  /**
   * The general case: with required keys and a non-null input, `match`
   * holds exactly when each required key is in the input and, where it
   * demands a literal, the input's value is non-null and equal to it.
   */
  lemma MatchIff(s: Schema, m: RawMap)
    requires s.required.Some? && s.required.value != []
    ensures Matches(s, Some(m))
            <==> forall i :: 0 <= i < |s.required.value| ==>
                   var (key, literal) := s.required.value[i];
                   && Some(key) in m
                   && (literal.Some? ==> m[Some(key)].Some? && m[Some(key)].value == literal.value)
  {
    var req := s.required.value;
    if forall i :: 0 <= i < |req| ==> Satisfies(m, req[i]) {
      assert Satisfies(m, req[0]);
      assert |m| > 0;
    }
  }

  /** Two inputs that agree on every required key match alike: extra keys never matter. */
  lemma {:induction false} MatchOnlyReadsRequiredKeys(s: Schema, m1: RawMap, m2: RawMap)
    requires s.required.Some?
    requires forall i :: 0 <= i < |s.required.value| ==>
               var key := Some(s.required.value[i].0);
               (key in m1 <==> key in m2) && (key in m1 ==> m1[key] == m2[key])
    ensures Matches(s, Some(m1)) == Matches(s, Some(m2))
  {
    var req := s.required.value;
    if req != [] {
      forall i | 0 <= i < |req| ensures Satisfies(m1, req[i]) <==> Satisfies(m2, req[i]) {
      }
      if Satisfies(m1, req[0]) || Satisfies(m2, req[0]) {
        assert Some(req[0].0) in m1 && Some(req[0].0) in m2;
        assert |m1| > 0 && |m2| > 0;
      }
    }
  }

  /** Adding entries under names that are not required leaves the result of `match` unchanged. */
  lemma MatchIgnoresExtraKeys(s: Schema, m: RawMap, extra: RawMap)
    requires s.required.Some?
    requires forall i :: 0 <= i < |s.required.value| ==> Some(s.required.value[i].0) !in extra
    ensures Matches(s, Some(m + extra)) == Matches(s, Some(m))
  {
    MatchOnlyReadsRequiredKeys(s, m + extra, m);
  }

  /** The order of the required keys and repeated entries in it do not matter. */
  lemma {:induction false} MatchIgnoresRequiredOrder(s1: Schema, s2: Schema, scheme: Params)
    requires s1.required.Some? && s2.required.Some?
    requires forall x :: x in s1.required.value <==> x in s2.required.value
    ensures Matches(s1, scheme) == Matches(s2, scheme)
  {
    var r1, r2 := s1.required.value, s2.required.value;
    assert r1 == [] <==> r2 == [] by {
      if r1 != [] { assert r1[0] in r2; }
      if r2 != [] { assert r2[0] in r1; }
    }
    if scheme.Some? {
      var m := scheme.value;
      if forall i :: 0 <= i < |r1| ==> Satisfies(m, r1[i]) {
        forall j | 0 <= j < |r2| ensures Satisfies(m, r2[j]) {
          assert r2[j] in r1;
          var i :| 0 <= i < |r1| && r1[i] == r2[j];
          assert Satisfies(m, r1[i]);
        }
      }
      if forall j :: 0 <= j < |r2| ==> Satisfies(m, r2[j]) {
        forall i | 0 <= i < |r1| ensures Satisfies(m, r1[i]) {
          assert r1[i] in r2;
          var j :| 0 <= j < |r2| && r2[j] == r1[i];
          assert Satisfies(m, r2[j]);
        }
      }
    }
  }

  /** A required key with a null literal demands presence only; one with a literal, that value. */
  lemma MatchExamples()
    ensures Matches(Schema(None, None, None, None, None, None), Some(map[]))
    ensures Matches(Schema(Some([]), None, None, None, None, None), None)
    ensures !Matches(Schema(Some([("a", None)]), None, None, None, None, None), Some(map[]))
    ensures Matches(Schema(Some([("a", None)]), None, None, None, None, None), Some(map[Some("a") := Some("x")]))
    ensures Matches(Schema(Some([("a", None)]), None, None, None, None, None), Some(map[Some("a") := None]))
    ensures !Matches(Schema(Some([("a", Some("1"))]), None, None, None, None, None), Some(map[Some("a") := Some("2")]))
    ensures !Matches(Schema(Some([("a", Some("1"))]), None, None, None, None, None), Some(map[Some("a") := None]))
    ensures Matches(Schema(Some([("a", Some("1"))]), None, None, None, None, None), Some(map[Some("a") := Some("1")]))
  {
    assert |map[Some("a") := Some("x")]| > 0;
    assert |map[Some("a") := Option<string>.None]| > 0;
    assert |map[Some("a") := Some("1")]| > 0;
    assert "2" != "1" by { assert "2"[0] != "1"[0]; }
    assert !Satisfies(map[Some("a") := Some("2")], [("a", Some("1"))][0]);
  }

  // ---------------------------------------------------------------------
  // a route end to end

  /**
   * A profile route: requires `type=profile` and declares `uid` an int.
   * The input `type=profile&uid=42` matches it and converts to a string
   * and an int, whatever the name of the force-new-activity flag is for `uid`.
   */
  lemma ProfileRoute(p: Platform)
    requires p.forceToNewActivity != "type"
    ensures var s := Schema(Some([("type", Some("profile"))]), Some([Some("uid")]), None, None, None, None);
            var m := map[Some("type") := Some("profile"), Some("uid") := Some("42")];
            && Matches(s, Some(m))
            && Convert(s, p, Some(m))
               == Some(map["type" := StringValue(Some("profile")), "uid" := IntValue("42", 42)])
  {
    var s := Schema(Some([("type", Some("profile"))]), Some([Some("uid")]), None, None, None, None);
    var m := map[Some("type") := Some("profile"), Some("uid") := Some("42")];
    var first := map[Some("type") := Some("profile")];
    assert |m| > 0;
    assert Matches(s, Some(m)) by {
      assert Satisfies(m, s.required.value[0]);
    }
    assert ConvertEntries(s, p, first) == map["type" := StringValue(Some("profile"))] by {
      assert "type" != "uid" by { assert "type"[0] != "uid"[0]; }
      assert TypeOf(s, p, "type") == StringType;
      ConvertEntriesPut(s, p, map[], "type", Some("profile"));
      assert first == map[][Some("type") := Some("profile")];
    }
    assert ConvertEntries(s, p, m) == ConvertEntries(s, p, first)["uid" := IntValue("42", 42)] by {
      assert ParseInt("42") == Some(42) by {
        assert "42"[..1] == "4" && "4"[..0] == "";
        assert DigitsValue("42") == 42;
      }
      assert Coerce(s, p, "uid", Some("42")) == Some(IntValue("42", 42));
      ConvertEntriesPut(s, p, first, "uid", Some("42"));
      assert m == first[Some("uid") := Some("42")];
    }
  }
}
