# SchemeItem: route matching and parameter coercion

This project models `SchemeItem`, the part of QMUI's URI scheme dispatch
that describes one route. It has three operations:

- `match` decides whether the raw parameters of a URI satisfy the route's
  required keys. A required key may also demand an exact literal value.
- `convertFrom` turns the raw `(name, value)` string pairs into typed
  `SchemeValue`s. The type of each name comes from a fixed priority: int,
  then bool or the force-new-activity flag, then long, float, double and
  string.
- `contains` is the membership scan over a nullable key array that both
  of them use.

Files:

- `wrappers.dfy`: `Option`, which stands for Java's `null`.
- `java_lang.dfy`: the parts of `java.lang` that the core calls.
  - `Integer.valueOf` and `Long.valueOf` in radix 10: an optional sign,
    ASCII digits, and a check against the 32-bit or 64-bit range.
  - `String.toLowerCase` with ASCII case folding.
  - A decimal formatter, used to prove that the parser reads back what
    the formatter writes.
- `scheme.dfy`: the route as a value and the class.
  - The schema value (`Schema`) and the typed values (`SchemeValue`, one
    constructor per kind).
  - The meaning of each operation as a pure function.
  - The class `SchemeItem`, whose six constant fields are set by the
    constructor. Its loop methods `ConvertFrom` and `Match`, and the
    module-level `Contains`, are each proved to compute one of those
    functions.
- `scheme_properties.dfy`: what the operations promise, proved as lemmas
  on those functions.

Nulls are modelled where the Java code tests for them or is affected by
them:

- The input map, its keys and its values are all `Option`s.
- The key arrays and their elements are `Option`s.
- A literal in the required keys may be null.

A null value under an int, bool, long, float or double name makes the
Java conversion throw, so that entry is dropped. Under a string name,
the null value is stored as it is.

Code outside the file becomes a parameter (`Platform`):

- the name `QMUISchemeHandler.ARG_FORCE_TO_NEW_ACTIVITY`;
- which strings `Float.valueOf` accepts;
- which strings `Double.valueOf` accepts.

`SchemeValue.java`, `QMUISchemeHandler.java` and `QMUILog.java` are not
part of this model.

The key arrays are real arrays, shared with whoever built the route.
`Snapshot()` reads their contents at the time of each call, so a caller
that changes an array afterwards changes what later calls see, as in
Java.

## Model

| member | source | states |
|---|---|---|
| `Scheme.SchemeItem.constructor` | arch/src/main/java/com/qmuiteam/qmui/arch/scheme/SchemeItem.java:43-55 | the six schema fields hold exactly the constructor's arguments |
| `Scheme.Contains` | arch/src/main/java/com/qmuiteam/qmui/arch/scheme/SchemeItem.java:93-103 | the result is true exactly when the array is non-null and some element equals the key; it is false for a null or empty array |
| `Scheme.SchemeItem.ConvertParam` | arch/src/main/java/com/qmuiteam/qmui/arch/scheme/SchemeItem.java:70-88 | the try block gives the coercion of the value to the type the name is given by the priority rule, or nothing when that coercion throws |
| `Scheme.SchemeItem.ConvertFrom` | arch/src/main/java/com/qmuiteam/qmui/arch/scheme/SchemeItem.java:57-91 | visiting the entries in any order gives the result `Convert` describes for the current schema |
| `Scheme.SchemeItem.Match` | arch/src/main/java/com/qmuiteam/qmui/arch/scheme/SchemeItem.java:106-129 | the early-returning loop gives the result `Matches` describes for the current schema |
| `Scheme.ConvertEntriesAdd` | arch/src/main/java/com/qmuiteam/qmui/arch/scheme/SchemeItem.java:64-89 | one more input entry adds at most its own name to the result: it is skipped for a null or empty name or a failed coercion, and `put` otherwise |
| `Scheme.ConvertEntriesPut` | arch/src/main/java/com/qmuiteam/qmui/arch/scheme/SchemeItem.java:71-84 | an extra entry with a non-empty name whose coercion succeeds adds exactly that name, with that value, to the result |
| `Scheme.ConvertEntriesSkip` | arch/src/main/java/com/qmuiteam/qmui/arch/scheme/SchemeItem.java:67-69 | an extra entry with a null or empty name, or whose coercion throws, leaves the result unchanged |
| `JavaLang.ParseDecimal` | arch/src/main/java/com/qmuiteam/qmui/arch/scheme/SchemeItem.java:72-77 | a successful `Integer.valueOf` or `Long.valueOf` gives a value in the type's range, read from a string that ends in a digit |
| `JavaLang.ParseSpelling` | arch/src/main/java/com/qmuiteam/qmui/arch/scheme/SchemeItem.java:72-77 | `Integer.valueOf` or `Long.valueOf` returns `n` exactly when `n` is in the type's range and the string is an optional sign ('-' only for `n <= 0`), any number of zeros and the shortest spelling of `|n|`; every other string throws |
| `JavaLang.DigitsCanonical` | arch/src/main/java/com/qmuiteam/qmui/arch/scheme/SchemeItem.java:72-77 | every run of digits is some leading zeros followed by the shortest spelling of its value |
| `JavaLang.ParseExamples` | arch/src/main/java/com/qmuiteam/qmui/arch/scheme/SchemeItem.java:72 | "+42", "007" and "-0" parse as 42, 7 and 0; "", "+", " 1" and "+-1" throw |
| `JavaLang.ParseFormat` | arch/src/main/java/com/qmuiteam/qmui/arch/scheme/SchemeItem.java:72-77 | parsing the decimal spelling of any in-range value gives that value back |
| `JavaLang.FormatNat` | arch/src/main/java/com/qmuiteam/qmui/arch/scheme/SchemeItem.java:72-77 | the formatter writes a non-empty run of digits (the parser's inverse) |
| `JavaLang.DigitsValueOfFormat` | arch/src/main/java/com/qmuiteam/qmui/arch/scheme/SchemeItem.java:72-77 | the digits the formatter writes for `n` are read back as `n` |
| `JavaLang.ToLowerCase` | arch/src/main/java/com/qmuiteam/qmui/arch/scheme/SchemeItem.java:74 | lower-casing keeps the length and folds each character on its own |
| `SchemeProperties.ConvertAbsent` | arch/src/main/java/com/qmuiteam/qmui/arch/scheme/SchemeItem.java:58-63 | the result is null exactly when the input is null or empty, and otherwise a map, possibly empty |
| `Scheme.ConvertEntriesAt` | arch/src/main/java/com/qmuiteam/qmui/arch/scheme/SchemeItem.java:64-90 | a name is in the result exactly when it is non-empty, is an input key and coerces; its value is that coercion |
| `SchemeProperties.ConvertKeys` | arch/src/main/java/com/qmuiteam/qmui/arch/scheme/SchemeItem.java:64-69 | no key of the result is empty, and every key of the result is a key of the input |
| `SchemeProperties.ConvertedValue` | arch/src/main/java/com/qmuiteam/qmui/arch/scheme/SchemeItem.java:70-84 | every stored value has the tag its name's type calls for, fits that Java type's range, and keeps the raw string it came from |
| `SchemeProperties.TypePriority` | arch/src/main/java/com/qmuiteam/qmui/arch/scheme/SchemeItem.java:71-84 | each type is chosen exactly when its keys name the name and no earlier type's do: int first, then the force flag or a bool key, then long, float, double; a name none of these claims is string |
| `SchemeProperties.StringPassthrough` | arch/src/main/java/com/qmuiteam/qmui/arch/scheme/SchemeItem.java:82-84 | a named entry in no key list, and not the force flag, is always stored as its raw string, with the string tag |
| `SchemeProperties.BoolRule` | arch/src/main/java/com/qmuiteam/qmui/arch/scheme/SchemeItem.java:73-75 | a non-int name that is the force flag or a bool key, with a non-null value, is always stored as a bool that is false exactly for "0" or a value that lower-cases to "false" |
| `SchemeProperties.FalseSpelling` | arch/src/main/java/com/qmuiteam/qmui/arch/scheme/SchemeItem.java:74 | a value counts as false exactly when it is "0" or the five letters f, a, l, s, e in any mix of cases |
| `SchemeProperties.BoolExamples` | arch/src/main/java/com/qmuiteam/qmui/arch/scheme/SchemeItem.java:74-75 | "0", "false", "FALSE" and "FaLsE" are false; "", "no", "1", "true", "00", "falsey" and " false" are true |
| `SchemeProperties.ParseFailureDropsOnlyThatEntry` | arch/src/main/java/com/qmuiteam/qmui/arch/scheme/SchemeItem.java:70-88 | an entry whose coercion throws is absent, the result is still non-null, and it equals the result for the input without that entry |
| `SchemeProperties.ConvertIsLocal` | arch/src/main/java/com/qmuiteam/qmui/arch/scheme/SchemeItem.java:64-89 | changing or adding one entry never changes the result under any other name |
| `SchemeProperties.NullValue` | arch/src/main/java/com/qmuiteam/qmui/arch/scheme/SchemeItem.java:66-84 | a named entry with a null value is stored exactly when its type is string |
| `SchemeProperties.IntParseFailureExample` | arch/src/main/java/com/qmuiteam/qmui/arch/scheme/SchemeItem.java:71-88 | with `n` an int key, `{n: "abc", a: "1"}` converts to just `{a: "1"}` as a string, even when `n` is also the force flag |
| `SchemeProperties.EmptyNameExample` | arch/src/main/java/com/qmuiteam/qmui/arch/scheme/SchemeItem.java:67-69 | `{"": "v", a: "1"}` converts to just `{a: "1"}` |
| `SchemeProperties.MatchWithoutRequired` | arch/src/main/java/com/qmuiteam/qmui/arch/scheme/SchemeItem.java:107-109 | with no required keys (null or empty), every input matches, a null one included |
| `SchemeProperties.MatchEmptyInput` | arch/src/main/java/com/qmuiteam/qmui/arch/scheme/SchemeItem.java:110-112 | with required keys, a null or empty input never matches |
| `SchemeProperties.MatchIff` | arch/src/main/java/com/qmuiteam/qmui/arch/scheme/SchemeItem.java:113-128 | with required keys, an input matches exactly when it has every required key and, wherever the literal is non-null, a non-null value equal to it |
| `SchemeProperties.MatchOnlyReadsRequiredKeys` | arch/src/main/java/com/qmuiteam/qmui/arch/scheme/SchemeItem.java:113-128 | two inputs that agree on presence and value at every required key match alike |
| `SchemeProperties.MatchIgnoresExtraKeys` | arch/src/main/java/com/qmuiteam/qmui/arch/scheme/SchemeItem.java:113-128 | adding entries under names that are not required never changes the result |
| `SchemeProperties.MatchIgnoresRequiredOrder` | arch/src/main/java/com/qmuiteam/qmui/arch/scheme/SchemeItem.java:113-128 | reordering or repeating the required keys never changes the result |
| `SchemeProperties.MatchExamples` | arch/src/main/java/com/qmuiteam/qmui/arch/scheme/SchemeItem.java:106-129 | a null literal needs presence only, a null actual value fails a literal, and a different value fails it |
| `SchemeProperties.ProfileRoute` | arch/src/main/java/com/qmuiteam/qmui/arch/scheme/SchemeItem.java:57-129 | a route that requires `type=profile` and declares `uid` an int matches `type=profile&uid=42`, which converts to a string `profile` and the int 42 |

## Left out

- `handle` (line 131) is abstract. Its implementations depend on Android's `Activity` and on `QMUISchemeHandler`, so they are not modelled.
- The diagnostic `QMUILog.printErrStackTrace` in the catch branch is I/O. A caught exception is modelled only as "entry skipped".
- `Float.valueOf` and `Double.valueOf` are floating-point parses. They are modelled as the predicates `Platform.parsesFloat` and `Platform.parsesDouble`. A float or double value keeps only its raw text, not a number.
- `Integer.valueOf` and `Long.valueOf` also accept non-ASCII decimal digits, through `Character.digit`. The model accepts ASCII digits only.
- `String.toLowerCase` depends on the locale and on all of Unicode. The model folds ASCII only. The value is compared with "false", and no non-ASCII character lower-cases to one of its letters, so the boolean rule comes out the same.
- `HashMap` iteration order is not modelled. `ConvertFrom` visits the keys in an arbitrary order that it does not control, and the result is proved the same for every order.
- `mRequired` is an `ArrayMap`, which is a mutable object shared with the caller. It is modelled as an immutable sequence of `(key, literal)` pairs, so a caller that changes it after construction is not modelled. Null required keys are not modelled either: the routes' generated code writes them as string literals.
- Any other `RuntimeException` that `HashMap.put` or the `SchemeValue` constructor might throw is not modelled. `SchemeValue.java` is not part of this model; its constructor is taken to store its three arguments.
- Idempotence of `convertFrom` holds by construction: `ConvertFrom` is proved equal to the function `Convert` of its inputs and the current schema.
- The outside dispatcher tries candidate routes, calling `match` and then `convertFrom` and `handle`. It is outside `SchemeItem` and is not modelled.
