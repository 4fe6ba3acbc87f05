/** JSON values as the store hands them out, the arguments callers pass, and
    the two JavaScript comparisons the value layer relies on: `typeof` and
    strict equality (`===`, which `Array.prototype.indexOf` uses). */
module Values {

  datatype Option<+T> = None | Some(value: T)

  /** A JSON document as `JSON.parse` returns it. Numbers are exact reals:
      the model keeps JavaScript's number semantics for +, -, *, / and %
      but not its rounding. */
  datatype Json =
    | Null
    | Bool(b: bool)
    | Num(n: real)
    | Str(s: string)
    | Arr(items: seq<Json>)
    | Obj(fields: map<string, Json>)

  /** An amount as a caller passes it: omitted (`undefined`), the number
      +Infinity, or a JSON value. */
  datatype Arg = Undefined | Infinity | Given(value: Json)

  /** `typeof data === 'number'`: +Infinity is a number too. */
  predicate IsNumber(data: Arg): (r: bool)
    ensures data.Given? ==> (r <==> TypeOf(Some(data.value)) == "number")
    ensures data.Infinity? ==> r
    ensures data.Undefined? ==> !r
  {
    data.Infinity? || (data.Given? && data.value.Num?)
  }

  /** Null, booleans, numbers and strings are compared by value; arrays and
      objects by reference. */
  predicate IsPrimitive(v: Json) {
    !v.Arr? && !v.Obj?
  }

  /** `a === b` where `a` comes fresh from `JSON.parse`: an array or object
      parsed from storage is a new reference, so it is never strictly equal
      to anything a caller holds. */
  function StrictEq(a: Json, b: Json): (r: bool)
    ensures r <==> IsPrimitive(a) && a == b
  {
    match (a, b)
    case (Null, Null) => true
    case (Bool(x), Bool(y)) => x == y
    case (Num(x), Num(y)) => x == y
    case (Str(x), Str(y)) => x == y
    case _ => false
  }

  /** The tag JavaScript's `typeof` gives a value read from storage, where
      an absent value reads as `undefined`. */
  function TypeOf(v: Option<Json>): (tag: string)
    ensures tag == "undefined" <==> v.None?
    ensures tag == "object" <==> v.Some? && (v.value.Null? || !IsPrimitive(v.value))
    ensures tag == "number" <==> v.Some? && v.value.Num?
    ensures tag == "string" <==> v.Some? && v.value.Str?
    ensures tag == "boolean" <==> v.Some? && v.value.Bool?
  {
    match v
    case None => "undefined"
    case Some(Null) => "object"
    case Some(Bool(_)) => "boolean"
    case Some(Num(_)) => "number"
    case Some(Str(_)) => "string"
    case Some(Arr(_)) => "object"
    case Some(Obj(_)) => "object"
  }

  /** `s.endsWith(suffix)`; `s.startsWith(prefix)` is Dafny's `prefix <= s`. */
  predicate IsSuffix(suffix: string, s: string) {
    |suffix| <= |s| && s[|s| - |suffix|..] == suffix
  }

  /** `endsWith` means what it says: `s` is some string followed by `suffix`. */
  lemma IsSuffixIff(suffix: string, s: string)
    ensures IsSuffix(suffix, s) <==> exists t: string :: s == t + suffix
  {
    if IsSuffix(suffix, s) {
      assert s == s[..|s| - |suffix|] + suffix;
    }
    if exists t: string :: s == t + suffix {
      var t: string :| s == t + suffix;
      assert s[|t|..] == suffix;
    }
  }
}
