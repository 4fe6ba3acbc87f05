/** Callers' view: sequences of calls whose outcome follows from the
    contracts of `CodersDB` alone. */
module Scenarios {
  import opened Values
  import opened Validation
  import opened Arithmetic
  import opened Store

  /** `set(k, v)` then `get(k)` gives `v` back; a second key is untouched. */
  method SetThenGet(db: CodersDB, key: string, v: Json, other: string)
    returns (got: Result<Option<Json>>, untouched: bool)
    requires db.Valid() && key != "" && other != "" && other != key
    modifies db
    ensures db.Valid()
    ensures got == Ok(Some(v))
    ensures untouched
  {
    var before := db.Get(other);
    var _ := db.Set(key, Some(v));
    got := db.Get(key);
    var after := db.Get(other);
    untouched := before == after;
  }

  /** On a fresh key `subtract` refuses and changes nothing, while `add`
      starts from 0. */
  method AddSeedsSubtractRefuses(db: CodersDB, key: string, n: real)
    returns (subtracted: Result<real>, added: Result<real>)
    requires db.Valid() && key != "" && key !in db.Data()
    modifies db
    ensures subtracted == Err(StoredNotNumber)
    ensures added == Ok(n)
  {
    assert Validate(Some(key), Given(Num(n)), true) == Pass;
    subtracted := db.Subtract(key, Given(Num(n)));
    added := db.Add(key, Given(Num(n)));
  }

  /** On a fresh key `pull` refuses and changes nothing, while `push`
      starts from the empty array. */
  method PushSeedsPullRefuses(db: CodersDB, key: string, e: Json)
    returns (pulled: Result<seq<Json>>, pushed: Result<seq<Json>>)
    requires db.Valid() && key != "" && key !in db.Data()
    modifies db
    ensures pulled == Err(StoredNotArray)
    ensures pushed == Ok([e])
  {
    pulled := db.Pull(key, Some(e));
    assert key !in db.Data();
    pushed := db.Push(key, Some(e));
    assert [] + [e] == [e];
  }

  /** `delete` reports whether the key was there, and a second delete of the
      same key finds nothing. */
  method DeleteTwice(db: CodersDB, key: string) returns (first: Result<bool>, second: Result<bool>, present: Result<bool>)
    requires db.Valid() && key != ""
    modifies db
    ensures first == Ok(key in old(db.Data()))
    ensures second == Ok(false) && present == Ok(false)
  {
    first := db.Delete(key);
    second := db.Delete(key);
    present := db.Has(key);
  }

  /** `math(k, 4, "/")` then `math(k, 0, "/")` on a stored number: the
      second call does not throw, and its non-finite result is stored as
      null, so a further `math` on the key is refused. */
  method DivideByZero(db: CodersDB, key: string)
    returns (quarter: Result<Number>, byZero: Result<Number>, again: Result<Number>)
    requires db.Valid() && key != "" && key in db.Data() && db.Data()[key].Num?
    modifies db
    ensures quarter.Ok? && quarter.value.Finite?
    ensures byZero == Ok(NonFinite)
    ensures again == Err(StoredNotNumber)
  {
    assert Operator("/") == Some(Divide);
    assert Validate(Some(key), Given(Num(4.0)), true) == Pass;
    quarter := db.Math(key, Given(Num(4.0)), "/");
    assert db.Data()[key].Num?;
    assert Validate(Some(key), Given(Num(0.0)), true) == Pass;
    byZero := db.Math(key, Given(Num(0.0)), "/");
    assert db.Data()[key] == Null;
    again := db.Math(key, Given(Num(4.0)), "/");
  }
}
