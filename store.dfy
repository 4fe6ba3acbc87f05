/** `CodersDB`: typed read-modify-write operations and scan views over the
    keyed table. Every call is modelled as atomic; each mutating method reads
    the current value, checks it, and writes the whole new value back. */
module Store {
  import opened Values
  import opened Validation
  import opened Table
  import opened Arithmetic
  import opened JsonArrays

  class CodersDB {
    /** The `json` table, rows in the order a full scan returns them. */
    var rows: seq<Entry>

    /** The table's primary key. */
    ghost predicate Valid()
      reads this
    {
      UniqueIds(rows)
    }

    /** The store as a keyed map: what `toJson()` returns. */
    ghost function Data(): map<string, Json>
      reads this
    {
      ToMap(rows)
    }

    /** Opens a table that already holds `existing`. */
    constructor (existing: seq<Entry>)
      requires UniqueIds(existing)
      ensures Valid() && rows == existing
    {
      rows := existing;
    }

    /** `_getData(key)`: the stored value, or undefined when there is none. */
    function GetData(key: string): (r: Option<Json>)
      reads this
      requires Valid()
      ensures r.Some? <==> key in Data()
      ensures r.Some? ==> r.value == Data()[key]
    {
      FindAgrees(rows, key);
      Find(rows, key)
    }

    /** `_setData(key, data)`: replaces the value under `key` and returns it. */
    method SetData(key: string, data: Json) returns (r: Json)
      requires Valid()
      modifies this
      ensures Valid() && r == data
      ensures Data() == old(Data())[key := data]
    {
      PutSpec(rows, key, data);
      rows := Put(rows, key, data);
      r := data;
    }

    function Get(key: string): (r: Result<Option<Json>>)
      reads this
      requires Valid()
      ensures key == "" <==> r == Err(NoKey)
      ensures key != "" ==> r.Ok? && (r.value.Some? <==> key in Data())
      ensures key != "" && key in Data() ==> r == Ok(Some(Data()[key]))
    {
      match Validate(Some(key), Undefined, false)
      case Fail(e) => Err(e)
      case Pass => Ok(GetData(key))
    }

    /** `data` is None when the caller passes `undefined`. */
    method Set(key: string, data: Option<Json>) returns (r: Result<Json>)
      requires Valid()
      modifies this
      ensures Valid()
      ensures key == "" ==> r == Err(NoKey) && rows == old(rows)
      ensures key != "" && data.None? ==> r == Err(NoValue) && rows == old(rows)
      ensures key != "" && data.Some? ==>
                r == Ok(data.value) && Data() == old(Data())[key := data.value]
    {
      var check := Validate(Some(key), Undefined, false);
      if check.Fail? {
        return Err(check.error);
      }
      if data.None? {
        return Err(NoValue);
      }
      var stored := SetData(key, data.value);
      r := Ok(stored);
    }

    /** Seeds: a missing or non-numeric value counts as 0. */
    method Add(key: string, amount: Arg) returns (r: Result<real>)
      requires Valid()
      modifies this
      ensures Valid()
      ensures Validate(Some(key), amount, true).Fail? ==>
                r == Err(Validate(Some(key), amount, true).error) && rows == old(rows)
      ensures Validate(Some(key), amount, true).Pass? ==>
                amount.Given? && amount.value.Num? &&
                var current := if key in old(Data()) && old(Data())[key].Num? then old(Data())[key].n else 0.0;
                r == Ok(current + amount.value.n) &&
                Data() == old(Data())[key := Num(current + amount.value.n)]
    {
      var check := Validate(Some(key), amount, true);
      if check.Fail? {
        return Err(check.error);
      }
      var current := GetData(key);
      var sum := (if current.Some? && current.value.Num? then current.value.n else 0.0) + amount.value.n;
      var stored := SetData(key, Num(sum));
      r := Ok(stored.n);
    }

    /** Strict: a missing or non-numeric value is an error, never seeded. */
    method Subtract(key: string, amount: Arg) returns (r: Result<real>)
      requires Valid()
      modifies this
      ensures Valid()
      ensures Validate(Some(key), amount, true).Fail? ==>
                r == Err(Validate(Some(key), amount, true).error) && rows == old(rows)
      ensures Validate(Some(key), amount, true).Pass? && !(key in old(Data()) && old(Data())[key].Num?) ==>
                r == Err(StoredNotNumber) && rows == old(rows)
      ensures Validate(Some(key), amount, true).Pass? && key in old(Data()) && old(Data())[key].Num? ==>
                amount.Given? && amount.value.Num? &&
                r == Ok(old(Data())[key].n - amount.value.n) &&
                Data() == old(Data())[key := Num(old(Data())[key].n - amount.value.n)]
    {
      var check := Validate(Some(key), amount, true);
      if check.Fail? {
        return Err(check.error);
      }
      var current := GetData(key);
      if !(current.Some? && current.value.Num?) {
        return Err(StoredNotNumber);
      }
      var stored := SetData(key, Num(current.value.n - amount.value.n));
      r := Ok(stored.n);
    }

    /** Strict like `Subtract`; the operator is checked before the store is
        read. Division or remainder by zero is not an error: the non-finite
        result is returned and stored as `null`. */
    method Math(key: string, amount: Arg, operator: string) returns (r: Result<Number>)
      requires Valid()
      modifies this
      ensures Valid()
      ensures Validate(Some(key), amount, true).Fail? ==>
                r == Err(Validate(Some(key), amount, true).error) && rows == old(rows)
      ensures Validate(Some(key), amount, true).Pass? && Operator(operator).None? ==>
                r == Err(InvalidOperator) && rows == old(rows)
      ensures Validate(Some(key), amount, true).Pass? && Operator(operator).Some? &&
              !(key in old(Data()) && old(Data())[key].Num?) ==>
                r == Err(StoredNotNumber) && rows == old(rows)
      ensures Validate(Some(key), amount, true).Pass? && Operator(operator).Some? &&
              key in old(Data()) && old(Data())[key].Num? ==>
                amount.Given? && amount.value.Num? &&
                var x := Apply(Operator(operator).value, old(Data())[key].n, amount.value.n);
                r == Ok(x) && Data() == old(Data())[key := Stored(x)]
    {
      var check := Validate(Some(key), amount, true);
      if check.Fail? {
        return Err(check.error);
      }
      var op := Operator(operator);
      if op.None? {
        return Err(InvalidOperator);
      }
      var current := GetData(key);
      if !(current.Some? && current.value.Num?) {
        return Err(StoredNotNumber);
      }
      var x := Apply(op.value, current.value.n, amount.value.n);
      var _ := SetData(key, Stored(x));
      r := Ok(x);
    }

    /** Seeds: a missing or non-array value counts as the empty array. */
    method Push(key: string, element: Option<Json>) returns (r: Result<seq<Json>>)
      requires Valid()
      modifies this
      ensures Valid()
      ensures key == "" ==> r == Err(NoKey) && rows == old(rows)
      ensures key != "" && element.None? ==> r == Err(NoElement) && rows == old(rows)
      ensures key != "" && element.Some? ==>
                var base := if key in old(Data()) && old(Data())[key].Arr? then old(Data())[key].items else [];
                r == Ok(base + [element.value]) &&
                Data() == old(Data())[key := Arr(base + [element.value])]
    {
      var check := Validate(Some(key), Undefined, false);
      if check.Fail? {
        return Err(check.error);
      }
      if element.None? {
        return Err(NoElement);
      }
      var current := GetData(key);
      var items := if current.Some? && current.value.Arr? then current.value.items else [];
      items := items + [element.value];
      var stored := SetData(key, Arr(items));
      r := Ok(stored.items);
    }

    /** Strict: the stored value must be an array. Removes the first item
        strictly equal to `element`, if any, and writes the array back. */
    method Pull(key: string, element: Option<Json>) returns (r: Result<seq<Json>>)
      requires Valid()
      modifies this
      ensures Valid()
      ensures key == "" ==> r == Err(NoKey) && rows == old(rows)
      ensures key != "" && element.None? ==> r == Err(NoElement) && rows == old(rows)
      ensures key != "" && element.Some? && !(key in old(Data()) && old(Data())[key].Arr?) ==>
                r == Err(StoredNotArray) && rows == old(rows)
      ensures key != "" && element.Some? && key in old(Data()) && old(Data())[key].Arr? ==>
                var pulled := PullFirst(old(Data())[key].items, element.value);
                r == Ok(pulled) && Data() == old(Data())[key := Arr(pulled)]
    {
      var check := Validate(Some(key), Undefined, false);
      if check.Fail? {
        return Err(check.error);
      }
      if element.None? {
        return Err(NoElement);
      }
      var current := GetData(key);
      if !(current.Some? && current.value.Arr?) {
        return Err(StoredNotArray);
      }
      var items := current.value.items;
      var index := IndexOf(items, element.value);
      if index > -1 {
        items := items[..index] + items[index + 1..];
      }
      var stored := SetData(key, Arr(items));
      r := Ok(stored.items);
    }

    /** True exactly when a row with that ID exists. */
    function Has(key: string): (r: Result<bool>)
      reads this
      requires Valid()
      ensures key == "" <==> r == Err(NoKey)
      ensures key != "" ==> r == Ok(key in Data())
    {
      match Validate(Some(key), Undefined, false)
      case Fail(e) => Err(e)
      case Pass =>
        FindAgrees(rows, key);
        Ok(Find(rows, key).Some?)
    }

    /** False and no change for a missing key; otherwise removes that key only. */
    method Delete(key: string) returns (r: Result<bool>)
      requires Valid()
      modifies this
      ensures Valid()
      ensures key == "" ==> r == Err(NoKey) && rows == old(rows)
      ensures key != "" && key !in old(Data()) ==> r == Ok(false) && rows == old(rows)
      ensures key != "" && key in old(Data()) ==> r == Ok(true) && Data() == old(Data()) - {key}
    {
      var check := Validate(Some(key), Undefined, false);
      if check.Fail? {
        return Err(check.error);
      }
      var present := Has(key);
      if !present.value {
        return Ok(false);
      }
      WithoutSpec(rows, key);
      rows := Without(rows, key);
      r := Ok(true);
    }

    method DeleteAll() returns (r: bool)
      requires Valid()
      modifies this
      ensures Valid() && r
      ensures Data() == map[]
    {
      rows := [];
      r := true;
    }

    /** `all()`: one entry per stored key, in scan order. */
    function All(): (r: seq<Entry>)
      reads this
      requires Valid()
      ensures UniqueIds(r)
      ensures |r| == |Data()| && IdSet(r) == Data().Keys
      ensures forall i :: 0 <= i < |r| ==> Data()[r[i].id] == r[i].data
    {
      StoreSize(rows);
      assert forall i :: 0 <= i < |rows| ==> LastWithId(rows, i);
      rows
    }

    /** `typeof` of the stored value; a missing key reads as "undefined". */
    function Type(key: string): (r: Result<string>)
      reads this
      requires Valid()
      ensures key == "" <==> r == Err(NoKey)
      ensures key != "" ==> r.Ok? && (r.value == "undefined" <==> key !in Data())
      ensures key != "" ==> (r == Ok("number") <==> key in Data() && Data()[key].Num?)
      ensures key != "" ==> (r == Ok("object") <==>
                key in Data() && (Data()[key].Null? || Data()[key].Arr? || Data()[key].Obj?))
      ensures key != "" ==> (r == Ok("string") <==> key in Data() && Data()[key].Str?)
      ensures key != "" ==> (r == Ok("boolean") <==> key in Data() && Data()[key].Bool?)
    {
      match Validate(Some(key), Undefined, false)
      case Fail(e) => Err(e)
      case Pass => Ok(TypeOf(GetData(key)))
    }

    /** The number of entries: one per stored key. */
    function Size(): (n: nat)
      reads this
      requires Valid()
      ensures n == |Data()|
    {
      |All()|
    }

    /** `filter(fn)`; `test` is None when the argument is not a function. */
    function Filter(test: Option<Entry -> bool>): (r: Result<seq<Entry>>)
      reads this
      requires Valid()
      ensures test.None? <==> r == Err(FilterNotFunction)
      ensures test.Some? ==>
                r.Ok? && UniqueIds(r.value) && IsSubsequence(r.value, All()) &&
                (forall e :: e in r.value <==> e in All() && test.value(e))
    {
      match test
      case None => Err(FilterNotFunction)
      case Some(f) =>
        SelectIsSubsequence(All(), f);
        Ok(Select(All(), f))
    }

    /** The entries whose ID starts with `prefix`, in scan order. */
    function StartsWith(prefix: string): (r: Result<seq<Entry>>)
      reads this
      requires Valid()
      ensures prefix == "" <==> r == Err(NoKey)
      ensures prefix != "" ==>
                r.Ok? && UniqueIds(r.value) && IsSubsequence(r.value, All()) &&
                (forall e :: e in r.value <==> e in All() && prefix <= e.id)
    {
      match Validate(Some(prefix), Undefined, false)
      case Fail(e) => Err(e)
      case Pass =>
        var keep := (e: Entry) => prefix <= e.id;
        SelectIsSubsequence(All(), keep);
        Ok(Select(All(), keep))
    }

    /** The entries whose ID ends with `suffix`, in scan order. */
    function EndsWith(suffix: string): (r: Result<seq<Entry>>)
      reads this
      requires Valid()
      ensures suffix == "" <==> r == Err(NoKey)
      ensures suffix != "" ==>
                r.Ok? && UniqueIds(r.value) && IsSubsequence(r.value, All()) &&
                (forall e :: e in r.value <==> e in All() && IsSuffix(suffix, e.id))
    {
      match Validate(Some(suffix), Undefined, false)
      case Fail(e) => Err(e)
      case Pass =>
        var keep := (e: Entry) => IsSuffix(suffix, e.id);
        SelectIsSubsequence(All(), keep);
        Ok(Select(All(), keep))
    }

    /** `toJson()`: an object keyed by exactly the IDs of `all()`. */
    function ToJson(): (m: map<string, Json>)
      reads this
      requires Valid()
      ensures m.Keys == IdSet(All())
      ensures forall e :: e in All() ==> m[e.id] == e.data
    {
      ToMap(All())
    }

    /** The final entry of the scan, or undefined for an empty store. */
    function Last(): (r: Option<Entry>)
      reads this
      requires Valid()
      ensures r.None? <==> |Data()| == 0
      ensures r.Some? ==> r.value in All() && r.value.id in Data() && Data()[r.value.id] == r.value.data
      ensures r.Some? ==> r.value == All()[|All()| - 1]
    {
      var all := All();
      if |all| == 0 then None else Some(all[|all| - 1])
    }
  }
}
