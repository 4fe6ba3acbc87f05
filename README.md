# CodersDB value layer in Dafny

This project models the value layer of `CodersDB`, a key-value store that keeps
JSON values under string IDs in one SQLite table,
`json (ID TEXT PRIMARY KEY, json TEXT)`. On top of plain get and set, the layer
provides typed read-modify-write operations:

- `add` and `push` seed a missing or wrongly typed value with 0 or `[]`.
- `subtract`, `math` and `pull` are strict. They throw instead of seeding.
- `delete` and `has` answer existence questions.
- `size`, `filter`, `startsWith`, `endsWith`, `toJson` and `last` are views computed over one full scan.
- A static alias table reached through a `Proxy` maps extra method names onto canonical ones.

Files, one module each:

- `values.dfy` (`Values`): the `Json` datatype, the `Arg` type for amounts, JavaScript `typeof`, strict equality `===` and `endsWith`.
- `validation.dfy` (`Validation`): the `TypeError` taxonomy, `Result`, and `_validate`.
- `table.dfy` (`Table`): the table as the sequence of rows a scan returns. It covers the point lookup, insert-or-replace, delete by ID, the `filter` used by the views, the `toJson` fold, and the primary-key invariant.
- `arithmetic.dfy` (`Arithmetic`): the operator table of `math`, JavaScript `/` and `%` (truncating remainder), and `null` for non-finite results.
- `arrays.dfy` (`JsonArrays`): `indexOf` with strict equality, and the `splice` that `pull` performs.
- `store.dfy` (`Store`): class `CodersDB`. Its one field `rows` is the table. `Valid()` is the primary key. `Data()` is the store as a map. Mutating methods state their result and the new `Data()`. A refused call states that `rows` is unchanged.
- `aliases.dfy` (`Aliases`): the `ALIASES` table and the Proxy lookup `target[prop] || target[ALIASES[prop]]`.
- `scenarios.dfy` (`Scenarios`): call sequences whose outcome follows from the class contracts alone.

Modelling choices:

- Numbers are exact reals. Integers cannot express `7 / 2 = 3.5`.
- Division or remainder by zero gives `NonFinite`, which stands for Infinity, -Infinity and NaN. `math` returns it, and it is stored as JSON `null`, as `JSON.stringify` writes it.
- An amount is `Undefined`, `Infinity` (+Infinity) or a JSON value. This makes the `typeof` check and the `=== Infinity` check explicit.
- A value or element argument is `Option<Json>`. `None` stands for `undefined`.
- `_validate` takes its key as `Option<string>`. `None` is an omitted key, which passes. Only a supplied empty string is refused.
- `pull` compares with `StrictEq`, which is false for arrays and objects. A parsed array or object is never `===` to a caller's value.
- Insert-or-replace drops the old row and appends the new one. This is SQLite's rowid behaviour. No method contract depends on that order. The views are stated relative to `All()`, and `Last` is the final row of the scan, not the latest write.
- `_validate` refuses +Infinity only (src/main.js:24). `math` is modelled as the code runs it.

## Model

| member | source | states |
|---|---|---|
| `Values.StrictEq` | src/main.js:89 | `===` on a parsed value holds exactly for equal null, boolean, number or string values, never for arrays or objects |
| `Values.TypeOf` | src/main.js:116-119 | `typeof` tags: "undefined" exactly when absent, "object" for null, arrays and objects, and "number", "string", "boolean" otherwise |
| `Values.IsNumber` | src/main.js:23 | `typeof data === 'number'`: a given JSON value is a number exactly when its `typeof` tag is "number"; +Infinity is one and an omitted amount is not |
| `Values.IsSuffixIff` | src/main.js:133-136 | `s.endsWith(suffix)` holds exactly when `s` is some string followed by `suffix` |
| `Validation.Validate` | src/main.js:21-25 | a supplied empty key fails with "No Key Specified" first; then a non-number when a number is expected fails; then +Infinity fails; it passes exactly when none applies |
| `Validation.PassedAmountIsFinite` | src/main.js:23-24 | an amount that passes the numeric check is a finite JSON number |
| `Validation.OmittedKeyPasses` | src/main.js:22 | an omitted key is never refused, and a supplied key is refused exactly when it is the empty string |
| `Validation.MessagesDistinct` | src/main.js:22-24 | the nine thrown messages (src/main.js:22-24, 48, 61, 69, 77, 88, 124 and `Validation.Message`) are pairwise different, so each error is identified by its text |
| `Table.Find` | src/database.js:22-24 | the point lookup finds a value exactly when some row has the ID, and that row holds the value |
| `Table.ToMap` | src/main.js:138-140 | the `toJson` fold has exactly the scanned IDs as keys, and each maps to the data of the last row with that ID |
| `Table.Select` | src/main.js:123-126 | `filter` keeps exactly the rows satisfying the test, keeps all rows when all satisfy it, and never creates duplicate IDs |
| `Table.SelectIsSubsequence` | src/main.js:125 | the filtered rows are a subsequence of the scan, in scan order |
| `Table.SelectAppend` | src/main.js:125 | filtering a concatenation filters each part and concatenates, so relative order is kept |
| `Table.Without` | src/database.js:30-32 | `DELETE ... WHERE ID = ?` leaves exactly the rows whose ID differs from the key |
| `Table.Put` | src/database.js:26-28 | `INSERT OR REPLACE` puts the new row last, and every earlier row is an old row with a different ID |
| `Table.ToMapWithout` | src/database.js:30-32 | deleting by ID removes exactly that key from the store map |
| `Table.PutSpec` | src/database.js:26-28 | insert-or-replace keeps IDs unique and sets exactly that key to the new value |
| `Table.WithoutSpec` | src/database.js:30-32 | delete by ID keeps IDs unique and removes exactly that key |
| `Table.FindAgrees` | src/database.js:19-24 | under the primary key, the point lookup agrees with the scan fold: same presence, same value |
| `Table.UniqueIdCount` | src/database.js:19 | under the primary key, a scan has as many distinct IDs as rows |
| `Table.StoreSize` | src/main.js:121 | under the primary key, the number of scanned rows is the number of stored keys |
| `Table.PutThenFind` | src/main.js:46-49 | after a write, a lookup of that ID gives the written value and every other ID reads as before |
| `Table.WithoutThenFind` | src/main.js:94-98 | after a delete, a lookup of that ID finds nothing and every other ID reads as before |
| `Arithmetic.Operator` | src/main.js:67-69 | exactly the five symbols +, -, *, /, % name an operator, each its own one; anything else is an invalid operator |
| `Arithmetic.Stored` | src/main.js:34-39 | writing a number keeps a finite value and turns a non-finite one into null |
| `Arithmetic.Trunc` | src/main.js:68 | rounding toward zero: the result lies within one of the input on the zero side |
| `Arithmetic.JsRemainder` | src/main.js:68 | JavaScript `%`: the dividend is the divisor times the quotient truncated toward zero, plus the remainder |
| `Arithmetic.JsRemainderBounds` | src/main.js:68 | JavaScript `%` is smaller than the divisor in magnitude and is zero or has the dividend's sign |
| `Arithmetic.Apply` | src/main.js:67-68 | +, -, * are exact; / and % are non-finite exactly when dividing by zero; a finite quotient times the divisor gives back the dividend |
| `JsonArrays.IndexOf` | src/main.js:89 | returns the first index holding a strictly equal item, or -1 exactly when there is none |
| `JsonArrays.PullFirst` | src/main.js:89-90 | `indexOf` then `splice(index, 1)`: the array shrinks by at most one, and it is unchanged exactly when no item is strictly equal to the element |
| `JsonArrays.PullRemovesFirstMatch` | src/main.js:89-90 | when index `i` is the first strict match, the pulled array is the array without position `i`, one item shorter |
| `JsonArrays.PullWithoutMatch` | src/main.js:89-91 | with no strict match the array is written back unchanged |
| `JsonArrays.PullNeverMatchesContainers` | src/main.js:89 | pulling an array or object element never removes anything |
| `JsonArrays.PullShrinksByAtMostOne` | src/main.js:89-91 | pulling removes at most one item, only an item equal to the element, and adds nothing |
| `Store.CodersDB.constructor` | src/main.js:12-19 | opening a table that already holds rows with unique IDs gives a valid store over those rows |
| `Store.CodersDB.GetData` | src/main.js:27-32 | `_getData` returns the stored value, or undefined exactly when the key is absent |
| `Store.CodersDB.SetData` | src/main.js:34-39 | `_setData` returns the data and sets exactly that key, keeping the primary key |
| `Store.CodersDB.Get` | src/main.js:41-44 | an empty key is refused; otherwise the stored value, or undefined when absent |
| `Store.CodersDB.Set` | src/main.js:46-50 | empty key, then undefined value, are refused with nothing changed; otherwise the value is returned and only that key changes |
| `Store.CodersDB.Add` | src/main.js:52-56 | after validation the new value is (old if a number, else 0) + amount; it is returned and stored; a refused call changes nothing |
| `Store.CodersDB.Subtract` | src/main.js:58-63 | a missing or non-number value is refused with "Stored Value Must Be A Number" and nothing changes; otherwise old - amount is returned and stored |
| `Store.CodersDB.Math` | src/main.js:65-73 | validation, then an unknown operator, then a missing or non-number value are refused in that order with nothing changed; otherwise `old op amount` is returned and stored, with a non-finite result stored as null |
| `Store.CodersDB.Push` | src/main.js:75-82 | empty key and undefined element are refused; otherwise (old array, or [] when not an array) followed by the element is returned and stored |
| `Store.CodersDB.Pull` | src/main.js:84-92 | empty key, undefined element and a non-array value are refused with nothing changed; otherwise the array minus its first strict match is returned and stored |
| `Store.CodersDB.Has` | src/main.js:104-107 | an empty key is refused; otherwise true exactly when the key is stored |
| `Store.CodersDB.Delete` | src/main.js:94-98 | an empty key is refused; an absent key gives false and changes nothing; a present key gives true and removes only that key |
| `Store.CodersDB.DeleteAll` | src/main.js:100-102 | returns true and empties the store |
| `Store.CodersDB.All` | src/main.js:109-114 | one entry per stored key, no ID twice, each entry holding that key's value |
| `Store.CodersDB.Type` | src/main.js:116-119 | an empty key is refused; "undefined" exactly when absent, "number", "string" and "boolean" exactly for a stored number, string and boolean, "object" exactly for null, arrays and objects |
| `Store.CodersDB.Size` | src/main.js:121 | the number of distinct stored keys |
| `Store.CodersDB.Filter` | src/main.js:123-126 | a non-function is refused with "Filter Must Be A Function"; otherwise exactly the entries of `all()` passing the test, in scan order |
| `Store.CodersDB.StartsWith` | src/main.js:128-131 | an empty prefix is refused as a missing key; otherwise exactly the entries of `all()` whose ID has the prefix, in scan order |
| `Store.CodersDB.EndsWith` | src/main.js:133-136 | an empty suffix is refused as a missing key; otherwise exactly the entries of `all()` whose ID has the suffix, in scan order |
| `Store.CodersDB.ToJson` | src/main.js:138-140 | an object with exactly the IDs of `all()` as keys, each mapped to its entry's data |
| `Store.CodersDB.Last` | src/main.js:142-145 | absent exactly when the store is empty; otherwise the final entry of `all()`, a stored key with its value |
| `Aliases.Resolve` | src/main.js:16-18 | a name the instance has resolves to itself; any other name resolves through the alias table, or to nothing when it is not an alias |
| `Aliases.AliasesReachTheirTargets` | src/main.js:6-10 | no alias is shadowed by a member, every alias target is a member, and an alias resolves exactly as its target |
| `Aliases.ResolveIdempotent` | src/main.js:16-18 | a resolved name resolves to itself |
| `Aliases.SurprisingAliases` | src/main.js:7-9 | `remove` is `subtract`, not `delete`; `count` and `length` are `size`; `del` is `delete`; `clear` is `deleteAll` |
| `Scenarios.SetThenGet` | src/main.js:41-50 | `set(k, v)` then `get(k)` returns `v`, and another key reads the same before and after |
| `Scenarios.AddSeedsSubtractRefuses` | src/main.js:52-63 | on a fresh key `subtract` throws "Stored Value Must Be A Number" and `add(k, n)` then yields `n` |
| `Scenarios.PushSeedsPullRefuses` | src/main.js:75-92 | on a fresh key `pull` throws "Stored Value Must Be An Array" and `push(k, e)` then yields `[e]` |
| `Scenarios.DeleteTwice` | src/main.js:94-107 | the first delete reports whether the key existed; a second delete gives false and `has` gives false |
| `Scenarios.DivideByZero` | src/main.js:65-73 | `math(k, 4, "/")` then `math(k, 0, "/")` does not throw; the non-finite result is stored as null, so a further `math` is refused |

## Left out

- `backup` (src/main.js:147-156) writes a file and reads the clock. Both are I/O.
- `close`, `name` and `version` are glue around the SQLite handle and package metadata.
- The SQL strings, callbacks and promises of src/database.js are left out. The table is the row sequence `rows`.
- Storage failures are left out: the model has no failing storage. The `catch` branches that turn them into `undefined`, `false` or `[]` are not modelled.
- Concurrency is left out. Every call is one atomic step, so the lost update between two interleaved read-modify-write calls cannot occur in the model.
- JSON text is identified with the parsed value. The exception is that a non-finite `math` result is stored as `null`.
- Floating-point rounding, overflow to Infinity, NaN and -Infinity amounts are left out. NaN and -Infinity pass `_validate` in the source. Numbers are exact reals.
- Keys, prefixes and suffixes are strings in the public operations. A non-string key and an omitted key or prefix are not modelled. An omitted prefix would be searched for as the text "undefined".
- Passing Infinity as a `set` value or a `push` element is not modelled. JSON would store `null` there.
- `filter` takes a total, side-effect-free predicate. JavaScript truthiness of its result, a predicate that throws, and mutation through it are not modelled.
- Arithmetic.Operator: the source's `!ops[operator]` (src/main.js:69) also finds the names `ops` inherits from `Object.prototype`. For example, `toString` and `valueOf` pass the check and store what the inherited method returns, and `__proto__` passes it and then throws. The model treats every such name as an invalid operator.
- Proxy lookups through the prototype chain (`toString`, …) and own fields holding falsy values are left out. Members and aliases are explicit finite tables.
- `push` and `pull` change a freshly parsed local array in place. That array is not shared, so the model uses sequence values.
- The model does not dispatch a call by name. `Aliases.Resolve` yields the canonical member, and calling an alias then runs the same `Store.CodersDB` method.
