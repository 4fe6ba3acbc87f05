/** The single `json (ID TEXT PRIMARY KEY, json TEXT)` table the store
    lives in, as the sequence of rows a full scan returns, with the point
    lookup, the replace-on-conflict write, the delete by ID and the scan
    views built on it. Serialised text is identified with the parsed value. */
module Table {
  import opened Values

  /** One row: `{ ID, data }` as `all()` returns it. */
  datatype Entry = Entry(id: string, data: Json)

  /** The primary key: no two rows share an ID. */
  predicate UniqueIds(rows: seq<Entry>) {
    forall i, j :: 0 <= i < j < |rows| ==> rows[i].id != rows[j].id
  }

  function IdSet(rows: seq<Entry>): set<string> {
    set e | e in rows :: e.id
  }

  /** No later row carries the ID of row `i`. */
  predicate LastWithId(rows: seq<Entry>, i: int)
    requires 0 <= i < |rows|
  {
    forall j :: i < j < |rows| ==> rows[j].id != rows[i].id
  }

  /** `SELECT * FROM json WHERE ID = ?`: the first row with that ID. */
  function Find(rows: seq<Entry>, key: string): (r: Option<Json>)
    ensures r.None? <==> key !in IdSet(rows)
    ensures r.Some? ==> Entry(key, r.value) in rows
  {
    if rows == [] then None
    else if rows[0].id == key then Some(rows[0].data)
    else
      var r := Find(rows[1..], key);
      assert rows == [rows[0]] + rows[1..];
      r
  }

  lemma IdSetSnoc(init: seq<Entry>, last: Entry)
    ensures IdSet(init + [last]) == IdSet(init) + {last.id}
  {
    forall e | e in init + [last] ensures e in init || e == last { }
  }

  lemma LastWithIdSnoc(init: seq<Entry>, last: Entry, i: int)
    requires 0 <= i < |init| && LastWithId(init + [last], i)
    ensures LastWithId(init, i) && (init + [last])[i] == init[i] && init[i].id != last.id
  {
    var rows := init + [last];
    assert rows[|init|] == last;
    forall j | i < j < |init| ensures init[j].id != init[i].id {
      assert rows[j] == init[j];
    }
  }

  /** The fold `toJson` performs over a scan: each row in turn overwrites
      the key of its ID, so the last row with an ID wins. */
  function ToMap(rows: seq<Entry>): (m: map<string, Json>)
    ensures m.Keys == IdSet(rows)
    ensures forall i :: 0 <= i < |rows| && LastWithId(rows, i) ==> m[rows[i].id] == rows[i].data
  {
    if rows == [] then map[]
    else
      var init, last := rows[..|rows| - 1], rows[|rows| - 1];
      var m := ToMap(init)[last.id := last.data];
      assert rows == init + [last];
      IdSetSnoc(init, last);
      forall i | 0 <= i < |rows| && LastWithId(rows, i) ensures m[rows[i].id] == rows[i].data {
        if i < |init| {
          LastWithIdSnoc(init, last, i);
        }
      }
      m
  }

  /** `r` is `s` with some items dropped and the rest in their order. */
  ghost predicate IsSubsequence(r: seq<Entry>, s: seq<Entry>)
    decreases |s|
  {
    r == [] ||
    (s != [] && ((r[0] == s[0] && IsSubsequence(r[1..], s[1..])) || IsSubsequence(r, s[1..])))
  }

  /** The rows kept by `keep`, in scan order (`Array.prototype.filter`). */
  function Select(rows: seq<Entry>, keep: Entry -> bool): (r: seq<Entry>)
    ensures |r| <= |rows|
    ensures forall e :: e in r <==> e in rows && keep(e)
    ensures (forall i :: 0 <= i < |rows| ==> keep(rows[i])) ==> r == rows
    ensures UniqueIds(rows) ==> UniqueIds(r)
  {
    if rows == [] then []
    else
      var rest := Select(rows[1..], keep);
      var r := (if keep(rows[0]) then [rows[0]] else []) + rest;
      assert UniqueIds(rows) ==> UniqueIds(r) by {
        if UniqueIds(rows) {
          forall e | e in rest ensures e.id != rows[0].id {
            var j :| 0 <= j < |rows[1..]| && rows[1..][j] == e;
            assert rows[j + 1] == e;
          }
        }
      }
      r
  }

  /** Filtering keeps the selected rows in scan order. */
  lemma {:induction false} SelectIsSubsequence(rows: seq<Entry>, keep: Entry -> bool)
    ensures IsSubsequence(Select(rows, keep), rows)
  {
    if rows != [] {
      SelectIsSubsequence(rows[1..], keep);
      var r := Select(rows, keep);
      if keep(rows[0]) {
        assert r[0] == rows[0] && r[1..] == Select(rows[1..], keep);
      } else {
        assert r == Select(rows[1..], keep);
      }
    }
  }

  /** Filtering a scan distributes over its parts: the selected rows keep
      their relative order. */
  lemma {:induction false} SelectAppend(a: seq<Entry>, b: seq<Entry>, keep: Entry -> bool)
    ensures Select(a + b, keep) == Select(a, keep) + Select(b, keep)
  {
    if a == [] {
      assert a + b == b;
    } else {
      var head := if keep(a[0]) then [a[0]] else [];
      assert (a + b)[0] == a[0];
      assert (a + b)[1..] == a[1..] + b;
      SelectAppend(a[1..], b, keep);
      calc {
        Select(a + b, keep);
        head + Select(a[1..] + b, keep);
        head + (Select(a[1..], keep) + Select(b, keep));
        (head + Select(a[1..], keep)) + Select(b, keep);
      }
    }
  }

  function OtherId(key: string): Entry -> bool {
    (e: Entry) => e.id != key
  }

  /** `DELETE FROM json WHERE ID = ?` */
  function Without(rows: seq<Entry>, key: string): (r: seq<Entry>)
    ensures forall e :: e in r <==> e in rows && e.id != key
  {
    Select(rows, OtherId(key))
  }

  /** `INSERT OR REPLACE INTO json (ID, json) VALUES (?, ?)`: the old row with
      that ID goes and the new row is added at the end of the table. */
  function Put(rows: seq<Entry>, key: string, data: Json): (r: seq<Entry>)
    ensures |r| > 0 && r[|r| - 1] == Entry(key, data)
    ensures forall i :: 0 <= i < |r| - 1 ==> r[i].id != key && r[i] in rows
  {
    Without(rows, key) + [Entry(key, data)]
  }

  lemma ToMapSnoc(rows: seq<Entry>, e: Entry)
    ensures ToMap(rows + [e]) == ToMap(rows)[e.id := e.data]
  {
    assert (rows + [e])[..|rows|] == rows;
  }

  lemma WithoutSnoc(init: seq<Entry>, last: Entry, key: string)
    ensures Without(init + [last], key) ==
              if last.id == key then Without(init, key) else Without(init, key) + [last]
  {
    SelectAppend(init, [last], OtherId(key));
    assert Select([last], OtherId(key)) == if last.id == key then [] else [last];
  }

  lemma UpdateAfterRemove<K, V>(m: map<K, V>, key: K, v: V)
    ensures (m - {key})[key := v] == m[key := v]
  {
  }

  lemma RemoveAfterUpdate<K, V>(m: map<K, V>, k: K, v: V, key: K)
    ensures m[k := v] - {key} == if k == key then m - {key} else (m - {key})[k := v]
  {
  }

  /** Deleting an ID removes exactly that key from the store. */
  lemma {:induction false} ToMapWithout(rows: seq<Entry>, key: string)
    ensures ToMap(Without(rows, key)) == ToMap(rows) - {key}
  {
    if rows != [] {
      var init, last := rows[..|rows| - 1], rows[|rows| - 1];
      assert rows == init + [last];
      ToMapWithout(init, key);
      WithoutSnoc(init, last, key);
      ToMapSnoc(init, last);
      RemoveAfterUpdate(ToMap(init), last.id, last.data, key);
      if last.id != key {
        ToMapSnoc(Without(init, key), last);
      }
    }
  }

  lemma PutKeepsUnique(rows: seq<Entry>, key: string, data: Json)
    requires UniqueIds(rows)
    ensures UniqueIds(Put(rows, key, data))
  {
    var w := Without(rows, key);
    var p := Put(rows, key, data);
    assert p == w + [Entry(key, data)];
    forall i, j | 0 <= i < j < |p| ensures p[i].id != p[j].id {
      assert p[i] == w[i] && w[i] in w;
      if j < |w| {
        assert p[j] == w[j];
      }
    }
  }

  /** An insert-or-replace sets exactly one key and keeps the primary key. */
  lemma PutSpec(rows: seq<Entry>, key: string, data: Json)
    requires UniqueIds(rows)
    ensures UniqueIds(Put(rows, key, data))
    ensures ToMap(Put(rows, key, data)) == ToMap(rows)[key := data]
  {
    PutKeepsUnique(rows, key, data);
    ToMapWithout(rows, key);
    ToMapSnoc(Without(rows, key), Entry(key, data));
    UpdateAfterRemove(ToMap(rows), key, data);
  }

  /** A delete by ID keeps the primary key and removes only that key. */
  lemma WithoutSpec(rows: seq<Entry>, key: string)
    requires UniqueIds(rows)
    ensures UniqueIds(Without(rows, key))
    ensures ToMap(Without(rows, key)) == ToMap(rows) - {key}
  {
    ToMapWithout(rows, key);
  }

  /** Under the primary key, the point lookup and the scan fold agree. */
  lemma FindAgrees(rows: seq<Entry>, key: string)
    requires UniqueIds(rows)
    ensures Find(rows, key).Some? <==> key in ToMap(rows)
    ensures Find(rows, key).Some? ==> Find(rows, key).value == ToMap(rows)[key]
  {
    var r := Find(rows, key);
    if r.Some? {
      var i :| 0 <= i < |rows| && rows[i] == Entry(key, r.value);
      assert LastWithId(rows, i);
    }
  }

  /** Under the primary key, a scan has one row per stored key. */
  lemma {:induction false} UniqueIdCount(rows: seq<Entry>)
    requires UniqueIds(rows)
    ensures |IdSet(rows)| == |rows|
  {
    if rows != [] {
      var init, last := rows[..|rows| - 1], rows[|rows| - 1];
      assert rows == init + [last];
      assert UniqueIds(init);
      UniqueIdCount(init);
      assert IdSet(rows) == IdSet(init) + {last.id};
      assert last.id !in IdSet(init) by {
        forall e | e in init ensures e.id != last.id {
          var i :| 0 <= i < |init| && init[i] == e;
          assert rows[i] == e;
        }
      }
    }
  }

  /** Under the primary key, the store holds one key per scanned row. */
  lemma StoreSize(rows: seq<Entry>)
    requires UniqueIds(rows)
    ensures |ToMap(rows)| == |rows|
  {
    var m := ToMap(rows);
    assert |m.Keys| == |m|;
    UniqueIdCount(rows);
  }

  /** Reading back after an insert-or-replace gives the written value for
      that ID and the old answer for every other ID. */
  lemma PutThenFind(rows: seq<Entry>, key: string, data: Json, other: string)
    requires UniqueIds(rows)
    ensures Find(Put(rows, key, data), key) == Some(data)
    ensures other != key ==> Find(Put(rows, key, data), other) == Find(rows, other)
  {
    PutSpec(rows, key, data);
    FindAgrees(Put(rows, key, data), key);
    FindAgrees(Put(rows, key, data), other);
    FindAgrees(rows, other);
  }

  /** After a delete by ID no row has that ID; the other IDs read as before. */
  lemma WithoutThenFind(rows: seq<Entry>, key: string, other: string)
    requires UniqueIds(rows)
    ensures Find(Without(rows, key), key).None?
    ensures other != key ==> Find(Without(rows, key), other) == Find(rows, other)
  {
    WithoutSpec(rows, key);
    FindAgrees(Without(rows, key), key);
    FindAgrees(Without(rows, key), other);
    FindAgrees(rows, other);
  }
}
