/** Name resolution through the `Proxy` that the constructor returns: a
    property the instance has is used as it is, any other name is looked up
    in the static `ALIASES` table and replaced by its canonical method. */
module Aliases {
  import opened Values

  /** The properties a `CodersDB` instance answers for itself: its fields
      and the methods of its class. */
  const Members: set<string> := {
    "constructor", "db", "name", "version", "_validate", "_getData", "_setData",
    "get", "set", "add", "subtract", "math", "push", "pull", "delete",
    "deleteAll", "has", "all", "type", "size", "filter", "startsWith",
    "endsWith", "toJson", "last", "backup", "close"
  }

  /** `CodersDB.ALIASES`. */
  const Table: map<string, string> := map[
    "fetch" := "get", "del" := "delete", "remove" := "subtract", "clear" := "deleteAll",
    "exists" := "has", "includes" := "has", "getAll" := "all", "fetchAll" := "all",
    "typeof" := "type", "count" := "size", "length" := "size"
  ]

  /** `target[prop] || target[CodersDB.ALIASES[prop]]`: the member a property
      access reaches, or None when it reaches `undefined`. */
  function Resolve(prop: string): (r: Option<string>)
    ensures r.Some? ==> r.value in Members
    ensures prop in Members ==> r == Some(prop)
    ensures prop !in Members && prop in Table ==> r == Some(Table[prop])
    ensures r.None? <==> prop !in Members && prop !in Table
  {
    if prop in Members then Some(prop)
    else if prop in Table && Table[prop] in Members then Some(Table[prop])
    else None
  }

  /** Every alias names a real method and none is hidden by a member of the
      same name, so calling an alias runs its canonical method. */
  lemma AliasesReachTheirTargets()
    ensures forall a :: a in Table ==> a !in Members && Table[a] in Members
    ensures forall a :: a in Table ==> Resolve(a) == Resolve(Table[a]) == Some(Table[a])
  {
  }

  /** Resolution is idempotent: a resolved name resolves to itself. */
  lemma ResolveIdempotent(prop: string)
    ensures Resolve(prop).Some? ==> Resolve(Resolve(prop).value) == Resolve(prop)
  {
  }

  /** `remove` subtracts; it does not delete. `count` and `length` are `size`. */
  lemma SurprisingAliases()
    ensures Resolve("remove") == Some("subtract") && Resolve("remove") != Some("delete")
    ensures Resolve("count") == Some("size") && Resolve("length") == Some("size")
    ensures Resolve("del") == Some("delete") && Resolve("clear") == Some("deleteAll")
  {
  }
}
