/** The array operations `pull` builds on: `indexOf` with strict equality
    and the removal of the first match that `splice(index, 1)` performs. */
module JsonArrays {
  import opened Values

  /** `items.indexOf(element)`: the first index holding a value strictly
      equal to `element`, or -1. */
  function IndexOf(items: seq<Json>, element: Json): (i: int)
    ensures -1 <= i < |items|
    ensures 0 <= i ==> StrictEq(items[i], element)
    ensures forall j :: 0 <= j < |items| && (i < 0 || j < i) ==> !StrictEq(items[j], element)
  {
    if items == [] then -1
    else if StrictEq(items[0], element) then 0
    else
      var k := IndexOf(items[1..], element);
      if k < 0 then -1 else k + 1
  }

  /** The array `pull` writes back: the first strictly equal item removed,
      or the array unchanged when there is none. */
  function PullFirst(items: seq<Json>, element: Json): (r: seq<Json>)
    ensures |r| == |items| || |r| == |items| - 1
    ensures r == items <==> forall j :: 0 <= j < |items| ==> !StrictEq(items[j], element)
  {
    var i := IndexOf(items, element);
    if i > -1 then items[..i] + items[i + 1..] else items
  }

  /** Exactly the first strict match goes; everything else keeps its order. */
  lemma PullRemovesFirstMatch(items: seq<Json>, element: Json, i: int)
    requires 0 <= i < |items| && StrictEq(items[i], element)
    requires forall j :: 0 <= j < i ==> !StrictEq(items[j], element)
    ensures PullFirst(items, element) == items[..i] + items[i + 1..]
    ensures |PullFirst(items, element)| == |items| - 1
  {
  }

  lemma PullWithoutMatch(items: seq<Json>, element: Json)
    requires forall j :: 0 <= j < |items| ==> !StrictEq(items[j], element)
    ensures PullFirst(items, element) == items
  {
  }

  /** An array or object element is never strictly equal to an item parsed
      from storage, so pulling it leaves the array as it was. */
  lemma PullNeverMatchesContainers(items: seq<Json>, element: Json)
    requires element.Arr? || element.Obj?
    ensures PullFirst(items, element) == items
  {
  }

  /** Pulling removes at most one item and only items that were there. */
  lemma PullShrinksByAtMostOne(items: seq<Json>, element: Json)
    ensures |items| - 1 <= |PullFirst(items, element)| <= |items|
    ensures multiset(PullFirst(items, element)) <= multiset(items)
    ensures PullFirst(items, element) != items ==>
              multiset(PullFirst(items, element)) + multiset{element} == multiset(items)
  {
    var i := IndexOf(items, element);
    if i > -1 {
      var before, after := items[..i], items[i + 1..];
      assert items == before + [items[i]] + after;
      assert items[i] == element;
      calc {
        multiset(items);
        multiset(before) + multiset{element} + multiset(after);
        multiset(before + after) + multiset{element};
      }
    }
  }
}
