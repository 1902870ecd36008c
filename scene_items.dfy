/**
 * The host scene as the engine sees it: an ordered list of items, each with an id,
 * a display name, a kind and an untyped metadata bag. Item ids are unique.
 */
module SceneItems {
  import opened Wrappers
  import opened Json

  /** `item.type`; only the kinds the engine tells apart are named. */
  datatype ItemKind = Image | Shape | Label | OtherKind

  datatype Item = Item(
    id: string,
    name: string,
    kind: ItemKind,
    metadata: Bag,
    imageUrl: Option<string>,
    position: (int, int))

  ghost predicate DistinctIds(items: seq<Item>) {
    forall i, j :: 0 <= i < j < |items| ==> items[i].id != items[j].id
  }

  /** Item i is the first one with that id. */
  predicate FirstWithId(items: seq<Item>, id: string, i: int) {
    0 <= i < |items| && items[i].id == id && forall j :: 0 <= j < i ==> items[j].id != id
  }

  /** `items.find(i => i.id === id)`. */
  function FindItem(items: seq<Item>, id: string): (r: Option<Item>)
    ensures r.None? <==> forall i :: 0 <= i < |items| ==> items[i].id != id
    ensures r.Some? ==> exists i :: FirstWithId(items, id, i) && items[i] == r.value
  {
    if items == [] then None
    else if items[0].id == id then
      assert FirstWithId(items, id, 0);
      Some(items[0])
    else
      var r := FindItem(items[1..], id);
      assert r.None? ==> forall i :: 0 <= i < |items| ==> items[i].id != id by {
        if r.None? {
          forall i | 0 <= i < |items| ensures items[i].id != id {
            if i > 0 { assert items[i] == items[1..][i - 1]; }
          }
        }
      }
      assert r.Some? ==> exists i :: FirstWithId(items, id, i) && items[i] == r.value by {
        if r.Some? {
          var i :| FirstWithId(items[1..], id, i) && items[1..][i] == r.value;
          assert items[i + 1] == r.value;
          forall j | 0 <= j < i + 1 ensures items[j].id != id {
            if j > 0 { assert items[j] == items[1..][j - 1]; }
          }
          assert FirstWithId(items, id, i + 1);
        }
      }
      r
  }

  /** With unique ids, `find` returns the item at the index holding that id. */
  lemma FindItemAt(items: seq<Item>, i: int)
    requires DistinctIds(items) && 0 <= i < |items|
    ensures FindItem(items, items[i].id) == Some(items[i])
  {
    var r := FindItem(items, items[i].id);
    var j :| FirstWithId(items, items[i].id, j) && items[j] == r.value;
    assert !(i < j) && !(j < i);
  }

  /** The host's item list, which the write paths update in place. */
  class Scene {
    var items: seq<Item>

    ghost predicate Valid()
      reads this
    {
      DistinctIds(items)
    }

    constructor(items: seq<Item>)
      requires DistinctIds(items)
      ensures Valid() && this.items == items
    {
      this.items := items;
    }
  }
}
