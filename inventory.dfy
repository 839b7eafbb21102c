/** The item store: items keyed by their own id. */
module InventoryModel {
  import opened Wrappers
  import opened Domain
  import opened ItemModel

  class Inventory {
    var items: map<string, Item>

    /** Every item is filed under its own id (ids have no setter). */
    ghost predicate Valid()
      reads this
    {
      forall k :: k in items ==> items[k].id == k
    }

    /** The state of every stored item, by id. */
    function Stock(): (s: map<string, ItemData>)
      reads this, items.Values
      ensures s.Keys == items.Keys
    {
      map k | k in items :: items[k].Data()
    }

    /** The stored items are, id by id, in the states `stock` records. */
    ghost predicate Mirrors(stock: map<string, ItemData>)
      reads this, items.Values
    {
      items.Keys == stock.Keys && forall k :: k in items ==> items[k].Data() == stock[k]
    }

    /** item.setStatus on a filed item: the mirrored stock changes at that item only. */
    method SetStatusOf(it: Item, s: ItemStatus, ghost stock: map<string, ItemData>)
      requires Valid() && Mirrors(stock) && it.id in items && items[it.id] == it
      modifies it`status
      ensures Mirrors(stock[it.id := stock[it.id].(status := s)])
    {
      it.SetStatus(s);
    }

    /** Stock() is the one map the items mirror. */
    lemma MirrorsStock(stock: map<string, ItemData>)
      ensures Mirrors(stock) <==> stock == Stock()
    {
    }

    constructor ()
      ensures Valid() && items == map[]
    {
      items := map[];
    }

    /** Files the item under its id, replacing any item that had that id. */
    method AddItem(item: Item)
      requires Valid()
      modifies this
      ensures Valid()
      ensures items == old(items)[item.id := item]
      ensures GetItem(item.id) == Some(item)
      ensures GetItemCount() == old(GetItemCount()) + (if item.id in old(items) then 0 else 1)
    {
      items := items[item.id := item];
    }

    /** The item with this id, or None. */
    function GetItem(itemId: string): (r: Option<Item>)
      requires Valid()
      reads this
      ensures r.Some? <==> itemId in items
      ensures r.Some? ==> r.value == items[itemId] && r.value.id == itemId
    {
      if itemId in items then Some(items[itemId]) else None
    }

    /** True exactly when the id was present; afterwards it is absent and the rest is untouched. */
    method RemoveItem(itemId: string) returns (removed: bool)
      requires Valid()
      modifies this
      ensures Valid()
      ensures removed <==> itemId in old(items)
      ensures items == old(items) - {itemId}
      ensures GetItemCount() == old(GetItemCount()) - (if removed then 1 else 0)
    {
      if itemId in items {
        items := items - {itemId};
        removed := true;
      } else {
        removed := false;
      }
    }

    /** The number of stored items; AddItem and RemoveItem say how it moves. */
    function GetItemCount(): nat
      reads this
    {
      |items.Keys|
    }

    /**
     * The stored items as a list, in the map's iteration order (which the model leaves open):
     * each stored item exactly once, so the length is the item count.
     */
    method GetAllItems() returns (all: seq<Item>)
      requires Valid()
      ensures |all| == GetItemCount()
      ensures forall i :: 0 <= i < |all| ==> all[i].id in items && items[all[i].id] == all[i]
      ensures forall k :: k in items ==> items[k] in all
      ensures forall i, j :: 0 <= i < j < |all| ==> all[i] != all[j]
    {
      var rest := items.Values;
      ghost var left := items.Keys;
      all := [];
      while rest != {}
        invariant left <= items.Keys
        invariant forall k :: k in left ==> items[k] in rest
        invariant forall v :: v in rest ==> v.id in left && items[v.id] == v
        invariant |all| + |left| == |items.Keys|
        invariant forall i :: 0 <= i < |all| ==> all[i].id in items && items[all[i].id] == all[i] && all[i].id !in left
        invariant forall k :: k in items && k !in left ==> items[k] in all
        invariant forall i, j :: 0 <= i < j < |all| ==> all[i].id != all[j].id
        decreases |rest|
      {
        var v :| v in rest;
        all := all + [v];
        rest := rest - {v};
        left := left - {v.id};
      }
      assert left == {};
    }
  }
}
