/** The intrusive circular list of lai/core/util-list.h. */
module IntrusiveList {
  /** A link embedded in namespace node number `node`; the hook of a list has none. */
  class Item {
    const node: nat
    var next: Item?
    var prev: Item?

    constructor (node: nat)
      ensures this.node == node && next == null && prev == null
    {
      this.node := node;
      next, prev := null, null;
    }
  }

  class List {
    const hook: Item
    ghost var items: seq<Item>

    /** lai_list_init. */
    constructor ()
      ensures Valid() && items == [] && fresh(hook)
    {
      hook := new Item(0);
      items := [];
      new;
      hook.next := hook;
      hook.prev := hook;
    }

    /** The item after position i - 1 of the ring, where position |items| is the hook. */
    ghost function At(i: int): (x: Item)
      requires -1 <= i <= |items|
      reads this
      ensures x == hook || x in items
    {
      if 0 <= i < |items| then items[i] else hook
    }

    ghost predicate LinkOk(i: nat)
      reads this, hook, items
      requires i <= |items|
    {
      && At(i).prev == At(i - 1) && At(i - 1).next == At(i)
      && (i < |items| ==> items[i] != hook
                          && forall j :: 0 <= j < |items| && items[j] == items[i] ==> j == i)
    }

    ghost predicate Valid()
      reads this, hook, items
    {
      forall i: nat | i <= |items| :: LinkOk(i)
    }

    /** lai_list_link: appends an item. */
    method Link(item: Item)
      requires Valid() && item !in items && item != hook
      modifies this, hook, items, item
      ensures Valid() && items == old(items) + [item]
    {
      var tail := hook.prev;
      assert LinkOk(|items|) && LinkOk(0);
      item.next := hook;
      item.prev := tail;
      tail.next := item;
      hook.prev := item;
      items := items + [item];
      forall i: nat | i <= |items| ensures LinkOk(i) {
        if i + 1 < |items| { assert old(LinkOk(i)); }
      }
    }

    /** lai_list_first. */
    method First() returns (r: Item?)
      requires Valid()
      ensures r == if items == [] then null else items[0]
    {
      assert LinkOk(0);
      r := if hook.next == hook then null else hook.next;
    }

    /** lai_list_next. */
    method Next(item: Item, ghost i: nat) returns (r: Item?)
      requires Valid() && i < |items| && items[i] == item
      ensures r == if i + 1 < |items| then items[i + 1] else null
    {
      assert LinkOk(i + 1);
      r := if item.next == hook then null else item.next;
    }

    /** lai_list_unlink, of any item. */
    method Unlink(item: Item, ghost i: nat)
      requires Valid() && i < |items| && items[i] == item
      modifies this, hook, items
      ensures Valid() && items == old(items)[..i] + old(items)[i + 1..]
      ensures item.next == null && item.prev == null
    {
      assert LinkOk(i) && LinkOk(i + 1);
      var before, after := item.prev, item.next;
      item.prev := null;
      item.next := null;
      before.next := after;
      after.prev := before;
      ghost var was := items;
      items := items[..i] + items[i + 1..];
      forall j: nat | j <= |items| ensures LinkOk(j) {
        assert old(LinkOk(j)) && (j < |items| ==> old(LinkOk(j + 1)));
        assert j == |items| ==> old(LinkOk(|was|));
      }
    }
  }
}
