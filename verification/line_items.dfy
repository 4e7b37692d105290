/**
 * Cart line items and the pure facts the cart operations rest on: the sum of
 * prices that the running total is meant to track, `findIndex` by exact name,
 * and `splice(index, 1)` of that one entry.
 */
module LineItems {
  import opened Wrappers

  /** One `{name, price}` entry of the cart, in whole currency units. */
  datatype Item = Item(name: string, price: int)

  /** Sum of the prices, adding from the first item to the last. */
  function Sum(items: seq<Item>): (total: int)
    ensures items == [] ==> total == 0
    ensures (forall i :: 0 <= i < |items| ==> items[i].price >= 0) ==> total >= 0
  {
    if items == [] then 0 else Sum(items[..|items| - 1]) + items[|items| - 1].price
  }

  lemma {:induction false} SumConcat(a: seq<Item>, b: seq<Item>)
    ensures Sum(a + b) == Sum(a) + Sum(b)
  {
    if b == [] {
      assert a + b == a;
    } else {
      assert (a + b)[..|a + b| - 1] == a + b[..|b| - 1];
      SumConcat(a, b[..|b| - 1]);
    }
  }

  /** Index of the first item whose name is exactly `name` (`findIndex`), None when there is none. */
  function FirstMatch(items: seq<Item>, name: string): (r: Option<nat>)
    ensures r.Some? ==> r.value < |items| && items[r.value].name == name
    ensures r.Some? ==> forall j :: 0 <= j < r.value ==> items[j].name != name
    ensures r.None? <==> forall j :: 0 <= j < |items| ==> items[j].name != name
  {
    if items == [] then None
    else if items[0].name == name then Some(0)
    else
      match FirstMatch(items[1..], name)
      case None => None
      case Some(i) => Some(i + 1)
  }

  /** The items without the first one named `name`; all of them when none is. */
  function RemoveFirst(items: seq<Item>, name: string): (rest: seq<Item>)
    ensures FirstMatch(items, name).None? ==> rest == items
    ensures FirstMatch(items, name).Some? ==>
      var i := FirstMatch(items, name).value;
      && |rest| == |items| - 1
      && (forall j :: 0 <= j < i ==> rest[j] == items[j])
      && (forall j :: i <= j < |rest| ==> rest[j] == items[j + 1])
  {
    match FirstMatch(items, name)
    case None => items
    case Some(i) => items[..i] + items[i + 1..]
  }

  /** Number of items named `name`. */
  function CountNamed(items: seq<Item>, name: string): nat
  {
    if items == [] then 0
    else (if items[0].name == name then 1 else 0) + CountNamed(items[1..], name)
  }

  lemma {:induction false} CountNamedConcat(a: seq<Item>, b: seq<Item>, name: string)
    ensures CountNamed(a + b, name) == CountNamed(a, name) + CountNamed(b, name)
  {
    if a == [] {
      assert a + b == b;
    } else {
      assert (a + b)[1..] == a[1..] + b;
      CountNamedConcat(a[1..], b, name);
    }
  }

  /** Removing the first match lowers the sum of prices by that item's price. */
  lemma RemoveFirstSum(items: seq<Item>, name: string)
    ensures FirstMatch(items, name).None? ==> Sum(RemoveFirst(items, name)) == Sum(items)
    ensures FirstMatch(items, name).Some? ==>
      Sum(RemoveFirst(items, name)) == Sum(items) - items[FirstMatch(items, name).value].price
  {
    if FirstMatch(items, name).Some? {
      var i := FirstMatch(items, name).value;
      assert items == items[..i] + [items[i]] + items[i + 1..];
      SumConcat(items[..i] + [items[i]], items[i + 1..]);
      SumConcat(items[..i], [items[i]]);
      SumConcat(items[..i], items[i + 1..]);
      assert Sum([items[i]]) == items[i].price by {
        assert [items[i]][..0] == [];
      }
    }
  }

  /**
   * Removal takes out exactly one entry, the first of that name: the removed item
   * and the remaining ones together are the original items, and one fewer item
   * carries the name (later duplicates stay).
   */
  lemma RemoveFirstOneOccurrence(items: seq<Item>, name: string)
    ensures FirstMatch(items, name).Some? ==>
      && multiset(RemoveFirst(items, name)) + multiset{items[FirstMatch(items, name).value]} == multiset(items)
      && CountNamed(RemoveFirst(items, name), name) + 1 == CountNamed(items, name)
    ensures FirstMatch(items, name).None? ==> CountNamed(items, name) == 0
  {
    var m := FirstMatch(items, name);
    if m.Some? {
      var i := m.value;
      assert items == items[..i] + [items[i]] + items[i + 1..];
      CountNamedConcat(items[..i] + [items[i]], items[i + 1..], name);
      CountNamedConcat(items[..i], [items[i]], name);
      CountNamedConcat(items[..i], items[i + 1..], name);
      NoneNamed(items[..i], name);
    } else {
      NoneNamed(items, name);
    }
  }

  lemma {:induction false} NoneNamed(items: seq<Item>, name: string)
    requires forall j :: 0 <= j < |items| ==> items[j].name != name
    ensures CountNamed(items, name) == 0
  {
    if items != [] {
      NoneNamed(items[1..], name);
    }
  }

  /**
   * Adding an item and then removing it by name undoes the add when no earlier
   * item has that name; otherwise the removal hits the earlier item and the new
   * one stays at the end.
   */
  lemma {:induction false} RemoveFirstAfterAppend(items: seq<Item>, x: Item)
    ensures FirstMatch(items, x.name).None? ==> RemoveFirst(items + [x], x.name) == items
    ensures FirstMatch(items, x.name).Some? ==>
      RemoveFirst(items + [x], x.name) == RemoveFirst(items, x.name) + [x]
  {
    var m := FirstMatch(items, x.name);
    var m' := FirstMatch(items + [x], x.name);
    if m.None? {
      assert m' == Some(|items|) by {
        assert (items + [x])[|items|] == x;
      }
      assert (items + [x])[..|items|] == items;
    } else {
      var i := m.value;
      assert m' == Some(i) by {
        assert (items + [x])[i] == items[i];
      }
      assert (items + [x])[..i] == items[..i];
      assert (items + [x])[i + 1..] == items[i + 1..] + [x];
    }
  }
}
