/**
 * The page's `cartState` record and the cart functions that change it in place:
 * `addToCart`, `removeFromCart`, `saveCartToStorage` and the validation, export
 * and clearing steps of `handleOrderSubmit`.
 */
module Cart {
  import opened Wrappers
  import opened LineItems
  import opened Storage
  import opened Order
  import Page

  /**
   * What the export step of checkout meets: whether the user is already signed in,
   * whether the interactive sign-in completes, and whether the upload completes.
   */
  datatype DriveOutcome = DriveOutcome(signedIn: bool, signInSucceeds: bool, uploadSucceeds: bool)
  {
    /** Neither awaited call throws. */
    predicate Succeeds()
    {
      (signedIn || signInSucceeds) && uploadSucceeds
    }

    /** The upload is attempted: the user is signed in or signs in. */
    predicate ReachesUpload()
    {
      signedIn || signInSucceeds
    }
  }

  /** How a submission of the order form ends. */
  datatype Submission =
    | EmptyCart                                           // refused: nothing in the cart
    | MissingFields                                       // refused: a required field is empty
    | Placed(fileName: string, order: OrderDetails)       // exported under fileName; cart cleared
    | ExportFailed(order: OrderDetails)                   // sign-in or upload threw; cart kept

  /** `findIndex` by exact name: the first index whose item is named `name`, or -1. */
  method FindIndex(items: seq<Item>, name: string) returns (index: int)
    ensures index == (match FirstMatch(items, name) case None => -1 case Some(i) => i)
  {
    index := 0;
    while index < |items|
      invariant 0 <= index <= |items|
      invariant forall j :: 0 <= j < index ==> items[j].name != name
    {
      if items[index].name == name {
        return;
      }
      index := index + 1;
    }
    index := -1;
  }

  class CartState {
    var items: seq<Item>
    var total: int
    /** The origin's local storage, of which the cart owns two keys. */
    var storage: map<string, string>

    /** The running total is the sum of the prices of the items. */
    ghost predicate Consistent()
      reads this
    {
      total == Sum(items)
    }

    /** How far the running total is from the sum of the prices. */
    ghost function Drift(): int
      reads this
    {
      total - Sum(items)
    }

    ghost function Current(): Snapshot
      reads this
    {
      Snapshot(items, total)
    }

    constructor (cart: Snapshot, storage: map<string, string>)
      ensures items == cart.items && total == cart.total && this.storage == storage
    {
      items := cart.items;
      total := cart.total;
      this.storage := storage;
    }

    /**
     * The start-up creation of `cartState` from local storage. The two keys are
     * read independently, so the result need not be `Consistent()`.
     */
    static method Open(storage: map<string, string>) returns (r: Result<CartState, LoadError>)
      ensures r.Failure? <==> Load(storage).Failure?
      ensures r.Failure? ==> r.error == Load(storage).error
      ensures r.Success? ==> fresh(r.value) && r.value.Current() == Load(storage).value
      ensures r.Success? ==> r.value.storage == storage
    {
      match Load(storage)
      case Failure(e) =>
        r := Failure(e);
      case Success(cart) =>
        var c := new CartState(cart, storage);
        r := Success(c);
    }

    /** `saveCartToStorage`. */
    method SaveCartToStorage()
      modifies this`storage
      ensures storage == Save(old(storage), Current())
    {
      storage := Save(storage, Snapshot(items, total));
    }

    /** `addToCart(name, price)`: appends the item, adds its price to the total and persists. */
    method AddToCart(name: string, price: int)
      modifies this
      ensures items == old(items) + [Item(name, price)]
      ensures total == old(total) + price
      ensures storage == Save(old(storage), Current())
      ensures Drift() == old(Drift())
      ensures old(Consistent()) ==> Consistent()
    {
      items := items + [Item(name, price)];
      total := total + price;
      SaveCartToStorage();
      SumConcat(old(items), [Item(name, price)]);
      assert [Item(name, price)][..0] == [];
    }

    /**
     * The click handler of an "Add to cart" button without an inline handler: with
     * no enclosing flower card it does nothing, otherwise it adds the card's name
     * and price.
     */
    method AddCardToCart(card: Option<Page.Card>)
      modifies this
      ensures card.None? ==> items == old(items) && total == old(total) && storage == old(storage)
      ensures card.Some? ==>
        var item := Item(Page.CardName(card.value), Page.CardPrice(card.value));
        && items == old(items) + [item]
        && total == old(total) + item.price
        && storage == Save(old(storage), Current())
      ensures Drift() == old(Drift())
    {
      if card.Some? {
        AddToCart(Page.CardName(card.value), Page.CardPrice(card.value));
      }
    }

    /**
     * `removeFromCart(name)`: removes the first item named exactly `name` and lowers
     * the total by its price, then persists; with no such item nothing changes and
     * nothing is written.
     */
    method RemoveFromCart(name: string)
      modifies this
      ensures FirstMatch(old(items), name).None? ==>
        items == old(items) && total == old(total) && storage == old(storage)
      ensures FirstMatch(old(items), name).Some? ==>
        var i := FirstMatch(old(items), name).value;
        && items == old(items)[..i] + old(items)[i + 1..]
        && total == old(total) - old(items)[i].price
        && storage == Save(old(storage), Current())
      ensures items == RemoveFirst(old(items), name)
      ensures Drift() == old(Drift())
      ensures old(Consistent()) ==> Consistent()
    {
      var before := items;
      var index := FindIndex(items, name);
      RemoveFirstSum(before, name);
      if index != -1 {
        var i := FirstMatch(before, name).value;
        assert index == i;
        var rest := RemoveFirst(before, name);
        assert rest == before[..i] + before[i + 1..];
        total := total - before[i].price;
        items := rest;
        SaveCartToStorage();
      }
    }

    /**
     * The cart-relevant steps of `handleOrderSubmit`: refuse an empty cart, then
     * refuse a form with an empty required field, then sign in if needed and upload
     * the order under its file name; only when both complete is the cart emptied and
     * persisted. `orderDate` and `now` are the clock readings the order is stamped with.
     */
    method HandleOrderSubmit(form: OrderForm, drive: DriveOutcome, orderDate: string, now: nat)
      returns (result: Submission)
      modifies this
      ensures result.EmptyCart? <==> old(items) == []
      ensures result.MissingFields? <==> old(items) != [] && !Complete(form)
      ensures result.Placed? <==> old(items) != [] && Complete(form) && drive.Succeeds()
      ensures result.ExportFailed? <==> old(items) != [] && Complete(form) && !drive.Succeeds()
      ensures result.Placed? ==>
        && result.order == Details(form, old(items), old(total), orderDate)
        && result.fileName == OrderFileName(form.fullName.value, now)
      ensures result.ExportFailed? ==> result.order == Details(form, old(items), old(total), orderDate)
      ensures result.Placed? ==> items == [] && total == 0 && storage == Save(old(storage), Snapshot([], 0))
      ensures !result.Placed? ==> items == old(items) && total == old(total) && storage == old(storage)
      ensures result.Placed? ==> Consistent()
    {
      if items == [] {
        return EmptyCart;
      }
      if !Complete(form) {
        return MissingFields;
      }
      var order := Details(form, items, total, orderDate);
      if !drive.ReachesUpload() {
        return ExportFailed(order);
      }
      var fileName := OrderFileName(order.customerName, now);
      if !drive.uploadSucceeds {
        return ExportFailed(order);
      }
      items := [];
      total := 0;
      SaveCartToStorage();
      result := Placed(fileName, order);
    }
  }

  /** Adding "Rose" at 100 and "Lily" at 150 to an empty cart, then removing "Rose". */
  method RoseAndLily()
  {
    var start := CartState.Open(map[]);
    LoadFresh(map[]);
    var cart := start.value;
    cart.AddToCart("Rose", 100);
    cart.AddToCart("Lily", 150);
    assert cart.items == [Item("Rose", 100), Item("Lily", 150)] && cart.total == 250;
    cart.RemoveFromCart("Rose");
    assert cart.items == [Item("Lily", 150)] && cart.total == 150;
  }
}
