/**
 * The order that checkout builds from the order form and the cart, and the name
 * of the file it is exported under.
 */
module Order {
  import opened Wrappers
  import opened Text
  import opened LineItems
  import Decimal

  /**
   * The four required fields of the order form as `FormData.get` returns them:
   * None when the form has no field of that name.
   */
  datatype OrderForm = OrderForm(
    fullName: Option<string>, email: Option<string>, phone: Option<string>, address: Option<string>)

  /** The field is truthy: present and not the empty string. */
  predicate Filled(field: Option<string>)
  {
    field.Some? && field.value != ""
  }

  /** None of the four required fields is falsy: missing from the form or the empty string. */
  function Complete(form: OrderForm): (complete: bool)
    ensures !complete <==>
      || form.fullName == None || form.fullName == Some("")
      || form.email == None || form.email == Some("")
      || form.phone == None || form.phone == Some("")
      || form.address == None || form.address == Some("")
  {
    Filled(form.fullName) && Filled(form.email) && Filled(form.phone) && Filled(form.address)
  }

  /** The exported order record. */
  datatype OrderDetails = OrderDetails(
    customerName: string, email: string, phone: string, address: string,
    items: seq<Item>, total: int, orderDate: string)

  /**
   * The record built from the form and the cart as they stand: its contact fields
   * are never empty, and its total matches its items whenever the cart's did.
   */
  function Details(form: OrderForm, items: seq<Item>, total: int, orderDate: string): (order: OrderDetails)
    requires Complete(form)
    ensures order.customerName != "" && order.email != "" && order.phone != "" && order.address != ""
    ensures Some(order.customerName) == form.fullName && Some(order.email) == form.email
    ensures Some(order.phone) == form.phone && Some(order.address) == form.address
    ensures order.items == items && order.total == total && order.orderDate == orderDate
    ensures total == Sum(items) ==> order.total == Sum(order.items)
  {
    OrderDetails(form.fullName.value, form.email.value, form.phone.value, form.address.value, items, total, orderDate)
  }

  /** `s.replace(/\s+/g, '_')`: every maximal run of whitespace becomes one underscore. */
  function CollapseWhitespace(s: string): (r: string)
    ensures NoWhitespace(r)
    ensures |r| <= |s|
  {
    CollapseFrom(s, false)
  }

  /**
   * The replacement scanned from the left; `inRun` says that the character before
   * `s` was whitespace, so its run already produced its underscore.
   */
  function CollapseFrom(s: string, inRun: bool): (r: string)
    ensures NoWhitespace(r)
    ensures |r| <= |s|
  {
    if s == [] then []
    else if IsWhitespace(s[0]) then (if inRun then [] else "_") + CollapseFrom(s[1..], true)
    else [s[0]] + CollapseFrom(s[1..], false)
  }

  /** ``order_${customerName.replace(/\s+/g, '_')}_${Date.now()}.json`` for a clock reading `now` in milliseconds. */
  function OrderFileName(customerName: string, now: nat): (r: string)
    ensures NoWhitespace(r)
    ensures "order_" <= r
  {
    var stamp := Decimal.NatToString(now);
    assert NoWhitespace(stamp) by {
      forall i | 0 <= i < |stamp| ensures !IsWhitespace(stamp[i]) {
        assert Decimal.IsDigitIn(stamp[i], 10);
      }
    }
    "order_" + CollapseWhitespace(customerName) + "_" + stamp + ".json"
  }

  /** A name without whitespace is used as it is. */
  lemma {:induction false} CollapseWhitespaceKeeps(s: string, inRun: bool)
    requires NoWhitespace(s)
    ensures CollapseFrom(s, inRun) == s
  {
    if s != [] {
      CollapseWhitespaceKeeps(s[1..], false);
    }
  }

  /** Replacing again changes nothing. */
  lemma CollapseWhitespaceIdempotent(s: string)
    ensures CollapseWhitespace(CollapseWhitespace(s)) == CollapseWhitespace(s)
  {
    CollapseWhitespaceKeeps(CollapseWhitespace(s), false);
  }

  /** Whether the scan is inside a whitespace run after reading `a`. */
  function InRunAfter(a: string, inRun: bool): bool
  {
    if a == [] then inRun else IsWhitespace(a[|a| - 1])
  }

  /** The scan of `a + rest` is the scan of `a` followed by the scan of `rest` in the state `a` leaves. */
  lemma {:induction false} CollapseFromConcat(a: string, rest: string, inRun: bool)
    ensures CollapseFrom(a + rest, inRun) == CollapseFrom(a, inRun) + CollapseFrom(rest, InRunAfter(a, inRun))
  {
    if a == [] {
      assert a + rest == rest;
    } else {
      var s := a + rest;
      var next := IsWhitespace(a[0]);
      assert s[0] == a[0] && s[1..] == a[1..] + rest;
      CollapseFromConcat(a[1..], rest, next);
      assert InRunAfter(a[1..], next) == InRunAfter(a, inRun);
      CollapseStep(a, inRun);
      CollapseStep(s, inRun);
      var head := if next then (if inRun then [] else "_") else [a[0]];
      ConcatAssoc(head, CollapseFrom(a[1..], next), CollapseFrom(rest, InRunAfter(a, inRun)));
    }
  }

  lemma ConcatAssoc(x: string, y: string, z: string)
    ensures x + (y + z) == (x + y) + z
  {
  }

  /** One step of the scan: the first character's output, then the scan of the rest. */
  lemma CollapseStep(s: string, inRun: bool)
    requires s != []
    ensures CollapseFrom(s, inRun) ==
      (if IsWhitespace(s[0]) then (if inRun then [] else "_") else [s[0]]) + CollapseFrom(s[1..], IsWhitespace(s[0]))
  {
  }

  /** Inside a run, further whitespace produces nothing. */
  lemma {:induction false} CollapseInsideRun(w: string, b: string)
    requires forall i :: 0 <= i < |w| ==> IsWhitespace(w[i])
    ensures CollapseFrom(w + b, true) == CollapseFrom(b, true)
  {
    if w != [] {
      assert (w + b)[1..] == w[1..] + b;
      CollapseInsideRun(w[1..], b);
    } else {
      assert w + b == b;
    }
  }

  /** A whitespace run at the start, before a part that does not start with whitespace, becomes one underscore. */
  lemma CollapseLeadingRun(w: string, b: string)
    requires w != [] && forall i :: 0 <= i < |w| ==> IsWhitespace(w[i])
    requires b == [] || !IsWhitespace(b[0])
    ensures CollapseFrom(w + b, false) == "_" + CollapseFrom(b, false)
  {
    var wb := w + b;
    assert wb[0] == w[0] && wb[1..] == w[1..] + b;
    assert CollapseFrom(wb, false) == "_" + CollapseFrom(wb[1..], true);
    CollapseInsideRun(w[1..], b);
    CollapseAfterRun(b);
  }

  /** A part that does not start with whitespace is scanned alike inside and outside a run. */
  lemma CollapseAfterRun(b: string)
    requires b == [] || !IsWhitespace(b[0])
    ensures CollapseFrom(b, true) == CollapseFrom(b, false)
  {
  }

  /**
   * One whitespace run `w` between a part `a` that does not end in whitespace and a
   * part `b` that does not start with it is replaced by exactly one underscore.
   */
  lemma CollapseWhitespaceRun(a: string, w: string, b: string)
    requires a == [] || !IsWhitespace(a[|a| - 1])
    requires w != [] && forall i :: 0 <= i < |w| ==> IsWhitespace(w[i])
    requires b == [] || !IsWhitespace(b[0])
    ensures CollapseWhitespace(a + w + b) == CollapseWhitespace(a) + "_" + CollapseWhitespace(b)
  {
    ConcatAssoc(a, w, b);
    CollapseFromConcat(a, w + b, false);
    assert InRunAfter(a, false) == false;
    CollapseLeadingRun(w, b);
    ConcatAssoc(CollapseFrom(a, false), "_", CollapseFrom(b, false));
  }

  /** Two exports for the same customer at different clock readings get different file names. */
  lemma OrderFileNameDistinct(customerName: string, t1: nat, t2: nat)
    requires OrderFileName(customerName, t1) == OrderFileName(customerName, t2)
    ensures t1 == t2
  {
    var p := "order_" + CollapseWhitespace(customerName) + "_";
    var s1, s2 := Decimal.NatToString(t1), Decimal.NatToString(t2);
    assert OrderFileName(customerName, t1) == p + s1 + ".json";
    assert OrderFileName(customerName, t2) == p + s2 + ".json";
    assert |s1| == |s2|;
    assert s1 == (p + s1 + ".json")[|p|..|p| + |s1|];
    assert s2 == (p + s2 + ".json")[|p|..|p| + |s2|];
    Decimal.NatToStringInjective(t1, t2);
  }
}
