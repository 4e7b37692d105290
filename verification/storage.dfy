/**
 * Persistence of the cart in the origin's local storage: two string-valued keys,
 * `cartItems` holding `JSON.stringify` of the item list and `cartTotal` holding
 * the total's decimal text, and the start-up read of both.
 */
module Storage {
  import opened Wrappers
  import opened LineItems
  import opened Decimal

  const ItemsKey := "cartItems"
  const TotalKey := "cartTotal"

  /** The cart as it stands at one instant. */
  datatype Snapshot = Snapshot(items: seq<Item>, total: int)

  /** The stored item list is text that `JSON.parse` refuses, so it throws. */
  datatype LoadError = MalformedItems

  // ---- JSON text of a string, as JSON.stringify quotes it ----

  function HexChar(d: nat): (c: char)
    requires d < 16
    ensures CharValue(c) == d
  {
    if d < 10 then DigitChar(d) else (d - 10 + 'a' as int) as char
  }

  /** The JSON text of one character inside a quoted string. */
  function EscapeChar(c: char): string
  {
    if c == '"' then "\\\""
    else if c == '\\' then "\\\\"
    else if c == '\U{0008}' then "\\b"
    else if c == '\t' then "\\t"
    else if c == '\n' then "\\n"
    else if c == '\U{000C}' then "\\f"
    else if c == '\r' then "\\r"
    else if (c as int) < 0x20 then "\\u00" + [HexChar(c as int / 16), HexChar(c as int % 16)]
    else [c]
  }

  function Escape(s: string): string
  {
    if s == [] then [] else EscapeChar(s[0]) + Escape(s[1..])
  }

  // ---- JSON text of the item list ----

  /** `JSON.stringify` of a string: its escaped text between double quotes. */
  function Quote(s: string): string
  {
    "\"" + Escape(s) + "\""
  }

  /** The text before an item's name and the text between its name and its price. */
  const NameField := "{\"name\":"
  const PriceField := ",\"price\":"

  /** `JSON.stringify({name, price})`, keys in the order the object literal gives them. */
  function EncodeItem(item: Item): string
  {
    NameField + Quote(item.name) + PriceField + IntToString(item.price) + "}"
  }

  function EncodeElements(items: seq<Item>): string
  {
    if items == [] then []
    else if |items| == 1 then EncodeItem(items[0])
    else EncodeItem(items[0]) + "," + EncodeElements(items[1..])
  }

  /** `JSON.stringify(items)`: a bracketed list, `[]` exactly for the empty cart. */
  function EncodeItems(items: seq<Item>): (s: string)
    ensures |s| >= 2 && s[0] == '[' && s[|s| - 1] == ']'
    ensures s == "[]" <==> items == []
  {
    assert items != [] ==> |EncodeElements(items)| > 0 by {
      if items != [] {
        EncodeElementsNonEmpty(items);
      }
    }
    "[" + EncodeElements(items) + "]"
  }

  // ---- reading the text back ----

  /** Decodes the character after a backslash; returns it and what follows. */
  function ParseEscape(s: string): (r: Option<(char, string)>)
    ensures r.Some? ==> |r.value.1| < |s|
  {
    if |s| == 0 then None
    else if s[0] == '"' then Some(('"', s[1..]))
    else if s[0] == '\\' then Some(('\\', s[1..]))
    else if s[0] == '/' then Some(('/', s[1..]))
    else if s[0] == 'b' then Some(('\U{0008}', s[1..]))
    else if s[0] == 't' then Some(('\t', s[1..]))
    else if s[0] == 'n' then Some(('\n', s[1..]))
    else if s[0] == 'f' then Some(('\U{000C}', s[1..]))
    else if s[0] == 'r' then Some(('\r', s[1..]))
    else if s[0] == 'u' && |s| >= 5 && AllDigitsIn(s[1..5], 16) then
      var code := DigitsValue(s[1..5], 16);
      if code < 0xD800 || 0xE000 <= code < 0x11_0000 then Some((code as char, s[5..])) else None
    else None
  }

  /** Reads the rest of a quoted string up to its closing quote; returns the string and what follows the quote. */
  function ParseStringBody(s: string): (r: Option<(string, string)>)
    ensures r.Some? ==> |r.value.1| < |s|
  {
    if |s| == 0 then None
    else if s[0] == '"' then Some(([], s[1..]))
    else if s[0] == '\\' then
      match ParseEscape(s[1..])
      case None => None
      case Some((c, rest)) =>
        match ParseStringBody(rest)
        case None => None
        case Some((body, after)) => Some(([c] + body, after))
    else if (s[0] as int) < 0x20 then None
    else
      match ParseStringBody(s[1..])
      case None => None
      case Some((body, after)) => Some(([s[0]] + body, after))
  }

  /**
   * Reads a whole number without sign as JSON writes one: at least one digit, and
   * no leading zero unless the number is zero itself.
   */
  function ParseNatural(u: string): (r: Option<(nat, string)>)
    ensures r.Some? ==> |r.value.1| < |u|
    ensures |u| >= 2 && u[0] == '0' && IsDecimalDigit(u[1]) ==> r.None?
    ensures r.Some? ==> |u| > 0 && IsDecimalDigit(u[0])
  {
    var d := LeadingDigits(u, 10);
    if d == [] || (|d| > 1 && d[0] == '0') then None
    else Some((DigitsValue(d, 10), u[|d|..]))
  }

  /** Reads an optionally negative whole number. */
  function ParseNumber(s: string): (r: Option<(int, string)>)
    ensures r.Some? ==> |r.value.1| < |s|
  {
    if |s| > 0 && s[0] == '-' then
      match ParseNatural(s[1..])
      case None => None
      case Some((n, rest)) => Some((-(n as int), rest))
    else
      match ParseNatural(s)
      case None => None
      case Some((n, rest)) => Some((n as int, rest))
  }

  /** What follows the literal `lit` at the start of `s`. */
  function Expect(lit: string, s: string): (r: Option<string>)
    ensures r.Some? ==> |r.value| == |s| - |lit|
  {
    if lit <= s then Some(s[|lit|..]) else None
  }

  function ParseItem(s: string): (r: Option<(Item, string)>)
    ensures r.Some? ==> |r.value.1| < |s|
  {
    match Expect(NameField + "\"", s)
    case None => None
    case Some(afterHead) =>
      match ParseStringBody(afterHead)
      case None => None
      case Some((name, rest)) =>
        match Expect(PriceField, rest)
        case None => None
        case Some(afterMid) =>
          match ParseNumber(afterMid)
          case None => None
          case Some((price, after)) =>
            match Expect("}", after)
            case None => None
            case Some(tail) => Some((Item(name, price), tail))
  }

  /** Reads the items of a non-empty list and its closing bracket. */
  function ParseElements(s: string): (r: Option<seq<Item>>)
    ensures r.Some? ==> |r.value| > 0
    decreases |s|
  {
    match ParseItem(s)
    case None => None
    case Some((item, rest)) =>
      if rest == "]" then Some([item])
      else if |rest| > 0 && rest[0] == ',' then
        match ParseElements(rest[1..])
        case None => None
        case Some(more) => Some([item] + more)
      else None
  }

  /** `JSON.parse` of the stored item list, for the text `JSON.stringify` writes; None where it would throw. */
  function DecodeItems(s: string): (r: Option<seq<Item>>)
    ensures r.Some? ==> |s| >= 2 && s[0] == '['
    ensures r == Some([]) <==> s == "[]"
  {
    if s == "[]" then Some([])
    else if |s| > 0 && s[0] == '[' then ParseElements(s[1..])
    else None
  }

  // ---- the two keys ----

  /** `saveCartToStorage`: writes both keys and leaves every other key alone. */
  function Save(store: map<string, string>, cart: Snapshot): (r: map<string, string>)
    ensures r.Keys == store.Keys + {ItemsKey, TotalKey}
    ensures r[ItemsKey] == EncodeItems(cart.items) && r[TotalKey] == IntToString(cart.total)
    ensures forall k :: k in store && k != ItemsKey && k != TotalKey ==> r[k] == store[k]
  {
    store[ItemsKey := EncodeItems(cart.items)][TotalKey := IntToString(cart.total)]
  }

  /**
   * The start-up read of `cartState`: a missing `cartItems` key gives the empty
   * list and a missing or unparsable `cartTotal` gives 0, each independently;
   * a stored item list that does not parse throws.
   */
  function Load(store: map<string, string>): (r: Result<Snapshot, LoadError>)
    ensures r.Failure? <==> ItemsKey in store && DecodeItems(store[ItemsKey]).None?
    ensures r.Success? && ItemsKey !in store ==> r.value.items == []
    ensures r.Success? && ItemsKey in store ==> DecodeItems(store[ItemsKey]) == Some(r.value.items)
    ensures r.Success? && TotalKey !in store ==> r.value.total == 0
    ensures r.Success? && TotalKey in store ==> r.value.total == OrZero(ParseInt(store[TotalKey], 0))
  {
    var items := if ItemsKey in store then DecodeItems(store[ItemsKey]) else Some([]);
    var total := if TotalKey in store then OrZero(ParseInt(store[TotalKey], 0)) else 0;
    match items
    case None => Failure(MalformedItems)
    case Some(xs) => Success(Snapshot(xs, total))
  }

  // ---- round trip ----

  /** Reading `\u00XY` gives back the control character it was written for. */
  lemma UnicodeEscapeRead(c: char, rest: string)
    requires (c as int) < 0x20
    ensures ParseEscape("u00" + [HexChar(c as int / 16), HexChar(c as int % 16)] + rest) == Some((c, rest))
  {
    var h := "00" + [HexChar(c as int / 16), HexChar(c as int % 16)];
    var s := "u" + h + rest;
    assert s == "u00" + [HexChar(c as int / 16), HexChar(c as int % 16)] + rest;
    assert s[1..5] == h && s[5..] == rest;
    assert AllDigitsIn(h, 16);
    assert h[..3] == "00" + [HexChar(c as int / 16)];
    assert h[..3][..2] == "00";
    assert "00"[..1] == "0" && "0"[..0] == [];
    assert DigitsValue("00", 16) == 0;
    assert DigitsValue(h[..3], 16) == c as int / 16;
  }

  /** Reading the JSON text of one character, followed by more text, gives that character first. */
  lemma EscapeCharRead(c: char, rest: string)
    ensures ParseStringBody(EscapeChar(c) + rest) ==
      match ParseStringBody(rest)
      case None => None
      case Some((body, after)) => Some(([c] + body, after))
  {
    var s := EscapeChar(c) + rest;
    if c == '"' || c == '\\' || c == '\U{0008}' || c == '\t' || c == '\n' || c == '\U{000C}' || c == '\r' {
      assert s[0] == '\\' && s[2..] == rest;
      assert ParseEscape(s[1..]) == Some((c, rest));
    } else if (c as int) < 0x20 {
      assert s[0] == '\\';
      assert s[1..] == "u00" + [HexChar(c as int / 16), HexChar(c as int % 16)] + rest;
      UnicodeEscapeRead(c, rest);
    } else {
      assert s[0] == c && s[1..] == rest;
    }
  }

  /** Reading a quoted string written by `Escape` gives it back, with the text after the closing quote. */
  lemma {:induction false} EscapeRead(name: string, rest: string)
    ensures ParseStringBody(Escape(name) + "\"" + rest) == Some((name, rest))
  {
    if name == [] {
      assert Escape(name) + "\"" + rest == "\"" + rest;
    } else {
      var tail := Escape(name[1..]) + "\"" + rest;
      assert Escape(name) + "\"" + rest == EscapeChar(name[0]) + tail;
      EscapeRead(name[1..], rest);
      EscapeCharRead(name[0], tail);
      assert [name[0]] + name[1..] == name;
    }
  }

  /** A digit run without a leading zero, followed by a non-digit, is read as its value. */
  lemma NaturalRead(d: string, rest: string)
    requires d != [] && AllDigitsIn(d, 10) && !(|d| > 1 && d[0] == '0')
    requires rest == [] || !IsDecimalDigit(rest[0])
    ensures ParseNatural(d + rest) == Some((DigitsValue(d, 10), rest))
  {
    LeadingDigitsOfRun(d, rest, 10);
    assert (d + rest)[|d|..] == rest;
  }

  /** After a minus sign the natural number that follows is read and negated. */
  lemma NegativeNumber(u: string)
    ensures ParseNumber("-" + u) ==
      match ParseNatural(u)
      case None => None
      case Some((n, rest)) => Some((-(n as int), rest))
  {
    assert ("-" + u)[0] == '-' && ("-" + u)[1..] == u;
  }

  /** Without a minus sign the text is read as a natural number. */
  lemma NonNegativeNumber(u: string)
    requires |u| > 0 && u[0] != '-'
    ensures ParseNumber(u) ==
      match ParseNatural(u)
      case None => None
      case Some((n, rest)) => Some((n as int, rest))
  {
  }

  /** Reading `n.toString()` followed by a non-digit gives back `n`. */
  lemma NaturalNumberRead(n: nat, rest: string)
    requires rest == [] || !IsDecimalDigit(rest[0])
    ensures ParseNumber(IntToString(n) + rest) == Some((n as int, rest))
  {
    var d := NatToString(n);
    DigitsValueOfNatToString(n);
    NatToStringNoLeadingZero(n);
    NaturalRead(d, rest);
    var u := d + rest;
    assert IntToString(n) + rest == u;
    assert u[0] == d[0] && IsDigitIn(d[0], 10);
    NonNegativeNumber(u);
  }

  /** Reading `(-n).toString()` followed by a non-digit gives back `-n`. */
  lemma NegativeNumberRead(n: nat, rest: string)
    requires n > 0
    requires rest == [] || !IsDecimalDigit(rest[0])
    ensures ParseNumber(IntToString(-(n as int)) + rest) == Some((-(n as int), rest))
  {
    var d := NatToString(n);
    DigitsValueOfNatToString(n);
    NatToStringNoLeadingZero(n);
    NaturalRead(d, rest);
    var u := d + rest;
    NegativeText(n, rest);
    NegativeNumber(u);
  }

  /** `(-n).toString()` followed by `rest` is a minus sign before the digits of `n` and `rest`. */
  lemma NegativeText(n: nat, rest: string)
    requires n > 0
    ensures IntToString(-(n as int)) + rest == "-" + (NatToString(n) + rest)
  {
    assert IntToString(-(n as int)) == "-" + NatToString(n);
  }

  /** Reading `i.toString()` followed by a non-digit gives back `i`. */
  lemma NumberRead(i: int, rest: string)
    requires rest == [] || !IsDecimalDigit(rest[0])
    ensures ParseNumber(IntToString(i) + rest) == Some((i, rest))
  {
    if i < 0 {
      NegativeNumberRead(-i, rest);
    } else {
      NaturalNumberRead(i, rest);
    }
  }

  lemma ExpectPrefix(lit: string, rest: string)
    ensures Expect(lit, lit + rest) == Some(rest)
  {
    assert lit <= lit + rest && (lit + rest)[|lit|..] == rest;
  }

  lemma EncodeItemFields(item: Item, rest: string)
    ensures EncodeItem(item) + rest ==
      (NameField + "\"") + (Escape(item.name) + "\"" + (PriceField + (IntToString(item.price) + ("}" + rest))))
  {
    var q, p := Escape(item.name), IntToString(item.price);
    assert EncodeItem(item) == NameField + ("\"" + q + "\"") + PriceField + p + "}";
    Regroup(NameField, q, PriceField, p, rest);
  }

  /** The object text regrouped in the order `ParseItem` reads it. */
  lemma Regroup(head: string, q: string, mid: string, p: string, rest: string)
    ensures head + ("\"" + q + "\"") + mid + p + "}" + rest ==
      (head + "\"") + (q + "\"" + (mid + (p + ("}" + rest))))
  {
  }

  lemma ItemRead(item: Item, rest: string)
    ensures ParseItem(EncodeItem(item) + rest) == Some((item, rest))
  {
    var afterMid := IntToString(item.price) + ("}" + rest);
    var afterName := PriceField + afterMid;
    var afterHead := Escape(item.name) + "\"" + afterName;
    EncodeItemFields(item, rest);
    ExpectPrefix(NameField + "\"", afterHead);
    EscapeRead(item.name, afterName);
    ExpectPrefix(PriceField, afterMid);
    NumberRead(item.price, "}" + rest);
    ExpectPrefix("}", rest);
  }

  lemma EncodeElementsSplit(items: seq<Item>)
    requires |items| > 1
    ensures EncodeElements(items) + "]" == EncodeItem(items[0]) + ("," + (EncodeElements(items[1..]) + "]"))
  {
    var head := EncodeItem(items[0]);
    var more := EncodeElements(items[1..]);
    assert EncodeElements(items) == head + "," + more;
    CloseList(head, more);
  }

  lemma CloseList(head: string, more: string)
    ensures (head + "," + more) + "]" == head + ("," + (more + "]"))
  {
  }

  /** The text of a non-empty list's items is not empty. */
  lemma EncodeElementsNonEmpty(items: seq<Item>)
    requires items != []
    ensures |EncodeElements(items)| > 0
  {
    assert |EncodeItem(items[0])| >= |NameField|;
  }

  lemma {:induction false} ElementsRead(items: seq<Item>)
    requires items != []
    ensures ParseElements(EncodeElements(items) + "]") == Some(items)
  {
    if |items| == 1 {
      ItemRead(items[0], "]");
      ElementsLast(EncodeElements(items) + "]", items[0]);
      assert [items[0]] == items;
    } else {
      ElementsRead(items[1..]);
      ElementsReadStep(items);
    }
  }

  /** The list text of `items` reads back, given that the text of its tail does. */
  lemma ElementsReadStep(items: seq<Item>)
    requires |items| > 1
    requires ParseElements(EncodeElements(items[1..]) + "]") == Some(items[1..])
    ensures ParseElements(EncodeElements(items) + "]") == Some(items)
  {
    EncodeElementsSplit(items);
    ItemThenElements(items[0], EncodeElements(items[1..]) + "]", items[1..]);
    HeadTail(items);
  }

  /** An encoded item, a comma and a readable rest of the list read as that item and the rest. */
  lemma ItemThenElements(item: Item, more: string, tail: seq<Item>)
    requires ParseElements(more) == Some(tail)
    ensures ParseElements(EncodeItem(item) + ("," + more)) == Some([item] + tail)
  {
    var rest := "," + more;
    ItemRead(item, rest);
    assert rest[0] == ',' && rest[1..] == more;
    ElementsCons(EncodeItem(item) + rest, item, rest, tail);
  }

  /** A non-empty list is its first item followed by the rest. */
  lemma HeadTail(items: seq<Item>)
    requires items != []
    ensures [items[0]] + items[1..] == items
  {
  }

  /** An item followed by the closing bracket reads as a one-item list. */
  lemma ElementsLast(s: string, item: Item)
    requires ParseItem(s) == Some((item, "]"))
    ensures ParseElements(s) == Some([item])
  {
  }

  /** An item followed by a comma and a readable rest of the list reads as that item and the rest. */
  lemma ElementsCons(s: string, item: Item, rest: string, more: seq<Item>)
    requires ParseItem(s) == Some((item, rest))
    requires |rest| > 0 && rest[0] == ','
    requires ParseElements(rest[1..]) == Some(more)
    ensures ParseElements(s) == Some([item] + more)
  {
    assert rest != "]" by {
      assert rest[0] != "]"[0];
    }
  }

  /** What `DecodeItems` looks at in a bracketed list text. */
  lemma OpenList(e: string)
    ensures var s := "[" + e + "]"; |s| == |e| + 2 && s[0] == '[' && s[1..] == e + "]"
  {
  }

  /** `JSON.parse(JSON.stringify(items))` gives the items back. */
  lemma DecodeEncodeItems(items: seq<Item>)
    ensures DecodeItems(EncodeItems(items)) == Some(items)
  {
    if items != [] {
      var e := EncodeElements(items);
      assert EncodeItems(items) == "[" + e + "]";
      OpenList(e);
      EncodeElementsNonEmpty(items);
      ElementsRead(items);
    }
  }

  /** A reload after `saveCartToStorage` restores exactly the saved items and total. */
  lemma LoadAfterSave(store: map<string, string>, cart: Snapshot)
    ensures Load(Save(store, cart)) == Success(cart)
  {
    DecodeEncodeItems(cart.items);
    ParseIntOfIntToString(cart.total, 0);
  }

  /** With neither key present the cart starts empty. */
  lemma LoadFresh(store: map<string, string>)
    requires ItemsKey !in store && TotalKey !in store
    ensures Load(store) == Success(Snapshot([], 0))
  {
  }

  /**
   * The two keys are read independently, so a load can produce a total that is
   * not the sum of the loaded prices: any nonzero stored total without a stored list.
   */
  lemma LoadKeepsStoredDrift(n: int)
    requires n != 0
    ensures var r := Load(map[TotalKey := IntToString(n)]);
      r == Success(Snapshot([], n)) && r.value.total != Sum(r.value.items)
  {
    ParseIntOfIntToString(n, 0);
  }

  /** A number written with a leading zero, with or without a minus sign, is not JSON and does not parse. */
  lemma LeadingZeroRejected(s: string)
    requires |s| >= 2 && s[0] == '0' && IsDecimalDigit(s[1])
    ensures ParseNumber(s) == None && ParseNumber("-" + s) == None
  {
    NegativeNumber(s);
  }

  /** The stored text of one item whose price is written `p`, in the layout `JSON.stringify` uses. */
  lemma ItemTextSplit(q: string, p: string)
    ensures var t := "[" + NameField + ("\"" + q + "\"") + PriceField + p + "}]";
      t[0] == '[' && t[1..] == (NameField + "\"") + (q + "\"" + (PriceField + (p + "}]")))
  {
  }

  /**
   * A stored list whose price is written with a leading zero is not JSON, so
   * `JSON.parse` throws on it and the load fails, whatever the item's name.
   */
  lemma LoadRejectsLeadingZero(name: string, p: string)
    requires |p| >= 2 && p[0] == '0' && IsDecimalDigit(p[1])
    ensures Load(map[ItemsKey := "[" + NameField + Quote(name) + PriceField + p + "}]"]).Failure?
  {
    var t := "[" + NameField + Quote(name) + PriceField + p + "}]";
    var q := Escape(name);
    var afterMid := p + "}]";
    var afterName := PriceField + afterMid;
    ItemTextSplit(q, p);
    ExpectPrefix(NameField + "\"", q + "\"" + afterName);
    EscapeRead(name, afterName);
    ExpectPrefix(PriceField, afterMid);
    assert afterMid[0] == '0' && afterMid[1] == p[1];
    LeadingZeroRejected(afterMid);
    assert ParseItem(t[1..]) == None;
    assert |t| > 2;
  }
}
