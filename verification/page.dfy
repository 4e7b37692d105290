/**
 * Small pure pieces of the page's event handlers: the name and price read from a
 * flower card when its button carries no inline handler, the search filter's
 * match test, and the carousel's next slide.
 */
module Page {
  import opened Wrappers
  import opened Text
  import opened Decimal

  // ---- reading an item from a flower card ----

  /** The text of a card's `h3` title and `.price` element; None when the element is absent. */
  datatype Card = Card(title: Option<string>, priceText: Option<string>)

  /** `text.replace(/[^0-9]/g, '')`. */
  function KeepDigits(s: string): (d: string)
    ensures AllDigitsIn(d, 10)
    ensures |d| <= |s|
  {
    if s == [] then [] else (if IsDecimalDigit(s[0]) then [s[0]] else []) + KeepDigits(s[1..])
  }

  /** The item name: the trimmed title, or "Item" without one. */
  function CardName(card: Card): (name: string)
    ensures card.title.None? ==> name == "Item"
    ensures card.title.Some? ==> Contains(card.title.value, name)
    ensures card.title.Some? && name != [] ==> !IsWhitespace(name[0]) && !IsWhitespace(name[|name| - 1])
  {
    match card.title
    case Some(t) =>
      var i := |t| - |TrimStart(t)|;
      assert Trim(t) <= t[i..];
      Trim(t)
    case None => "Item"
  }

  /**
   * `parseInt(priceText, 10) || 0` on the digits of the price element's text, or on
   * "0" without the element: the decimal value of those digits, 0 when there are none.
   */
  function CardPrice(card: Card): (price: int)
    ensures price >= 0
    ensures card.priceText.None? ==> price == 0
    ensures card.priceText.Some? && KeepDigits(card.priceText.value) == [] ==> price == 0
    ensures card.priceText.Some? && KeepDigits(card.priceText.value) != [] ==>
      price == DigitsValue(KeepDigits(card.priceText.value), 10)
  {
    var text := match card.priceText case Some(t) => KeepDigits(t) case None => "0";
    assert text != [] ==> ParseInt(text, 10) == Some(DigitsValue(text, 10)) by {
      if text != [] {
        ParseDecimalRun(text);
      }
    }
    assert text == "0" ==> text[..0] == [];
    OrZero(ParseInt(text, 10))
  }

  lemma {:induction false} KeepDigitsConcat(a: string, b: string)
    ensures KeepDigits(a + b) == KeepDigits(a) + KeepDigits(b)
  {
    if a == [] {
      assert a + b == b;
    } else {
      var head := if IsDecimalDigit(a[0]) then [a[0]] else [];
      assert (a + b)[0] == a[0] && (a + b)[1..] == a[1..] + b;
      assert KeepDigits(a + b) == head + KeepDigits(a[1..] + b);
      KeepDigitsConcat(a[1..], b);
      assert head + (KeepDigits(a[1..]) + KeepDigits(b)) == (head + KeepDigits(a[1..])) + KeepDigits(b);
    }
  }

  lemma {:induction false} KeepDigitsOfDigits(d: string)
    requires AllDigitsIn(d, 10)
    ensures KeepDigits(d) == d
  {
    if d != [] {
      KeepDigitsOfDigits(d[1..]);
    }
  }

  lemma {:induction false} KeepDigitsOfNonDigits(s: string)
    requires forall i :: 0 <= i < |s| ==> !IsDecimalDigit(s[i])
    ensures KeepDigits(s) == []
  {
    if s != [] {
      KeepDigitsOfNonDigits(s[1..]);
    }
  }

  /** A price shown as a currency sign, the amount and any trailing text without digits is read back as the amount. */
  lemma CardPriceOfAmount(title: Option<string>, prefix: string, amount: nat, suffix: string)
    requires forall i :: 0 <= i < |prefix| ==> !IsDecimalDigit(prefix[i])
    requires forall i :: 0 <= i < |suffix| ==> !IsDecimalDigit(suffix[i])
    ensures CardPrice(Card(title, Some(prefix + NatToString(amount) + suffix))) == amount
  {
    var d := NatToString(amount);
    KeepDigitsConcat(prefix + d, suffix);
    KeepDigitsConcat(prefix, d);
    KeepDigitsOfNonDigits(prefix);
    KeepDigitsOfNonDigits(suffix);
    KeepDigitsOfDigits(d);
    DigitsValueOfNatToString(amount);
    assert [] + d + [] == d;
  }

  /** A character that is not a digit, such as a thousands separator, does not change the price. */
  lemma CardPriceIgnoresNonDigit(title: Option<string>, a: string, c: char, b: string)
    requires !IsDecimalDigit(c)
    ensures CardPrice(Card(title, Some(a + [c] + b))) == CardPrice(Card(title, Some(a + b)))
  {
    KeepDigitsConcat(a + [c], b);
    KeepDigitsConcat(a, [c]);
    KeepDigitsConcat(a, b);
    assert KeepDigits([c]) == [] by {
      assert [c][1..] == [];
    }
    assert KeepDigits(a) + [] == KeepDigits(a);
  }

  // ---- search ----

  /** `(text || '').trim().toLowerCase()`. */
  function Normalize(s: string): (r: string)
    ensures |r| <= |s|
    ensures r == [] <==> forall i :: 0 <= i < |s| ==> IsWhitespace(s[i])
    ensures forall i :: 0 <= i < |r| ==> !('A' <= r[i] <= 'Z')
  {
    ToLower(Trim(s))
  }

  /**
   * A card stays visible when the normalised query is empty or occurs in its
   * normalised title: a blank query shows every card, and a card without a title
   * is shown by a blank query only.
   */
  function CardVisible(query: string, title: Option<string>): (visible: bool)
    ensures Trim(query) == [] ==> visible
    ensures title.None? ==> (visible <==> Trim(query) == [])
  {
    var q := Normalize(query);
    var t := match title case Some(s) => Normalize(s) case None => "";
    q == [] || Contains(t, q)
  }

  /** Searching for a card's own title shows it. */
  lemma OwnTitleShown(title: string)
    ensures CardVisible(title, Some(title))
  {
    assert Normalize(title) <= Normalize(title)[0..];
  }

  lemma NormalizeAppendExtends(query: string, c: char)
    ensures Normalize(query) <= Normalize(query + [c])
  {
    TrimAppendExtends(query, c);
    ToLowerPrefix(Trim(query), Trim(query + [c]));
  }

  lemma ContainsShorter(t: string, q: string, q': string)
    requires q <= q' && Contains(t, q')
    ensures Contains(t, q)
  {
    var i :| 0 <= i <= |t| && q' <= t[i..];
    assert q <= t[i..];
  }

  /** Typing one more character can only hide cards, never show new ones. */
  lemma TypingNarrows(query: string, c: char, title: Option<string>)
    ensures CardVisible(query + [c], title) ==> CardVisible(query, title)
  {
    NormalizeAppendExtends(query, c);
    var t := match title case Some(s) => Normalize(s) case None => "";
    if Normalize(query) != [] && CardVisible(query + [c], title) {
      ContainsShorter(t, Normalize(query), Normalize(query + [c]));
    }
  }

  lemma {:induction false} LowerKeepsWhitespace(c: char)
    ensures IsWhitespace(LowerChar(c)) == IsWhitespace(c)
  {
  }

  lemma {:induction false} TrimStartLower(s: string)
    ensures TrimStart(ToLower(s)) == ToLower(TrimStart(s))
  {
    if s != [] {
      LowerKeepsWhitespace(s[0]);
      ToLowerDropFirst(s);
      TrimStartLower(s[1..]);
    }
  }

  /** Lower-casing commutes with dropping the first or the last character. */
  lemma ToLowerDropFirst(s: string)
    requires s != []
    ensures ToLower(s)[1..] == ToLower(s[1..])
  {
  }

  lemma ToLowerDropLast(s: string)
    requires s != []
    ensures ToLower(s)[..|s| - 1] == ToLower(s[..|s| - 1])
  {
  }

  lemma {:induction false} TrimEndLower(s: string)
    ensures TrimEnd(ToLower(s)) == ToLower(TrimEnd(s))
  {
    if s != [] {
      LowerKeepsWhitespace(s[|s| - 1]);
      ToLowerDropLast(s);
      TrimEndLower(s[..|s| - 1]);
    }
  }

  lemma ToLowerIdempotent(s: string)
    ensures ToLower(ToLower(s)) == ToLower(s)
  {
  }

  lemma TrimLower(query: string)
    ensures Trim(ToLower(query)) == ToLower(Trim(query))
  {
    TrimStartLower(query);
    TrimEndLower(TrimStart(query));
  }

  lemma NormalizeLower(query: string)
    ensures Normalize(ToLower(query)) == Normalize(query)
  {
    TrimLower(query);
    ToLowerIdempotent(Trim(query));
  }

  /** The filter ignores the case of the query's letters. */
  lemma SearchIgnoresCase(query: string, title: Option<string>)
    ensures CardVisible(ToLower(query), title) == CardVisible(query, title)
  {
    NormalizeLower(query);
  }

  // ---- carousel ----

  /** `(currentSlide + 1) % totalSlides`: the following slide, wrapping from the last to the first. */
  function NextSlide(current: nat, totalSlides: nat): (next: nat)
    requires totalSlides > 0
    ensures next < totalSlides
    ensures current + 1 < totalSlides ==> next == current + 1
    ensures current + 1 == totalSlides ==> next == 0
  {
    (current + 1) % totalSlides
  }

  /** The slide shown after `ticks` advances from the first one. */
  function SlideAfter(ticks: nat, totalSlides: nat): (slide: nat)
    requires totalSlides > 0
    ensures slide < totalSlides
  {
    if ticks == 0 then 0 else NextSlide(SlideAfter(ticks - 1, totalSlides), totalSlides)
  }

  lemma {:induction false} MulAtLeast(d: int, n: int)
    requires d >= 1 && n > 0
    ensures d * n >= n
  {
    if d > 1 {
      MulAtLeast(d - 1, n);
      assert d * n == (d - 1) * n + n;
    }
  }

  lemma ModUnique(x: int, n: int, q: int, r: int)
    requires n > 0 && 0 <= r < n && x == q * n + r
    ensures x % n == r
  {
    var q', r' := x / n, x % n;
    assert x == q' * n + r';
    assert (q - q') * n == r' - r;
    if q > q' {
      MulAtLeast(q - q', n);
    } else if q < q' {
      MulAtLeast(q' - q, n);
    }
  }

  /** One advance from slide `x mod n` shows slide `(x + 1) mod n`. */
  lemma NextSlideOfMod(x: nat, n: nat)
    requires n > 0
    ensures NextSlide(x % n, n) == (x + 1) % n
  {
    var q, p := x / n, x % n;
    assert x == q * n + p;
    if p + 1 < n {
      ModUnique(x + 1, n, q, p + 1);
    } else {
      assert (q + 1) * n == q * n + n;
      ModUnique(x + 1, n, q + 1, 0);
    }
  }

  /** The carousel cycles: after `ticks` advances it shows slide `ticks mod totalSlides`. */
  lemma {:induction false} SlideAfterCycles(ticks: nat, totalSlides: nat)
    requires totalSlides > 0
    ensures SlideAfter(ticks, totalSlides) == ticks % totalSlides
  {
    if ticks > 0 {
      SlideAfterCycles(ticks - 1, totalSlides);
      NextSlideOfMod(ticks - 1, totalSlides);
    }
  }
}
