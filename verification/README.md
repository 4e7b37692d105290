# Flower shop cart — a Dafny model

This project models the shopping cart of the flower shop's page script `script.js`.
The global record `cartState` holds an ordered list of `{name, price}` line items and a
running `total`. The script keeps that total up to date step by step rather than
recomputing it. It is changed in place by `addToCart`, by `removeFromCart` and by the
success path of `handleOrderSubmit`. After every change it is written to the page's
local storage under the keys `cartItems` and `cartTotal`, and it is read back from
there when the page loads.

The model is a class `Cart.CartState` with fields `items: seq<Item>`, `total: int` and
`storage: map<string, string>` (the origin's local storage). Each of those operations is a
method that reassigns the fields. Its `ensures` give the new state in terms of the old one.
The invariant `total == Sum(items)` is stated as `Consistent()`. More generally, every
operation keeps the drift `total - Sum(items)` unchanged, and a successful checkout resets
it to 0. Start-up reads the two keys independently, so the invariant is kept by the
operations but not established by the load (`Storage.LoadKeepsStoredDrift`).

Next to the cart sit the pure helpers the page uses:
- the price read from a flower card's text (digits only, `parseInt(…, 10) || 0`);
- the order file name (`order_<name with whitespace runs → _>_<millis>.json`);
- the search filter's match test (trimmed, lower-cased `includes`);
- the carousel's `(currentSlide + 1) % totalSlides`.

The text primitives are modelled on their JavaScript definitions:
- the whitespace set of `trim` and `\s`;
- `Number.prototype.toString` for whole numbers;
- `parseInt`, with its radix argument and its `0x` prefix rule;
- the item list text that `JSON.stringify` writes, with its string escapes.

Modules and files: `Wrappers` (wrappers.dfy), `Text` (text.dfy), `Decimal` (decimal.dfy),
`LineItems` (line_items.dfy), `Storage` (storage.dfy), `Order` (order.dfy), `Page`
(page.dfy), `Cart` (cart.dfy).

The clocks (`Date.now()`, `new Date().toISOString()`) are parameters: `now` and
`orderDate`. The two awaited Google Drive calls are also a parameter, `DriveOutcome`. It says
whether the user is already signed in, whether sign-in completes and whether the upload
completes.

At start-up a missing key falls back (`|| []`, `|| 0`), and so does a stored item list
that parses to a falsy JSON value (`null`, `false`, `0`, `""`). The model reads only a
list, so it fails on the latter (see Left out). A stored item list that `JSON.parse`
rejects throws, and this is modelled as `Failure(MalformedItems)`.
A stored total that `parseInt` cannot read becomes 0, as `|| 0` makes it.

## Model

| member | source | states |
|---|---|---|
| Cart.CartState.AddToCart | script.js:79-82 | items become the old items with `{name, price}` appended, total grows by `price`, storage holds the new snapshot, the drift is unchanged (so a consistent cart stays consistent) |
| Cart.CartState.RemoveFromCart | script.js:89-94 | with a match, exactly the first item of that name is spliced out (others keep their order), total drops by its price and the new state is saved; with none, items, total and storage are unchanged; the drift is unchanged |
| Cart.FindIndex | script.js:90 | `findIndex` by exact name: -1 when no item has the name, otherwise the index of the first one that has it |
| Cart.CartState.HandleOrderSubmit | script.js:203-254 | an empty cart is refused, then a form with an empty required field; otherwise the order record is built from the form and the current cart; the cart is cleared to `[]`/0 and saved only when sign-in (if needed) and upload both complete, and in every other outcome items, total and storage are unchanged |
| Cart.CartState.SaveCartToStorage | script.js:258-261 | storage becomes `Save` of the current items and total |
| Cart.CartState.Open | script.js:26-29 | creating `cartState` fails exactly when `Load` fails; otherwise a fresh cart holds what `Load` read |
| Cart.CartState.constructor | script.js:26-29 | the new cart holds the given snapshot and storage |
| Cart.CartState.AddCardToCart | script.js:280-290 | no enclosing card: nothing changes; otherwise the card's trimmed title (or "Item") is added at the card's fallback price |
| LineItems.FirstMatch | script.js:90 | the result names an item with the name and no earlier item has it; None exactly when no item has the name |
| LineItems.Sum | script.js:80-81 | the sum of prices the running total is meant to equal: 0 for no items, never negative when no price is |
| LineItems.RemoveFirst | script.js:90-93 | `splice(index, 1)` at the first match: one item fewer, the items before it and after it kept in order; with no match the list is unchanged |
| LineItems.SumConcat | script.js:80-81 | the sum of prices of two lists put together is the sum of their sums |
| LineItems.RemoveFirstSum | script.js:92-93 | removing the first match lowers the sum of prices by exactly that item's price; no match leaves it unchanged |
| LineItems.RemoveFirstOneOccurrence | script.js:90-93 | removal takes out one item, the first of that name: remaining items plus that item are the original multiset, and one fewer item carries the name (later duplicates stay) |
| LineItems.RemoveFirstAfterAppend | script.js:79-93 | removing by name right after adding undoes the add when no earlier item has the name; otherwise the earlier item goes and the added one stays last |
| Storage.Save | script.js:258-261 | writes `cartItems` as the JSON text of the items and `cartTotal` as the total's decimal text; no other key changes |
| Wrappers.OrZero | script.js:28 | `x || 0` on a `parseInt` result: 0 exactly when the result is NaN or 0, and otherwise the number read |
| Storage.Load | script.js:26-29 | the load fails exactly when a stored item list is text that `DecodeItems` does not read; otherwise a missing item list gives `[]`, a stored one its parsed items, a missing total 0 and a stored one `parseInt(text) || 0` |
| Storage.EncodeItems | script.js:259 | `JSON.stringify(items)` is a bracketed list, and `[]` exactly for the empty cart |
| Storage.DecodeItems | script.js:27 | a list that parses starts with `[`, and it parses to the empty list exactly when the text is `[]` |
| Storage.ParseNatural | script.js:27 | JSON's rule for the digits of a number: a text starting with `0` and another digit does not parse, and a parsed number starts with a digit |
| Storage.LeadingZeroRejected | script.js:27 | any number text starting with `0` and another digit (`01`, `007`, `012…`), with or without a minus sign, does not parse, whatever follows it |
| Storage.LoadRejectsLeadingZero | script.js:27 | a stored one-item list whose price is written with a leading zero fails to load, for every item name, as `JSON.parse` throws on it |
| Storage.LoadAfterSave | script.js:26-29 | reloading after a save gives back exactly the saved items and total |
| Storage.LoadFresh | script.js:27-28 | with neither key stored the cart starts with no items and total 0 |
| Storage.LoadKeepsStoredDrift | script.js:26-29 | the two keys are read independently: any nonzero total stored without an item list loads as that total over no items, so the total is not the sum of the prices |
| Storage.DecodeEncodeItems | script.js:259 | parsing the JSON text of an item list gives the list back |
| Storage.EscapeRead | script.js:27 | parsing a string quoted with JSON's escapes gives the string back, with the text after the closing quote |
| Storage.ItemRead | script.js:27 | parsing the JSON text of one `{name, price}` object gives the item back |
| Storage.NumberRead | script.js:27 | parsing a whole number written by `toString` gives it back |
| Decimal.ParseIntOfIntToString | script.js:28 | `parseInt(total.toString())` is the total, for every whole number, negative ones included |
| Decimal.ParseInt | script.js:28 | `parseInt` is NaN for a radix outside 2-36 (other than absent) and for text that is empty after leading whitespace |
| Decimal.ParseIntReadsLeadingRun | script.js:288 | a general fact about `parseInt(text, 10)` as called there: on a run of digits followed by a non-digit it is the run's value, and what follows is ignored (the page passes digits only, the case `Decimal.ParseDecimalRun` covers) |
| Decimal.ParseDecimalRun | script.js:288 | `parseInt(text, 10)` on a non-empty run of digits, the only text the page passes there, is the run's value |
| Decimal.IntToString | script.js:260 | `toString` of a whole number is never empty |
| Decimal.IntToStringShape | script.js:260 | `toString` starts with a minus sign exactly for a negative number, and the rest is decimal digits |
| Decimal.NatToStringNoLeadingZero | script.js:260 | `toString` writes no leading zero, so what it writes is a JSON number |
| Decimal.LeadingDigits | script.js:28 | `parseInt` reads the longest run of digits at the start: a prefix of the text, all digits, followed by a non-digit or the end |
| Decimal.DigitsValueOfNatToString | script.js:260 | the decimal text of a number has that number as its value |
| Decimal.NatToStringInjective | script.js:236 | different numbers have different decimal texts |
| Text.TrimStart | script.js:398 | leading whitespace is removed: the result is a suffix, starts with a non-whitespace character (or is empty), and everything removed is whitespace |
| Text.Trim | script.js:398 | `trim` leaves a text that neither starts nor ends with whitespace, no longer than the input, and empty exactly when the input is all whitespace |
| Text.TrimIsInfix | script.js:285 | what `trim` keeps is one contiguous part of the text: it begins right after the leading whitespace, and only whitespace lies before and after it |
| Text.TrimEnd | script.js:398 | trailing whitespace is removed: the result is a prefix, ends with a non-whitespace character (or is empty), and everything removed is whitespace |
| Text.ToLower | script.js:398 | same length, each character lower-cased |
| Text.Contains | script.js:404 | `includes` holds exactly when the query occurs at some position of the title |
| Text.TrimAppendExtends | script.js:398 | the trimmed text of the query with one more character typed extends the trimmed text of the query |
| Order.CollapseWhitespace | script.js:236 | the replaced name has no whitespace and is no longer than the name |
| Order.CollapseWhitespaceRun | script.js:236 | one whitespace run between two non-whitespace parts becomes exactly one `_` |
| Order.CollapseWhitespaceKeeps | script.js:236 | a name without whitespace is used unchanged |
| Order.CollapseWhitespaceIdempotent | script.js:236 | replacing a second time changes nothing |
| Order.CollapseFromConcat | script.js:236 | the global replacement of a concatenation is the replacement of the first part followed by that of the second, in the state the first part leaves |
| Order.OrderFileName | script.js:236 | the file name starts with `order_` and has no whitespace |
| Order.OrderFileNameDistinct | script.js:236 | the same customer at two different clock readings gets two different file names |
| Order.Complete | script.js:223 | the form is refused exactly when one of its four required fields is missing or the empty string |
| Order.Details | script.js:212-220 | the order record carries the four non-empty form fields, the cart's items and total as they stand, and the order date; its total matches its items whenever the cart's did |
| Page.CardPrice | script.js:287-288 | the fallback price is a natural number: the decimal value of the digits in the price text, 0 when there are none or no price element |
| Page.CardName | script.js:285 | without a title the name is "Item"; otherwise it occurs in the title and neither starts nor ends with whitespace |
| Page.KeepDigits | script.js:287 | `replace(/[^0-9]/g, '')` leaves only decimal digits and is no longer than the text |
| Page.KeepDigitsOfDigits | script.js:287 | a text of digits is kept as it is |
| Page.KeepDigitsOfNonDigits | script.js:287 | a text without digits leaves nothing |
| Page.CardPriceOfAmount | script.js:287-288 | a price shown as a currency sign, the amount and trailing text without digits reads back as the amount |
| Page.CardPriceIgnoresNonDigit | script.js:287-288 | inserting a character that is not a digit (a thousands separator) does not change the price |
| Page.KeepDigitsConcat | script.js:287 | the digits kept from two texts put together are the digits of each in order |
| Page.Normalize | script.js:398 | `(text || '').trim().toLowerCase()` is no longer than the text, has no upper-case ASCII letter, and is empty exactly when the text is all whitespace |
| Page.CardVisible | script.js:398-404 | a query that is empty after trimming shows every card; a card without a title is shown only by such a blank query |
| Page.OwnTitleShown | script.js:398-404 | searching for a card's own title shows it |
| Page.TypingNarrows | script.js:398-404 | for the ASCII lowering of `Text.ToLower`, if a card matches the query with one more character typed, it matches the query without it (the page's full `toLowerCase` breaks this, for instance through the Greek final sigma) |
| Page.SearchIgnoresCase | script.js:398-404 | lower-casing the query does not change which cards match |
| Page.NextSlide | script.js:449-451 | the next index is below the number of slides: one more than the current one, or 0 after the last |
| Page.SlideAfter | script.js:449-455 | the slide shown after any number of advances is a valid slide index |
| Page.NextSlideOfMod | script.js:450 | one advance from slide `x mod n` shows slide `(x + 1) mod n` |
| Page.SlideAfterCycles | script.js:438-455 | starting from slide 0, after `k` advances the carousel shows slide `k mod totalSlides` |

## Left out

- Rendering and wiring are not modelled: `updateCartCount`, `updateCartDisplay`, `openCart`/`closeCart`, the modal, navigation, menu and fresh-picks handlers, the mobile counter wrapper and the hide-on-scroll navbar (script.js:1-17, 101-136, 185-200, 294-390, 419-435). They only show the cart.
- `showNotification` and every `setTimeout`/`setInterval` are not modelled (script.js:138-183, 408-410, 455). They are animation and timing. The carousel's interval is modelled as a count of advances (`Page.SlideAfter`).
- The Google Drive client (`initGoogleAPI`, `signIn`, `uploadToDrive`, script.js:19-74, 463) is foreign network code. Checkout sees it only through `DriveOutcome`. The uploaded text `JSON.stringify(orderDetails, null, 2)` is not modelled; the order record is.
- Local storage is a map field. A `setItem` that throws (quota, storage disabled) is not modelled.
- Storage.DecodeItems: reads only the layout `JSON.stringify` writes for an item list: no whitespace, `name` before `price`, whole-number prices. Inside strings it accepts every JSON escape, including ones `JSON.stringify` never writes (`\/`, `\u0041`, upper-case hex), except `\u` escapes of surrogate code points. Other documents `JSON.parse` would accept (extra spaces, other key order, fractions or exponents, `null`, non-arrays, escaped surrogates) are treated as malformed.
- Storage.Load: fails on a stored item list that is a falsy JSON value (`null`, `false`, `0`, `""`), where the page's `|| []` falls back to an empty cart, because `DecodeItems` reads only lists.
- The `onclick` attribute parsing by regular expression (script.js:270-277) is not modelled. It couples markup to logic through JavaScript regex semantics. Only the DOM fallback handler (`AddCardToCart`) is.
- Numbers are unbounded integers. JavaScript numbers are doubles: precision loss above 2^53, exponent notation from 1e21 in `toString`/`JSON.stringify`, fractional or NaN prices and `-0` are not modelled.
- Text.ToLower: maps only the ASCII letters A-Z. `toLowerCase` also lower-cases other scripts, so for non-ASCII titles and queries the match test differs from the page's in both directions.
- Strings are sequences of Unicode scalar values. JavaScript strings are UTF-16 code units, so lone surrogates and their `\uXXXX` escaping by `JSON.stringify` are not modelled.
- Page.NextSlide: requires at least one slide. With none the page computes `(currentSlide + 1) % 0`, which is NaN, and `showSlide` then throws on `slides[NaN]`.
- Cart.CartState.HandleOrderSubmit: models checkout as one atomic step. The handler is `async`, so `addToCart` and `removeFromCart` can run while it awaits sign-in and the upload (script.js:232, 237). `orderDetails.items` is the same array as `cartState.items` (script.js:217) while `total` is a copy taken at script.js:218. An item added while sign-in is awaited is therefore uploaded in `items` but missing from the order's `total`. The upload text is built before the upload is awaited (script.js:237), so an item added during the upload is not uploaded at all. Either way the clear at script.js:242-243 then discards the added item. The model does not capture that interleaving or that aliasing.
- `e.preventDefault()`, `e.target.reset()`, `closeCart()` and the console logging in `handleOrderSubmit` are not modelled. They touch only the page.
