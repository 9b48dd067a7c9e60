# Item collection controller, modelled in Dafny

The page script of a small collectibles web page (`script.js`) keeps a
collection of nine "objects", each with a name, a price and a photo. A main
page shows them as a 3 by 3 puzzle grid and as a list. An item page shows one
object and lets the user rename it, price it and pick a photo. The collection
is saved to the browser's local storage. An `item` query value can open one
object's page directly.

This project models the controller behind those pages:

- `wrappers.dfy`: `Option`, used for prompt answers, query values and parse results.
- `text.dfy` (module `Text`): `String.prototype.trim` over ASCII whitespace.
  It scans indices from both ends, and there are lemmas on what trimming removes.
- `decimal.dfy` (module `Decimal`): how JavaScript prints a non-negative
  integer (`'Object ' + (i + 1)`, `index + 1`), and `parseInt(s, 10)`.
  Printing and parsing are proved to be inverses.
- `items.dfy` (module `Items`): the `Item` record, the nine-item default
  collection and the storage slot. `loadItems` and `saveItems` become `Load`
  and `Save`.
- `view.dfy` (module `View`): the main page's grid arithmetic and label and
  price texts, and the item page's title and price texts. `RenderMain` is the
  `forEach` loop of `buildMainPage`.
- `controller.dfy` (module `Controller`): class `App` holds the global state.
  This is `items` (a sequence the handlers reassign), `currentIndex`, the
  displayed page, the storage slot, a ghost count of saves, and the rendered
  texts. There is one method per handler. Two pure functions give what a name
  or price prompt commits, and one gives the slot the start-up routing opens.

## Code versus design

The model follows `script.js` wherever it differs from the intended
behaviour:

- The clear-all handler (script.js:242-257) never calls `saveItems`.
  `App.ClearAll` leaves the storage slot and the save count unchanged, so a
  reload brings the old collection back.
- The clear-all handler rebuilds every record without its `id`. `App.ClearAll`
  leaves `id = None` in every slot.
- `loadItems` (script.js:21) takes any parsed list. Its length is not checked,
  so the "always nine items" rule holds only for what the page itself saved.
  See `Items.LoadKeepsAnyLength`. Every handler keeps the length it was given.
- The photo handler (script.js:166-190) only changes the preview. It never
  writes `imageData` and never saves, so a picked photo is lost on reload
  (`App.PickPhoto`).
- An unset price reads `€ ?` in the list and `€ ???` on the item page. The
  literal prices `?` and `???` render the same as an unset price
  (`View.ListPriceCollision`, `View.DetailPriceCollision`).
- In the price handler, the blank-answer branch gives the same result as
  plain trimming (`Controller.PriceCommit`).

## Model

| member | source | states |
|---|---|---|
| Text.Trim | script.js:150-151 | `trim` leaves no whitespace at either end and never lengthens its input |
| Text.TrimBlankIff | script.js:150 | the trimmed answer is empty exactly when the answer is whitespace only |
| Text.TrimRemovesPadding | script.js:201 | trimming whitespace-padded text with no whitespace at its ends returns exactly that text |
| Text.TrimIdempotent | script.js:201 | trimming twice is trimming once |
| Text.TrimStart | script.js:222 | the text `parseInt` reads after skipping blanks is no longer than the input and does not start with whitespace |
| Text.TrimStartDrops | script.js:222 | what `parseInt` skips is a run of whitespace in front of the text it reads |
| Text.TrimStartPadding | script.js:222 | whitespace in front of text that does not start with whitespace is exactly what is skipped |
| Text.TrimStartKeeps | script.js:222 | text that does not start with whitespace is read as it is |
| Text.TrimStartAbsorbs | script.js:222 | extra whitespace in front does not change what is read |
| Decimal.NatToDecimal | script.js:9 | a printed non-negative integer is a non-empty run of digits with no leading zero, one digit exactly below 10 |
| Decimal.DecimalValueOfNatToDecimal | script.js:9 | reading back a printed integer gives the integer |
| Decimal.NatToDecimalOfDecimalValue | script.js:222 | printing the value of a canonical digit string gives the string back |
| Decimal.NatToDecimalInjective | script.js:9 | different integers print differently |
| Decimal.ParseInt | script.js:222 | `parseInt(s, 10)` is a number exactly when a digit follows the leading whitespace and optional sign, and it is negative only after a minus sign |
| Decimal.ParseIntSkipsBlanks | script.js:222 | whitespace in front of the `item` value does not change what `parseInt` returns |
| Decimal.ParseIntOfDecimal | script.js:222 | `parseInt` of printed digits, with any non-digit text after them, is the printed integer |
| Decimal.ParseIntOfNegative | script.js:222 | `parseInt` of a minus sign and printed digits is the negated integer |
| Decimal.ParseIntNaN | script.js:222-223 | text whose first non-blank character is neither a digit nor a sign parses to NaN |
| Items.DefaultItems | script.js:7-12 | nine slots; slot i has id i, the positional name, and an empty price and image |
| Items.DefaultItemsShape | script.js:7-12 | the default collection has 9 items; item i has id i, name "Object " followed by the digit i+1, and an empty price and image |
| Items.DefaultNamesDistinct | script.js:7-12 | no two default items share a name |
| Items.Save | script.js:29-31 | the stored value loads back as exactly the saved collection |
| Items.Load | script.js:18-26 | the loaded collection is either the default collection or the stored list |
| Items.LoadFallsBack | script.js:18-26 | a missing, empty or unparseable stored value loads as the default collection |
| Items.LoadKeepsAnyLength | script.js:21 | a stored list loads with its own length, which is not checked against 9 |
| View.Column | script.js:59 | the column is below 3, and three times the row plus the column gives the index back |
| View.GridRow | script.js:60 | the row is the index divided by three, rounded down |
| View.Offset | script.js:63-64 | the offset is a multiple of 50 and gives the cell back when divided by 50 |
| View.GridPlacement | script.js:59-64 | for indices 0..8 both offsets are 0, 50 or 100 percent, and the offsets give the index back |
| View.GridPlacementInjective | script.js:59-60 | two different indices never get the same column and row |
| View.GridExamples | script.js:59-64 | index 0 is at (0,0), index 4 at (50,50), index 8 at (100,100) |
| View.ListLabel | script.js:101 | a list label is never empty, and it is the item's own name when that is set |
| View.ListPrice | script.js:108 | the list price text is "€ " followed by the price, or by "?" when no price is set |
| View.DetailTitle | script.js:123 | the item-page title is never empty, and it is the item's own name when that is set |
| View.DetailPrice | script.js:134 | the item-page price text is "€ " followed by the price, or by "???" when no price is set |
| View.UnnamedTitleVersusList | script.js:101-123 | an unnamed slot is titled "ANOTHER ONE NAME" on the item page (line 123) but listed under its positional name (line 101), so the two differ |
| View.UnnamedListedAsDefault | script.js:101 | an unnamed slot is listed under the name the default collection gives it |
| View.ListPriceCollision | script.js:108 | two prices give the same list text exactly when they are equal, or are the unset price and "?" |
| View.DetailPriceCollision | script.js:134 | two prices give the same item-page text exactly when they are equal, or are the unset price and "???" |
| View.UnsetPriceMarkers | script.js:134 | an unset price shows "€ ?" in the list (line 108) and "€ ???" on the item page, and the two differ |
| View.RenderMain | script.js:52-115 | one piece and one row per item, in order; each has its own index (its click target), grid offsets, photo or numbered placeholder, label and price text |
| Controller.NameCommit | script.js:149-151 | a cancelled or whitespace-only answer commits nothing; any other answer commits its trimmed text, which is non-empty with no whitespace at its ends |
| Controller.PriceCommit | script.js:200-206 | only a cancelled prompt commits nothing; every answer commits its trimmed text, and a blank answer commits the empty price |
| Controller.NameCommitStable | script.js:151 | committing a name a commit produced commits it unchanged |
| Controller.NameCommitStripsPadding | script.js:151 | a whitespace-padded answer commits its content as both name and price |
| Controller.PriceCommitStable | script.js:201-205 | committing a price a commit produced commits it unchanged |
| Controller.NameCommitExamples | script.js:149-151 | "  Alice  " commits "Alice", and a blank name is not committed |
| Controller.PriceCommitExamples | script.js:199-205 | "  12.5  " commits "12.5", and a blank price clears the price |
| Controller.RouteTarget | script.js:219-223 | the routed slot is a valid index and is what the `item` value parses to; every in-range parse is routed |
| Controller.RouteToIndex | script.js:222-223 | a deep link to printed index i opens slot i exactly when i is below the collection's length |
| Controller.RouteRejects | script.js:221-223 | a negative index, a non-numeric value or a missing `item` value opens no slot |
| Controller.RouteDeepLinkExamples | script.js:217-227 | `?item=2` and `?item=2abc` open slot 2; `?item=9` opens none |
| Controller.RouteLeadingBlank | script.js:219-223 | `?item= 2` opens slot 2: the blank in front is skipped |
| Controller.RouteFallbackExamples | script.js:217-235 | `?item=-1` and `?item=abc` open no slot |
| Controller.RouteMinusZero | script.js:222-223 | `?item=-0` opens the first slot, like `?item=0` |
| Controller.App.constructor | script.js:14-15 | page load: items are loaded, `currentIndex` is 0, and the initial routing runs (line 239); on the main page the item-page texts are still empty |
| Controller.App.BuildMainPage | script.js:48-116 | the pieces and rows are rebuilt from the current items; nothing else changes |
| Controller.App.OpenItemPage | script.js:119-138 | sets `currentIndex`, shows the slot's title, photo and price text, and switches to the item page; the items and the storage are unchanged |
| Controller.App.Tap | script.js:91-113 | a click on piece or row k of the shown main page opens slot k |
| Controller.App.BackToMain | script.js:140-144 | the Confirm button (line 213): rebuilds the main page and shows it; the items and the storage are unchanged |
| Controller.App.EditName | script.js:147-155 | a cancelled or blank answer changes nothing and saves nothing; otherwise only the current slot's name changes, to the trimmed answer, the title shows it and one save happens |
| Controller.App.Persist | script.js:29-31 | the storage slot holds the whole current collection and the save count goes up by one |
| Controller.App.PickPhoto | script.js:166-190 | with a file chosen, only the preview changes; the items, the storage and the save count never change |
| Controller.App.EditPrice | script.js:196-209 | a cancelled prompt changes nothing and saves nothing; otherwise only the current slot's price changes, to the trimmed answer, the price text is redrawn and one save happens |
| Controller.App.HandleInitialView | script.js:217-236 | a valid `item` index opens that slot's page without rendering the main page; anything else renders and shows the main page |
| Controller.App.ClearAll | script.js:242-257 | keeps the length, puts an item with no id and empty name, price and image in every slot, renders and shows the main page, and does not save |

## Left out

- DOM construction, `innerHTML` clearing, CSS custom properties and `style` settings (script.js:34-45, 49-115). A `Page` value stands for which page is displayed. A `Piece` or `Row` value stands for each rendered element.
- `prompt` and `alert`. A prompt's answer is an `Option<string>` parameter (`None` for cancel). The text a prompt is seeded with (script.js:149, 198-199) is not modelled.
- `localStorage` and `JSON.parse`/`JSON.stringify` (script.js:20-30) are browser calls. The storage slot holds an abstract `Stored` value: blank text, unparseable text, or a serialized list of items. Parsed JSON that is not a list of item records is not modelled. Neither is a `getItem` call that throws (the code's fallback for that is the same default collection).
- `URLSearchParams` (script.js:218-219). The `item` value arrives as an `Option<string>`, already URL-decoded.
- Text.TrimStart: `parseInt` skips Unicode white space, but the model skips ASCII whitespace only.
- Text.Trim: `String.prototype.trim` also strips no-break space, the byte order mark and the Unicode space and line-separator characters. The model strips only ASCII whitespace.
- Decimal.ParseInt: numbers are exact integers. JavaScript rounds integers above 2^53, but such a value is far out of range either way, so routing is unaffected.
- The photo flow's browser resources and asynchrony (script.js:158-190): `URL.createObjectURL` (the object URL arrives as a parameter), `revokeObjectURL` in `onload`, and the `onerror` alert. The photo area's click forwarding to the file input is also left out: it opens the file picker and changes no state.
- The item page's title and price texts before any slot is opened come from the page's HTML, which is not part of this model. They start empty here.
- `items` initially aliases the `defaultItems` array (script.js:14, 25). Nothing reads `defaultItems` again, so the aliasing has no visible effect.
