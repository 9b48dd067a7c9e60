/**
 * The page controller of script.js: the global `items` and `currentIndex`,
 * which page is displayed, the storage slot, and the event handlers that
 * change them.
 */
module Controller {
  import opened Wrappers
  import opened Text
  import opened Decimal
  import opened Items
  import opened View

  /** What the name prompt commits: `None` when the prompt was cancelled or
      answered with whitespace only, otherwise the trimmed answer, which is
      never empty and has no whitespace at either end. */
  function NameCommit(input: Option<string>): (r: Option<string>)
    ensures r.None? <==> input.None? || AllSpace(input.value)
    ensures r.Some? ==> r.value == Trim(input.value) && r.value != "" && IsTrimmed(r.value)
  {
    match input
    case None => None
    case Some(text) =>
      TrimBlankIff(text);
      if Trim(text) != "" then Some(Trim(text)) else None
  }

  /** What the price prompt commits: `None` only when the prompt was
      cancelled. A whitespace-only answer commits the empty price, and the
      branch that does so agrees with plain trimming, so every answer commits
      its trimmed text, with no check that it is a number. */
  function PriceCommit(input: Option<string>): (r: Option<string>)
    ensures r.None? <==> input.None?
    ensures r.Some? && AllSpace(input.value) ==> r.value == ""
    ensures r.Some? ==> r.value == Trim(input.value) && IsTrimmed(r.value)
  {
    match input
    case None => None
    case Some(text) =>
      TrimBlankIff(text);
      var trimmed := Trim(text);
      if trimmed == "" then Some("") else Some(trimmed)
  }

  /** Committing the name a previous commit produced commits it unchanged. */
  lemma NameCommitStable(input: Option<string>)
    requires NameCommit(input).Some?
    ensures NameCommit(Some(NameCommit(input).value)) == NameCommit(input)
  {
    TrimIdempotent(input.value);
  }

  /** A padded answer commits without its padding. */
  lemma NameCommitStripsPadding(p: string, x: string, q: string)
    requires AllSpace(p) && AllSpace(q) && IsTrimmed(x) && x != ""
    ensures NameCommit(Some(p + x + q)) == Some(x)
    ensures PriceCommit(Some(p + x + q)) == Some(x)
  {
    TrimRemovesPadding(p, x, q);
  }

  /** Committing the price a previous commit produced commits it unchanged. */
  lemma PriceCommitStable(input: Option<string>)
    requires input.Some?
    ensures PriceCommit(Some(PriceCommit(input).value)) == PriceCommit(input)
  {
    TrimIdempotent(input.value);
  }

  /** "  Alice  " commits the name "Alice"; a blank answer commits no name. */
  lemma NameCommitExamples()
    ensures NameCommit(Some("  Alice  ")) == Some("Alice")
    ensures NameCommit(Some("   ")) == None
  {
    assert "  Alice  " == "  " + "Alice" + "  ";
    NameCommitStripsPadding("  ", "Alice", "  ");
    assert AllSpace("   ");
  }

  /** "  12.5  " commits the price "12.5"; a blank answer clears the price. */
  lemma PriceCommitExamples()
    ensures PriceCommit(Some("  12.5  ")) == Some("12.5")
    ensures PriceCommit(Some("   ")) == Some("")
  {
    assert "  12.5  " == "  " + "12.5" + "  ";
    NameCommitStripsPadding("  ", "12.5", "  ");
    assert AllSpace("   ");
  }

  /** The slot `handleInitialView` opens for the `item` query value, if any:
      the parsed integer when it is a valid index of the collection. */
  function RouteTarget(itemParam: Option<string>, count: nat): (r: Option<nat>)
    ensures r.Some? ==> r.value < count
    ensures r.Some? ==> itemParam.Some? && ParseInt(itemParam.value) == Some(r.value as int)
    ensures (itemParam.Some? && ParseInt(itemParam.value).Some? &&
             0 <= ParseInt(itemParam.value).value < count) ==> r.Some?
  {
    if itemParam.None? then None
    else
      match ParseInt(itemParam.value)
      case Some(idx) => if 0 <= idx < count then Some(idx as nat) else None
      case None => None
  }

  /** A deep link to an index of the collection opens that slot; one to an
      index past its end does not. */
  lemma RouteToIndex(i: nat, count: nat)
    ensures RouteTarget(Some(NatToDecimal(i)), count) == if i < count then Some(i) else None
  {
    assert NatToDecimal(i) + [] == NatToDecimal(i);
    ParseIntOfDecimal(i, []);
  }

  /** A negative index, a value that is not a number, or no `item` parameter
      at all leaves the main page in charge. */
  lemma RouteRejects(n: nat, text: string, count: nat)
    requires var t := TrimStart(text); t == [] || (!IsDigit(t[0]) && t[0] != '-' && t[0] != '+')
    ensures n > 0 ==> RouteTarget(Some("-" + NatToDecimal(n)), count) == None
    ensures RouteTarget(Some(text), count) == None
    ensures RouteTarget(None, count) == None
  {
    ParseIntOfNegative(n);
    ParseIntNaN(text);
  }

  /** `?item=2` opens slot 2 of the default collection, and so does
      `?item=2abc` (`parseInt` stops at the first non-digit); `?item=9` does
      not open any. */
  lemma RouteDeepLinkExamples()
    ensures RouteTarget(Some("2"), DefaultCount) == Some(2)
    ensures RouteTarget(Some("2abc"), DefaultCount) == Some(2)
    ensures RouteTarget(Some("9"), DefaultCount) == None
  {
    assert NatToDecimal(2) == "2";
    RouteToIndex(2, DefaultCount);
    assert "2abc" == NatToDecimal(2) + "abc";
    ParseIntOfDecimal(2, "abc");
    assert NatToDecimal(9) == "9";
    RouteToIndex(9, DefaultCount);
  }

  /** `?item= 2` opens slot 2 too: `parseInt` skips the blank in front. */
  lemma RouteLeadingBlank()
    ensures RouteTarget(Some(" 2"), DefaultCount) == Some(2)
  {
    assert " 2" == " " + NatToDecimal(2);
    ParseIntSkipsBlanks(" ", NatToDecimal(2));
    RouteToIndex(2, DefaultCount);
  }

  /** `?item=-0` parses to negative zero, which passes `idx >= 0`, so it
      opens the first slot like `?item=0`. */
  lemma RouteMinusZero(count: nat)
    ensures RouteTarget(Some("-0"), count) == if count > 0 then Some(0) else None
  {
    assert NatToDecimal(0) == "0";
    ParseIntOfNegative(0);
  }

  /** `?item=-1` and `?item=abc` do not open any slot. */
  lemma RouteFallbackExamples()
    ensures RouteTarget(Some("-1"), DefaultCount) == None
    ensures RouteTarget(Some("abc"), DefaultCount) == None
  {
    assert "-" + NatToDecimal(1) == "-1";
    assert TrimStart("abc") == "abc";
    RouteRejects(1, "abc", DefaultCount);
  }

  /** The page: its collection, the slot the item page shows, which page is
      displayed, the storage slot (`None` while nothing is stored) and the
      rendered texts. `saveCount` counts the calls of `saveItems`. */
  class App {
    var items: seq<Item>
    var currentIndex: nat
    var page: Page
    var storage: Option<Stored>
    ghost var saveCount: nat

    // the main page as `buildMainPage` last rendered it
    var pieces: seq<Piece>
    var rows: seq<Row>

    // the item page: title text, price text and the picture shown (`None`:
    // the placeholder is shown instead)
    var title: string
    var priceText: string
    var preview: Option<string>

    /** The item page only shows a slot that exists, and every rendered piece
        and row opens its own slot. */
    ghost predicate Valid()
      reads this
    {
      && (page == ItemPage ==> currentIndex < |items|)
      && |pieces| == |rows| <= |items|
      && (forall k :: 0 <= k < |pieces| ==> pieces[k].index == k)
      && (forall k :: 0 <= k < |rows| ==> rows[k].index == k)
    }

    /** Page load: `items = loadItems()`, `currentIndex = 0`, then
        `handleInitialView()` with the `item` query value. The item-page
        texts start empty and no piece is rendered yet. */
    constructor (stored: Option<Stored>, itemParam: Option<string>)
      ensures Valid()
      ensures items == Load(stored) && storage == stored && saveCount == 0
      ensures match RouteTarget(itemParam, |items|)
        case Some(i) =>
          && page == ItemPage && currentIndex == i && pieces == [] && rows == []
          && title == DetailTitle(items[i]) && priceText == DetailPrice(items[i])
          && preview == Photo(items[i])
        case None =>
          && page == MainPage && currentIndex == 0
          && title == "" && priceText == "" && preview == None
          && |pieces| == |items|
          && (forall k :: 0 <= k < |items| ==> pieces[k] == PieceFor(items[k], k) && rows[k] == RowFor(items[k], k))
    {
      items := Load(stored);
      currentIndex := 0;
      page := MainPage;
      storage := stored;
      saveCount := 0;
      pieces, rows := [], [];
      title, priceText, preview := "", "", None;
      new;
      HandleInitialView(itemParam);
    }

    /** `buildMainPage`: the pieces and rows are rebuilt from the current
        items; nothing else changes. */
    method BuildMainPage()
      requires Valid()
      modifies this
      ensures Valid()
      ensures |pieces| == |items| && |rows| == |items|
      ensures forall k :: 0 <= k < |items| ==> pieces[k] == PieceFor(items[k], k) && rows[k] == RowFor(items[k], k)
      ensures items == old(items) && currentIndex == old(currentIndex) && page == old(page)
      ensures storage == old(storage) && saveCount == old(saveCount)
      ensures title == old(title) && priceText == old(priceText) && preview == old(preview)
    {
      pieces, rows := RenderMain(items);
    }

    /** `openItemPage(index)`: the item page shows slot `index`. */
    method OpenItemPage(index: nat)
      requires Valid() && index < |items|
      modifies this
      ensures Valid()
      ensures currentIndex == index && page == ItemPage
      ensures title == DetailTitle(items[index]) && priceText == DetailPrice(items[index])
      ensures preview == Photo(items[index])
      ensures items == old(items) && storage == old(storage) && saveCount == old(saveCount)
      ensures pieces == old(pieces) && rows == old(rows)
    {
      currentIndex := index;
      var item := items[index];
      title := DetailTitle(item);
      preview := Photo(item);
      priceText := DetailPrice(item);
      page := ItemPage;
    }

    /** A click on piece or row `k` of the main page opens slot `k`. The
        pieces and rows can be clicked only while the main page is shown. */
    method Tap(k: nat)
      requires Valid() && page == MainPage && k < |pieces|
      modifies this
      ensures Valid()
      ensures currentIndex == k && page == ItemPage
      ensures title == DetailTitle(items[k]) && priceText == DetailPrice(items[k])
      ensures preview == Photo(items[k])
      ensures items == old(items) && storage == old(storage) && saveCount == old(saveCount)
      ensures pieces == old(pieces) && rows == old(rows)
    {
      OpenItemPage(pieces[k].index);
    }

    /** `backToMain` (the Confirm button): the main page is rebuilt and shown;
        the items and the storage are untouched. */
    method BackToMain()
      requires Valid()
      modifies this
      ensures Valid()
      ensures page == MainPage
      ensures |pieces| == |items| && |rows| == |items|
      ensures forall k :: 0 <= k < |items| ==> pieces[k] == PieceFor(items[k], k) && rows[k] == RowFor(items[k], k)
      ensures items == old(items) && currentIndex == old(currentIndex)
      ensures storage == old(storage) && saveCount == old(saveCount)
      ensures title == old(title) && priceText == old(priceText) && preview == old(preview)
    {
      BuildMainPage();
      page := MainPage;
    }

    /** The title's click handler with the prompt's answer (`None`: cancelled),
        which runs only while the item page, where the title lives, is shown.
        A cancelled or blank answer changes nothing and saves nothing;
        otherwise the current slot's name becomes the trimmed answer, the
        title shows it and the collection is saved. No other slot and no
        other field changes. */
    method EditName(input: Option<string>)
      requires Valid() && page == ItemPage
      modifies this
      ensures Valid()
      ensures |items| == |old(items)| && currentIndex == old(currentIndex) && page == old(page)
      ensures forall k :: 0 <= k < |items| && k != currentIndex ==> items[k] == old(items)[k]
      ensures NameCommit(input).None? ==>
        items == old(items) && title == old(title)
        && storage == old(storage) && saveCount == old(saveCount)
      ensures NameCommit(input).Some? ==>
        && items[currentIndex] == old(items)[currentIndex].(name := Trim(input.value))
        && title == Trim(input.value)
        && storage == Some(Save(items)) && saveCount == old(saveCount) + 1
      ensures pieces == old(pieces) && rows == old(rows)
      ensures priceText == old(priceText) && preview == old(preview)
    {
      var committed := NameCommit(input);
      if committed.Some? {
        var item := items[currentIndex].(name := committed.value);
        items := items[currentIndex := item];
        title := item.name;
        Persist();
      }
    }

    /** `saveItems`: the storage slot holds the whole current collection. */
    method Persist()
      modifies this`storage, this`saveCount
      ensures storage == Some(Save(items)) && saveCount == old(saveCount) + 1
    {
      storage := Some(Save(items));
      saveCount := saveCount + 1;
    }

    /** The file input's change handler (the input lives on the item page),
        with the object URL made for the chosen file (`None`: no file
        chosen). The preview shows that URL; the items and the storage are
        never touched, so the picture is not kept. */
    method PickPhoto(objectUrl: Option<string>)
      requires Valid() && page == ItemPage
      modifies this
      ensures Valid()
      ensures preview == if objectUrl.Some? then objectUrl else old(preview)
      ensures items == old(items) && storage == old(storage) && saveCount == old(saveCount)
      ensures currentIndex == old(currentIndex) && page == old(page)
      ensures pieces == old(pieces) && rows == old(rows)
      ensures title == old(title) && priceText == old(priceText)
    {
      if objectUrl.None? {
        return;
      }
      preview := objectUrl;
    }

    /** The price display's click handler on the item page, with the prompt's
        answer (`None`: cancelled). A cancelled prompt changes nothing and
        saves nothing; otherwise the current slot's price becomes the trimmed
        answer (the empty price for a blank answer), the collection is saved
        and the price text is redrawn. No other slot and no other field
        changes. */
    method EditPrice(input: Option<string>)
      requires Valid() && page == ItemPage
      modifies this
      ensures Valid()
      ensures |items| == |old(items)| && currentIndex == old(currentIndex) && page == old(page)
      ensures forall k :: 0 <= k < |items| && k != currentIndex ==> items[k] == old(items)[k]
      ensures input.None? ==>
        items == old(items) && priceText == old(priceText)
        && storage == old(storage) && saveCount == old(saveCount)
      ensures input.Some? ==>
        && items[currentIndex] == old(items)[currentIndex].(price := Trim(input.value))
        && priceText == DetailPrice(items[currentIndex])
        && storage == Some(Save(items)) && saveCount == old(saveCount) + 1
      ensures pieces == old(pieces) && rows == old(rows)
      ensures title == old(title) && preview == old(preview)
    {
      var committed := PriceCommit(input);
      if committed.Some? {
        var item := items[currentIndex].(price := committed.value);
        items := items[currentIndex := item];
        Persist();
        priceText := DetailPrice(item);
      }
    }

    /** `handleInitialView`: a valid `item` index opens that slot's page
        without rendering the main page; anything else renders and shows the
        main page. */
    method HandleInitialView(itemParam: Option<string>)
      requires Valid()
      modifies this
      ensures Valid()
      ensures match RouteTarget(itemParam, |items|)
        case Some(i) =>
          && page == ItemPage && currentIndex == i
          && pieces == old(pieces) && rows == old(rows)
          && title == DetailTitle(items[i]) && priceText == DetailPrice(items[i])
          && preview == Photo(items[i])
        case None =>
          && page == MainPage && currentIndex == old(currentIndex)
          && |pieces| == |items|
          && (forall k :: 0 <= k < |items| ==> pieces[k] == PieceFor(items[k], k) && rows[k] == RowFor(items[k], k))
          && title == old(title) && priceText == old(priceText) && preview == old(preview)
      ensures items == old(items) && storage == old(storage) && saveCount == old(saveCount)
    {
      var target := RouteTarget(itemParam, |items|);
      if target.Some? {
        OpenItemPage(target.value);
        return;
      }
      BuildMainPage();
      page := MainPage;
    }

    /** The clear-all button: every slot becomes a record with empty name,
        price and image and no id, the main page is rebuilt and shown. The
        collection is not saved, so the storage slot keeps what it held. */
    method ClearAll()
      requires Valid()
      modifies this
      ensures Valid()
      ensures |items| == |old(items)|
      ensures forall k :: 0 <= k < |items| ==> items[k] == BlankItem
      ensures page == MainPage
      ensures |pieces| == |items| && |rows| == |items|
      ensures forall k :: 0 <= k < |items| ==> pieces[k] == PieceFor(BlankItem, k) && rows[k] == RowFor(BlankItem, k)
      ensures storage == old(storage) && saveCount == old(saveCount)
      ensures currentIndex == old(currentIndex)
      ensures title == old(title) && priceText == old(priceText) && preview == old(preview)
    {
      items := seq(|items|, _ => BlankItem);
      BuildMainPage();
      page := MainPage;
    }
  }
}
