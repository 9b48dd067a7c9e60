/**
 * What the two pages show: the grid pieces and list rows `buildMainPage`
 * builds, and the title and price texts of the item page (script.js lines
 * 48-138).
 */
module View {
  import opened Wrappers
  import opened Decimal
  import opened Items

  /** Which page is displayed; the other one has `display: none`. */
  datatype Page = MainPage | ItemPage

  /** One puzzle piece: its index, the background offsets written to `--px`
      and `--py` (in percent), the image it shows (`None`: image hidden,
      numbered placeholder shown) and the placeholder's text. */
  datatype Piece = Piece(index: nat, posX: nat, posY: nat, photo: Option<string>, placeholder: string)

  /** One line of the object list: its index, caption (the label text) and price text. */
  datatype Row = Row(index: nat, caption: string, price: string)

  /** The grid column of a piece: one of three, and together with its row it
      gives the index back. */
  function Column(index: nat): (c: nat)
    ensures c < 3 && index == 3 * GridRow(index) + c
  {
    index % 3
  }

  /** The grid row of a piece: the index rounded down to a multiple of three,
      divided by three (the index is never negative). */
  function GridRow(index: nat): (r: nat)
    ensures 3 * r <= index < 3 * r + 3
  {
    index / 3
  }

  /** A column or row scaled to a percentage offset: 50 percent per cell. */
  function Offset(cell: nat): (p: nat)
    ensures p % 50 == 0 && p / 50 == cell
  {
    cell * 50
  }

  /** The photo an item shows: its `imageData` when that is non-empty. */
  function Photo(item: Item): Option<string> {
    if item.imageData != "" then Some(item.imageData) else None
  }

  function PieceFor(item: Item, index: nat): Piece {
    Piece(index, Offset(Column(index)), Offset(GridRow(index)), Photo(item), NatToDecimal(index + 1))
  }

  /** The label of a list row: the item's name, or its positional name when
      the name is empty. Either way the label is never empty. */
  function ListLabel(item: Item, index: nat): (r: string)
    ensures r != ""
    ensures item.name != "" ==> r == item.name
  {
    if item.name != "" then item.name else DefaultName(index)
  }

  /** The price text of a list row: the euro sign, a space and the price, or
      a question mark when no price is set. */
  function ListPrice(item: Item): (r: string)
    ensures |r| > 2 && r[..2] == "€ "
    ensures item.price != "" ==> r[2..] == item.price
    ensures item.price == "" ==> r[2..] == "?"
  {
    if item.price != "" then "€ " + item.price else "€ ?"
  }

  function RowFor(item: Item, index: nat): Row {
    Row(index, ListLabel(item, index), ListPrice(item))
  }

  /** The item page's title: the item's name, or a fixed placeholder title
      when the name is empty. Either way the title is never empty. */
  function DetailTitle(item: Item): (r: string)
    ensures r != ""
    ensures item.name != "" ==> r == item.name
  {
    if item.name != "" then item.name else "ANOTHER ONE NAME"
  }

  /** The item page's price text: the euro sign, a space and the price, or
      three question marks when no price is set. */
  function DetailPrice(item: Item): (r: string)
    ensures |r| > 2 && r[..2] == "€ "
    ensures item.price != "" ==> r[2..] == item.price
    ensures item.price == "" ==> r[2..] == "???"
  {
    if item.price != "" then "€ " + item.price else "€ ???"
  }

  /** The nine indices of the default collection tile a 3 by 3 grid: each
      offset is 0, 50 or 100 percent, and the offsets give the index back. */
  lemma GridPlacement(index: nat)
    requires index < DefaultCount
    ensures Offset(Column(index)) in {0, 50, 100} && Offset(GridRow(index)) in {0, 50, 100}
    ensures index == 3 * (Offset(GridRow(index)) / 50) + Offset(Column(index)) / 50
  {
  }

  /** Two different indices never land on the same grid position. */
  lemma GridPlacementInjective(i: nat, j: nat)
    requires i != j
    ensures (Column(i), GridRow(i)) != (Column(j), GridRow(j))
  {
  }

  /** The corner and centre pieces. */
  lemma GridExamples()
    ensures (Offset(Column(0)), Offset(GridRow(0))) == (0, 0)
    ensures (Offset(Column(4)), Offset(GridRow(4))) == (50, 50)
    ensures (Offset(Column(8)), Offset(GridRow(8))) == (100, 100)
  {
  }

  /** A slot without a name is listed as the default collection lists it. */
  lemma UnnamedListedAsDefault(item: Item, index: nat)
    requires index < DefaultCount && item.name == ""
    ensures ListLabel(item, index) == DefaultItems()[index].name
  {
  }

  /** An unnamed slot is titled "ANOTHER ONE NAME" on the item page but is
      listed under its positional name on the main page, so the two pages
      name it differently. */
  lemma UnnamedTitleVersusList(item: Item, index: nat)
    requires item.name == ""
    ensures DetailTitle(item) == "ANOTHER ONE NAME"
    ensures ListLabel(item, index) == DefaultName(index)
    ensures DetailTitle(item) != ListLabel(item, index)
  {
    assert DefaultName(index)[0] == 'O';
  }

  lemma {:induction false} PrefixCancels(p: string, x: string, y: string)
    requires p + x == p + y
    ensures x == y
  {
    assert x == (p + x)[|p|..] && y == (p + y)[|p|..];
  }

  /** Two prices show the same list text exactly when they are equal or are
      the unset price and the literal price "?". */
  lemma ListPriceCollision(a: Item, b: Item)
    ensures ListPrice(a) == ListPrice(b) <==>
      a.price == b.price || {a.price, b.price} == {"", "?"}
  {
    if ListPrice(a) == ListPrice(b) && a.price != b.price {
      if a.price != "" && b.price != "" {
        PrefixCancels("€ ", a.price, b.price);
      } else if a.price == "" {
        assert "€ " + b.price == "€ " + "?";
        PrefixCancels("€ ", b.price, "?");
      } else {
        assert "€ " + a.price == "€ " + "?";
        PrefixCancels("€ ", a.price, "?");
      }
    }
    if {a.price, b.price} == {"", "?"} {
      assert a.price == "" || a.price == "?";
      assert b.price == "" || b.price == "?";
    }
  }

  /** The same on the item page, where the unset price collides with "???". */
  lemma DetailPriceCollision(a: Item, b: Item)
    ensures DetailPrice(a) == DetailPrice(b) <==>
      a.price == b.price || {a.price, b.price} == {"", "???"}
  {
    if DetailPrice(a) == DetailPrice(b) && a.price != b.price {
      if a.price != "" && b.price != "" {
        PrefixCancels("€ ", a.price, b.price);
      } else if a.price == "" {
        assert "€ " + b.price == "€ " + "???";
        PrefixCancels("€ ", b.price, "???");
      } else {
        assert "€ " + a.price == "€ " + "???";
        PrefixCancels("€ ", a.price, "???");
      }
    }
    if {a.price, b.price} == {"", "???"} {
      assert a.price == "" || a.price == "???";
      assert b.price == "" || b.price == "???";
    }
  }

  /** An unset price reads differently on the two pages. */
  lemma UnsetPriceMarkers(item: Item)
    requires item.price == ""
    ensures ListPrice(item) == "€ ?" && DetailPrice(item) == "€ ???"
    ensures ListPrice(item) != DetailPrice(item)
  {
  }

  /** The `forEach` of `buildMainPage`: one piece and one list row per item,
      in order; each carries the index its click opens, the piece its grid
      offsets and photo, the row its label and price text. */
  method RenderMain(items: seq<Item>) returns (pieces: seq<Piece>, rows: seq<Row>)
    ensures |pieces| == |items| && |rows| == |items|
    ensures forall i :: 0 <= i < |items| ==> pieces[i] == PieceFor(items[i], i)
    ensures forall i :: 0 <= i < |items| ==> rows[i] == RowFor(items[i], i)
  {
    pieces, rows := [], [];
    var index := 0;
    while index < |items|
      invariant 0 <= index <= |items|
      invariant |pieces| == index && |rows| == index
      invariant forall i :: 0 <= i < index ==> pieces[i] == PieceFor(items[i], i)
      invariant forall i :: 0 <= i < index ==> rows[i] == RowFor(items[i], i)
    {
      pieces := pieces + [PieceFor(items[index], index)];
      rows := rows + [RowFor(items[index], index)];
      index := index + 1;
    }
  }
}
