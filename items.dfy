/**
 * The collection of items, its nine-item default and the storage slot it is
 * persisted in (script.js lines 4-31).
 */
module Items {
  import opened Wrappers
  import opened Decimal

  /** One record of `items`. `id` is `None` once the clear-all handler has
      rebuilt the record without it. */
  datatype Item = Item(id: Option<nat>, name: string, price: string, imageData: string)

  /** How many items the default collection holds. */
  const DefaultCount: nat := 9

  /** The positional name of slot `i`: the word "Object", a space, and the
      slot's number counted from one. */
  function DefaultName(i: nat): string {
    "Object " + NatToDecimal(i + 1)
  }

  /** `defaultItems`: nine slots, slot `i` with id `i`, its positional name
      and an empty price and image. */
  function DefaultItems(): (r: seq<Item>)
    ensures |r| == DefaultCount
    ensures forall i :: 0 <= i < |r| ==>
      r[i].id == Some(i) && r[i].name == DefaultName(i) && r[i].price == "" && r[i].imageData == ""
  {
    seq(DefaultCount, i requires 0 <= i < DefaultCount => Item(Some(i), DefaultName(i), "", ""))
  }

  /** The record the clear-all handler puts in every slot. */
  const BlankItem: Item := Item(None, "", "", "")

  /** What `localStorage.getItem(STORAGE_KEY)` can hand to `loadItems`, when
      it is not `null`: the empty string, text `JSON.parse` rejects, or the
      serialisation of a list of items. */
  datatype Stored = Blank | Malformed | Serialized(items: seq<Item>)

  /** `saveItems`: the whole collection is written as one value, which
      loads back as that collection. */
  function Save(items: seq<Item>): (r: Stored)
    ensures Load(Some(r)) == items
  {
    Serialized(items)
  }

  /** `loadItems`: the stored list when there is one, the default collection
      when the slot is empty, blank or unparseable. The length of the stored
      list is not checked. */
  function Load(slot: Option<Stored>): (r: seq<Item>)
    ensures r == DefaultItems() || (slot.Some? && slot.value.Serialized? && r == slot.value.items)
  {
    match slot
    case Some(Serialized(xs)) => xs
    case _ => DefaultItems()
  }

  /** The default collection: nine slots, slot `i` with id `i`, the name
      "Object i+1", no price and no image. */
  lemma DefaultItemsShape()
    ensures |DefaultItems()| == 9
    ensures forall i :: 0 <= i < 9 ==>
      DefaultItems()[i] == Item(Some(i), "Object " + [DigitChar(i + 1)], "", "")
  {
    forall i | 0 <= i < 9
      ensures DefaultItems()[i] == Item(Some(i), "Object " + [DigitChar(i + 1)], "", "")
    {
      assert NatToDecimal(i + 1) == [DigitChar(i + 1)];
    }
  }

  /** No two slots of the default collection share a name. */
  lemma DefaultNamesDistinct(i: nat, j: nat)
    requires i < DefaultCount && j < DefaultCount && i != j
    ensures DefaultItems()[i].name != DefaultItems()[j].name
  {
    if DefaultName(i) == DefaultName(j) {
      assert NatToDecimal(i + 1) == DefaultName(i)[7..] == DefaultName(j)[7..] == NatToDecimal(j + 1);
      NatToDecimalInjective(i + 1, j + 1);
    }
  }

  /** A missing, empty or unparseable value loads as the default collection. */
  lemma LoadFallsBack(slot: Option<Stored>)
    requires slot.None? || slot == Some(Blank) || slot == Some(Malformed)
    ensures Load(slot) == DefaultItems()
  {
  }

  /** A stored list of any length is taken as it is: an empty list loads as a
      collection with no slot at all. */
  lemma LoadKeepsAnyLength(xs: seq<Item>)
    ensures |Load(Some(Serialized(xs)))| == |xs|
  {
  }
}
