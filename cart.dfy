/**
 * The cart of one billing session: a list of cart lines that "Add to Cart"
 * appends to and "Clear Cart" empties.
 */
module Cart {
  import opened Pricing
  import opened Catalog

  class CartSession {
    var entries: seq<CartEntry>

    ghost predicate Valid()
      reads this
    {
      AllValid(entries)
    }

    /** A new session starts with an empty cart. */
    constructor ()
      ensures Valid() && entries == []
    {
      entries := [];
    }

    /** "Add to Cart": look the selected product up in the current listing and
        append one line carrying the price it has in the catalog right now. */
    method AddToCart(catalog: ProductTable, selected: string, qty: int, discount: int, gst: int)
      requires Valid() && catalog.Valid()
      requires HasName(catalog.rows, selected)
      requires 1 <= qty <= 100 && 0 <= discount <= 100 && 0 <= gst <= 50
      modifies this
      ensures Valid()
      ensures |entries| == |old(entries)| + 1
      ensures entries[..|old(entries)|] == old(entries)
      ensures entries[|old(entries)|] ==
              CartEntry(selected, PriceOf(catalog.rows, selected).value, qty, discount, gst)
      ensures GrandTotal(entries) == old(GrandTotal(entries)) + LineTotal(entries[|entries| - 1])
    {
      var listing := catalog.GetProducts();
      var price := PriceOf(listing, selected).value;
      var e := CartEntry(selected, price, qty, discount, gst);
      assert ValidEntry(e);
      GrandTotalAppend(entries, e);
      entries := entries + [e];
    }

    /** "Clear Cart". */
    method Clear()
      modifies this
      ensures Valid() && entries == []
      ensures GrandTotal(entries) == 0.0
    {
      entries := [];
    }
  }
}
