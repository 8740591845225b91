/**
 * The pricing engine: the total of one cart line (the per-row lambda that
 * fills the cart's "Total" column) and the grand total of a cart (the sum of
 * that column). Amounts are exact reals; float rounding and the two-decimal
 * display format are not modelled.
 */
module Pricing {

  /** One cart line: the product's name, its unit price copied from the catalog
      when the line was added, the quantity and the two percentages. */
  datatype CartEntry = CartEntry(product: string, price: real, qty: int, discount: int, gst: int)

  /** The ranges the billing form's number inputs allow, and a non-negative price
      (the catalog form accepts no negative price). */
  predicate ValidEntry(e: CartEntry)
  {
    && e.price >= 0.0
    && 1 <= e.qty <= 100
    && 0 <= e.discount <= 100
    && 0 <= e.gst <= 50
  }

  predicate AllValid(entries: seq<CartEntry>)
  {
    forall e | e in entries :: ValidEntry(e)
  }

  /** Unit price times quantity, reduced by the discount percentage and then
      raised by the GST percentage. */
  function LineTotal(e: CartEntry): (r: real)
    requires ValidEntry(e)
    ensures 0.0 <= r <= e.price * e.qty as real * 1.5
    ensures e.discount == 100 ==> r == 0.0
  {
    var gross := e.price * e.qty as real;
    var keep := 1.0 - e.discount as real / 100.0;
    var tax := 1.0 + e.gst as real / 100.0;
    assert 0.0 <= keep <= 1.0 && 1.0 <= tax <= 1.5;
    assert gross >= 0.0;
    assert 0.0 <= gross * keep <= gross by {
      assert gross * (1.0 - keep) >= 0.0;
    }
    assert gross * keep * tax <= gross * tax by {
      assert (gross - gross * keep) * tax >= 0.0;
    }
    assert gross * tax <= gross * 1.5 by {
      assert gross * (1.5 - tax) >= 0.0;
    }
    gross * keep * tax
  }

  /** The same amount computed the way a bill is read out: the discounted net
      amount, plus GST charged on that net amount. */
  function NetAmount(e: CartEntry): real
  {
    e.price * e.qty as real * (100 - e.discount) as real / 100.0
  }

  function GstAmount(e: CartEntry): real
  {
    NetAmount(e) * e.gst as real / 100.0
  }

  lemma LineTotalIsNetPlusGst(e: CartEntry)
    requires ValidEntry(e)
    ensures LineTotal(e) == NetAmount(e) + GstAmount(e)
  {
    var gross := e.price * e.qty as real;
    var keep := 1.0 - e.discount as real / 100.0;
    var tax := 1.0 + e.gst as real / 100.0;
    assert (100 - e.discount) as real / 100.0 == keep;
    assert NetAmount(e) == gross * keep;
    assert GstAmount(e) == gross * keep * (e.gst as real / 100.0);
    assert gross * keep * tax == gross * keep + gross * keep * (e.gst as real / 100.0);
  }

  /** Raising the quantity, all else fixed, never lowers the line total. */
  lemma LineTotalMonotoneInQty(e: CartEntry, q: int)
    requires ValidEntry(e) && e.qty <= q <= 100
    ensures ValidEntry(e.(qty := q))
    ensures LineTotal(e) <= LineTotal(e.(qty := q))
  {
    var keep := 1.0 - e.discount as real / 100.0;
    var tax := 1.0 + e.gst as real / 100.0;
    ProductGrowsWithSecond(LineTotal(e), LineTotal(e.(qty := q)), e.price, e.qty as real, q as real, keep, tax);
  }

  /** Raising the discount, all else fixed, never raises the line total. */
  lemma LineTotalAntitoneInDiscount(e: CartEntry, d: int)
    requires ValidEntry(e) && e.discount <= d <= 100
    ensures ValidEntry(e.(discount := d))
    ensures LineTotal(e.(discount := d)) <= LineTotal(e)
  {
    var tax := 1.0 + e.gst as real / 100.0;
    var keep := 1.0 - e.discount as real / 100.0;
    var keep' := 1.0 - d as real / 100.0;
    ProductGrowsWithThird(LineTotal(e.(discount := d)), LineTotal(e), e.price, e.qty as real, keep', keep, tax);
  }

  /** `p * x * k * t` grows with `x` when the other factors are non-negative. */
  lemma ProductGrowsWithSecond(lo: real, hi: real, p: real, x: real, x': real, k: real, t: real)
    requires 0.0 <= p && x <= x' && 0.0 <= k && 0.0 <= t
    requires lo == p * x * k * t && hi == p * x' * k * t
    ensures lo <= hi
  {
    var c := p * k * t;
    assert c >= 0.0 by {
      assert p * k >= 0.0;
    }
    assert hi - lo == c * (x' - x);
  }

  /** `p * x * k * t` grows with `k` when the other factors are non-negative. */
  lemma ProductGrowsWithThird(lo: real, hi: real, p: real, x: real, k: real, k': real, t: real)
    requires 0.0 <= p && 0.0 <= x && k <= k' && 0.0 <= t
    requires lo == p * x * k * t && hi == p * x * k' * t
    ensures lo <= hi
  {
    var c := p * x * t;
    assert c >= 0.0 by {
      assert p * x >= 0.0;
    }
    assert hi - lo == c * (k' - k);
  }

  /** A worked example: two units at 1000 with 10% off and 18% GST come to 2124. */
  lemma LineTotalExample()
    ensures LineTotal(CartEntry("Fan", 1000.0, 2, 10, 18)) == 2124.0
  {
  }

  /** The cart's "Total" column: one line total per entry, in cart order. */
  function TotalColumn(entries: seq<CartEntry>): (col: seq<real>)
    requires AllValid(entries)
    ensures |col| == |entries|
    ensures forall i | 0 <= i < |col| :: col[i] >= 0.0
  {
    seq(|entries|, i requires 0 <= i < |entries| => LineTotal(entries[i]))
  }

  /** The column sum, accumulated from the first row to the last. */
  function Sum(xs: seq<real>): real
  {
    if xs == [] then 0.0 else Sum(xs[..|xs| - 1]) + xs[|xs| - 1]
  }

  lemma {:induction false} SumNonNegative(xs: seq<real>)
    requires forall i | 0 <= i < |xs| :: xs[i] >= 0.0
    ensures Sum(xs) >= 0.0
  {
    if xs != [] {
      SumNonNegative(xs[..|xs| - 1]);
    }
  }

  /** The grand total shown under the cart and saved with the bill. */
  function GrandTotal(entries: seq<CartEntry>): (r: real)
    requires AllValid(entries)
    ensures r >= 0.0
    ensures entries == [] ==> r == 0.0
  {
    var col := TotalColumn(entries);
    SumNonNegative(col);
    Sum(col)
  }

  /** Appending a line to the cart adds exactly that line's total to the grand total. */
  lemma GrandTotalAppend(entries: seq<CartEntry>, e: CartEntry)
    requires AllValid(entries) && ValidEntry(e)
    ensures AllValid(entries + [e])
    ensures GrandTotal(entries + [e]) == GrandTotal(entries) + LineTotal(e)
  {
    var col := TotalColumn(entries + [e]);
    assert col[..|col| - 1] == TotalColumn(entries);
  }

  /** The grand total is the sum of the line totals: written here as the
      total of the first line plus the grand total of the rest. */
  lemma {:induction false} GrandTotalFirstPlusRest(entries: seq<CartEntry>)
    requires AllValid(entries) && entries != []
    ensures GrandTotal(entries) == LineTotal(entries[0]) + GrandTotal(entries[1..])
    decreases |entries|
  {
    var n := |entries|;
    if n == 1 {
      assert entries[1..] == [];
      assert entries == [] + [entries[0]];
      GrandTotalAppend([], entries[0]);
    } else {
      var init := entries[..n - 1];
      assert entries == init + [entries[n - 1]];
      GrandTotalAppend(init, entries[n - 1]);
      GrandTotalFirstPlusRest(init);
      assert init[1..] == entries[1..][..n - 2];
      assert entries[1..] == init[1..] + [entries[n - 1]];
      GrandTotalAppend(init[1..], entries[n - 1]);
    }
  }

  /** The grand total of a cart of one line is that line's total. */
  lemma GrandTotalSingle(e: CartEntry)
    requires ValidEntry(e)
    ensures GrandTotal([e]) == LineTotal(e)
  {
    GrandTotalAppend([], e);
    assert [] + [e] == [e];
  }
}
