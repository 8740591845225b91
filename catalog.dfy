/**
 * The product catalog: the `products` table, whose `name` column is UNIQUE.
 *
 * The table is a sequence of rows in storage (rowid) order. Each SQL statement
 * the application issues is modelled by its effect on that sequence:
 * INSERT (which fails, and the failure is ignored, when the name exists),
 * UPDATE ... WHERE name = ?, DELETE ... WHERE name = ?, and
 * SELECT name, price ... ORDER BY name ASC.
 */
module Catalog {
  import opened Text

  datatype Option<T> = None | Some(value: T)

  /** A row of the product table as the application reads it: name and price. */
  datatype Product = Product(name: string, price: real)

  predicate HasName(rows: seq<Product>, name: string)
  {
    exists p | p in rows :: p.name == name
  }

  /** The table's UNIQUE constraint on `name`. */
  predicate UniqueNames(rows: seq<Product>)
  {
    forall i, j | 0 <= i < j < |rows| :: rows[i].name != rows[j].name
  }

  /** Prices entered through the catalog form are never negative. */
  predicate PricesNonNegative(rows: seq<Product>)
  {
    forall p | p in rows :: p.price >= 0.0
  }

  /** The price stored under `name`, if a row with that name exists
      (the lookup `dict(products)[name]` does on the listing). */
  function PriceOf(rows: seq<Product>, name: string): (r: Option<real>)
    ensures r.Some? <==> HasName(rows, name)
    ensures r.Some? ==> Product(name, r.value) in rows
  {
    if rows == [] then None
    else if rows[0].name == name then Some(rows[0].price)
    else
      var r := PriceOf(rows[1..], name);
      assert forall p | p in rows[1..] :: p in rows;
      assert forall p | p in rows :: p == rows[0] || p in rows[1..];
      r
  }

  /** Under the UNIQUE constraint a row is exactly what the lookup reports. */
  lemma {:induction false} PriceOfUnique(rows: seq<Product>, p: Product)
    requires UniqueNames(rows)
    ensures PriceOf(rows, p.name) == Some(p.price) <==> p in rows
  {
    if p in rows && rows[0] != p {
      var k :| 0 <= k < |rows| && rows[k] == p;
      assert k > 0;
      assert rows[0].name != p.name;
      assert rows[1..][k - 1] == p;
      PriceOfUnique(rows[1..], p);
    }
  }

  // ----- INSERT INTO products (name, price) VALUES (?, ?) -----

  /** The table after an insert whose constraint violation is swallowed:
      unchanged if the name is taken, one new row at the end otherwise. */
  function Added(rows: seq<Product>, name: string, price: real): (r: seq<Product>)
    ensures HasName(rows, name) ==> r == rows
    ensures !HasName(rows, name) ==> |r| == |rows| + 1 && r[..|rows|] == rows && r[|rows|] == Product(name, price)
  {
    if HasName(rows, name) then rows else rows + [Product(name, price)]
  }

  lemma AddedKeepsUnique(rows: seq<Product>, name: string, price: real)
    requires UniqueNames(rows)
    ensures UniqueNames(Added(rows, name, price))
  {
    if !HasName(rows, name) {
      var r := Added(rows, name, price);
      forall i, j | 0 <= i < j < |r| ensures r[i].name != r[j].name {
        if j == |rows| {
          assert rows[i] in rows;
        }
      }
    }
  }

  /** Seen as a name-to-price dictionary, adding sets the new name's price and
      nothing else; a name already present keeps its original price. */
  lemma AddedPrices(rows: seq<Product>, name: string, price: real, k: string)
    ensures PriceOf(Added(rows, name, price), k) ==
            if k == name && !HasName(rows, name) then Some(price) else PriceOf(rows, k)
  {
    if !HasName(rows, name) {
      PriceOfAppend(rows, Product(name, price), k);
    }
  }

  lemma {:induction false} PriceOfAppend(rows: seq<Product>, p: Product, k: string)
    requires !HasName(rows, p.name)
    ensures PriceOf(rows + [p], k) == if k == p.name then Some(p.price) else PriceOf(rows, k)
  {
    if rows == [] {
      assert [] + [p] == [p];
    } else {
      assert (rows + [p])[1..] == rows[1..] + [p];
      assert rows[0] in rows;
      assert forall q | q in rows[1..] :: q in rows;
      PriceOfAppend(rows[1..], p, k);
    }
  }

  /** Adding the same name twice is the same as adding it once: the second
      insert is a no-op and the first price stays. */
  lemma AddTwiceIsAddOnce(rows: seq<Product>, name: string, p1: real, p2: real)
    ensures Added(Added(rows, name, p1), name, p2) == Added(rows, name, p1)
  {
    var r := Added(rows, name, p1);
    assert r[|r| - 1] in r;
  }

  // ----- UPDATE products SET price = ? WHERE name = ? -----

  /** The table after setting the price of every row named `name`. */
  function Repriced(rows: seq<Product>, name: string, price: real): (r: seq<Product>)
    ensures |r| == |rows|
    ensures forall i | 0 <= i < |rows| ::
              r[i] == if rows[i].name == name then Product(name, price) else rows[i]
  {
    if rows == [] then []
    else
      var head := if rows[0].name == name then Product(name, price) else rows[0];
      [head] + Repriced(rows[1..], name, price)
  }

  lemma RepricedMissingIsNoop(rows: seq<Product>, name: string, price: real)
    requires !HasName(rows, name)
    ensures Repriced(rows, name, price) == rows
  {
    var r := Repriced(rows, name, price);
    forall i | 0 <= i < |rows| ensures r[i] == rows[i] {
      assert rows[i] in rows;
    }
  }

  lemma RepricedKeepsUnique(rows: seq<Product>, name: string, price: real)
    requires UniqueNames(rows)
    ensures UniqueNames(Repriced(rows, name, price))
  {
  }

  lemma {:induction false} RepricedPrices(rows: seq<Product>, name: string, price: real, k: string)
    ensures PriceOf(Repriced(rows, name, price), k) ==
            if k == name && HasName(rows, name) then Some(price) else PriceOf(rows, k)
  {
    if rows != [] {
      HasNameCons(rows, name);
      RepricedPrices(rows[1..], name, price, k);
    }
  }

  lemma HasNameCons(rows: seq<Product>, name: string)
    requires rows != []
    ensures HasName(rows, name) <==> rows[0].name == name || HasName(rows[1..], name)
  {
    assert rows[0] in rows;
    assert forall q | q in rows[1..] :: q in rows;
    if HasName(rows, name) && rows[0].name != name {
      var q :| q in rows && q.name == name;
      assert q in rows[1..] by {
        assert rows == [rows[0]] + rows[1..];
      }
    }
  }

  lemma UniqueTail(rows: seq<Product>)
    requires UniqueNames(rows) && rows != []
    ensures UniqueNames(rows[1..])
    ensures !HasName(rows[1..], rows[0].name)
  {
    var rest := rows[1..];
    forall i, j | 0 <= i < j < |rest| ensures rest[i].name != rest[j].name {
      assert rest[i] == rows[i + 1] && rest[j] == rows[j + 1];
    }
    forall q | q in rest ensures q.name != rows[0].name {
      var k :| 0 <= k < |rest| && rest[k] == q;
      assert rows[k + 1] == q;
    }
  }

  // ----- DELETE FROM products WHERE name = ? -----

  /** The table after deleting every row named `name`, others kept in order. */
  function Removed(rows: seq<Product>, name: string): (r: seq<Product>)
    ensures forall p :: p in r <==> p in rows && p.name != name
    ensures !HasName(rows, name) ==> r == rows
    ensures |r| <= |rows|
  {
    if rows == [] then []
    else if rows[0].name == name then Removed(rows[1..], name)
    else
      assert rows[0] in rows;
      assert forall q | q in rows[1..] :: q in rows;
      [rows[0]] + Removed(rows[1..], name)
  }

  /** Deleting a name that is present removes exactly one row. */
  lemma {:induction false} RemovedCount(rows: seq<Product>, name: string)
    requires UniqueNames(rows)
    ensures HasName(rows, name) ==> |Removed(rows, name)| == |rows| - 1
  {
    if rows != [] {
      UniqueTail(rows);
      HasNameCons(rows, name);
      RemovedCount(rows[1..], name);
    }
  }

  lemma {:induction false} RemovedKeepsUnique(rows: seq<Product>, name: string)
    requires UniqueNames(rows)
    ensures UniqueNames(Removed(rows, name))
  {
    if rows != [] {
      UniqueTail(rows);
      RemovedKeepsUnique(rows[1..], name);
      if rows[0].name != name {
        var rest := Removed(rows[1..], name);
        assert !HasName(rest, rows[0].name) by {
          forall q | q in rest ensures q.name != rows[0].name {
            assert q in rows[1..];
          }
        }
        UniqueCons(rows[0], rest);
      }
    }
  }

  lemma UniqueCons(p: Product, rest: seq<Product>)
    requires UniqueNames(rest) && !HasName(rest, p.name)
    ensures UniqueNames([p] + rest)
  {
    var r := [p] + rest;
    forall i, j | 0 <= i < j < |r| ensures r[i].name != r[j].name {
      assert r[j] == rest[j - 1];
      if i == 0 {
        assert r[j] in rest;
      } else {
        assert r[i] == rest[i - 1];
      }
    }
  }

  lemma RemovedPrices(rows: seq<Product>, name: string, k: string)
    requires UniqueNames(rows)
    ensures PriceOf(Removed(rows, name), k) == if k == name then None else PriceOf(rows, k)
  {
    RemovedKeepsUnique(rows, name);
    var r := Removed(rows, name);
    var before := PriceOf(rows, k);
    var after := PriceOf(r, k);
    if after.Some? {
      PriceOfUnique(r, Product(k, after.value));
      PriceOfUnique(rows, Product(k, after.value));
    }
    if before.Some? && k != name {
      PriceOfUnique(rows, Product(k, before.value));
      PriceOfUnique(r, Product(k, before.value));
    }
  }

  // ----- SELECT name, price FROM products ORDER BY name ASC -----

  /** Every row sorts strictly before the next (so no name appears twice). */
  predicate StrictlySorted(s: seq<Product>)
  {
    forall i, j | 0 <= i < j < |s| :: NameLess(s[i].name, s[j].name)
  }

  /** Place `p` before the first row whose name does not sort before its own. */
  function InsertByName(p: Product, s: seq<Product>): (r: seq<Product>)
    ensures multiset(r) == multiset(s) + multiset{p}
  {
    if s == [] then [p]
    else if NameLess(s[0].name, p.name) then
      assert s == [s[0]] + s[1..];
      [s[0]] + InsertByName(p, s[1..])
    else [p] + s
  }

  lemma {:induction false} InsertByNameSorted(p: Product, s: seq<Product>)
    requires StrictlySorted(s) && !HasName(s, p.name)
    ensures StrictlySorted(InsertByName(p, s))
  {
    if s == [] {
      return;
    }
    var tail := s[1..];
    assert s[0] in s;
    assert StrictlySorted(tail) by {
      forall i, j | 0 <= i < j < |tail| ensures NameLess(tail[i].name, tail[j].name) {
        assert tail[i] == s[i + 1] && tail[j] == s[j + 1];
      }
    }
    if NameLess(s[0].name, p.name) {
      assert !HasName(tail, p.name) by {
        forall q | q in tail ensures q.name != p.name {
          assert q in s;
        }
      }
      InsertByNameSorted(p, tail);
      var rest := InsertByName(p, tail);
      forall q | q in rest ensures NameLess(s[0].name, q.name) {
        assert q in multiset(rest);
        if q != p {
          var k :| 0 <= k < |tail| && tail[k] == q;
          assert s[k + 1] == q;
        }
      }
      SortedCons(s[0], rest);
    } else {
      NameLessTotal(p.name, s[0].name);
      forall q | q in s ensures NameLess(p.name, q.name) {
        var k :| 0 <= k < |s| && s[k] == q;
        if k > 0 {
          NameLessTransitive(p.name, s[0].name, q.name);
        }
      }
      SortedCons(p, s);
    }
  }

  lemma SortedCons(p: Product, rest: seq<Product>)
    requires StrictlySorted(rest)
    requires forall q | q in rest :: NameLess(p.name, q.name)
    ensures StrictlySorted([p] + rest)
  {
    var r := [p] + rest;
    forall i, j | 0 <= i < j < |r| ensures NameLess(r[i].name, r[j].name) {
      assert r[j] == rest[j - 1];
      if i == 0 {
        assert r[j] in rest;
      } else {
        assert r[i] == rest[i - 1];
      }
    }
  }

  /** The listing: the rows sorted by name. */
  function SortedByName(rows: seq<Product>): (r: seq<Product>)
    ensures multiset(r) == multiset(rows)
  {
    if rows == [] then []
    else
      assert rows == [rows[0]] + rows[1..];
      InsertByName(rows[0], SortedByName(rows[1..]))
  }

  lemma {:induction false} SortedByNameSorted(rows: seq<Product>)
    requires UniqueNames(rows)
    ensures StrictlySorted(SortedByName(rows))
  {
    if rows != [] {
      var rest := rows[1..];
      assert UniqueNames(rest) by {
        forall i, j | 0 <= i < j < |rest| ensures rest[i].name != rest[j].name {
          assert rest[i] == rows[i + 1] && rest[j] == rows[j + 1];
        }
      }
      SortedByNameSorted(rest);
      var s := SortedByName(rest);
      assert !HasName(s, rows[0].name) by {
        forall q | q in s ensures q.name != rows[0].name {
          assert q in multiset(rest);
          var k :| 0 <= k < |rest| && rest[k] == q;
          assert rows[k + 1] == q;
        }
      }
      InsertByNameSorted(rows[0], s);
    }
  }

  lemma StrictlySortedUnique(s: seq<Product>)
    requires StrictlySorted(s)
    ensures UniqueNames(s)
  {
    forall i, j | 0 <= i < j < |s| ensures s[i].name != s[j].name {
      NameLessIrreflexive(s[i].name);
    }
  }

  /** Looking a name up in the listing gives the price stored in the table. */
  lemma ListingPrice(rows: seq<Product>, name: string)
    requires UniqueNames(rows)
    ensures PriceOf(SortedByName(rows), name) == PriceOf(rows, name)
  {
    var listing := SortedByName(rows);
    SortedByNameSorted(rows);
    StrictlySortedUnique(listing);
    assert forall p :: p in listing <==> p in rows by {
      forall p ensures p in listing <==> p in rows {
        assert p in listing <==> p in multiset(listing);
        assert p in rows <==> p in multiset(rows);
      }
    }
    var a := PriceOf(listing, name);
    var b := PriceOf(rows, name);
    if a.Some? {
      PriceOfUnique(listing, Product(name, a.value));
      PriceOfUnique(rows, Product(name, a.value));
    }
    if b.Some? {
      PriceOfUnique(listing, Product(name, b.value));
      PriceOfUnique(rows, Product(name, b.value));
    }
  }

  // ----- Sequences of catalog operations -----

  /** The three statements the catalog screen can issue. */
  datatype CatalogOp =
    | AddOp(name: string, price: real)
    | UpdateOp(name: string, price: real)
    | DeleteOp(name: string)

  function Apply(rows: seq<Product>, op: CatalogOp): seq<Product>
  {
    match op
    case AddOp(n, p) => Added(rows, n, p)
    case UpdateOp(n, p) => Repriced(rows, n, p)
    case DeleteOp(n) => Removed(rows, n)
  }

  function ApplyAll(rows: seq<Product>, ops: seq<CatalogOp>): seq<Product>
    decreases |ops|
  {
    if ops == [] then rows else ApplyAll(Apply(rows, ops[0]), ops[1..])
  }

  /** Product names stay unique whatever adds, updates and deletes are run. */
  lemma {:induction false} ApplyAllKeepsUnique(rows: seq<Product>, ops: seq<CatalogOp>)
    requires UniqueNames(rows)
    ensures UniqueNames(ApplyAll(rows, ops))
    decreases |ops|
  {
    if ops != [] {
      match ops[0] {
        case AddOp(n, p) => AddedKeepsUnique(rows, n, p);
        case UpdateOp(n, p) => RepricedKeepsUnique(rows, n, p);
        case DeleteOp(n) => RemovedKeepsUnique(rows, n);
      }
      ApplyAllKeepsUnique(Apply(rows, ops[0]), ops[1..]);
    }
  }

  // ----- The table as a mutable object -----

  class ProductTable {
    var rows: seq<Product>

    ghost predicate Valid()
      reads this
    {
      UniqueNames(rows) && PricesNonNegative(rows)
    }

    constructor ()
      ensures Valid() && rows == []
    {
      rows := [];
    }

    /** `get_products`: every row exactly once, in ascending name order. */
    function GetProducts(): (r: seq<Product>)
      reads this
      requires Valid()
      ensures StrictlySorted(r)
      ensures multiset(r) == multiset(rows)
      ensures PricesNonNegative(r)
      ensures forall n :: PriceOf(r, n) == PriceOf(rows, n)
    {
      SortedByNameSorted(rows);
      forall n ensures PriceOf(SortedByName(rows), n) == PriceOf(rows, n) {
        ListingPrice(rows, n);
      }
      assert forall p | p in SortedByName(rows) :: p in multiset(rows);
      SortedByName(rows)
    }

    /** `add_product`: a taken name leaves the table as it was. */
    method AddProduct(name: string, price: real)
      requires Valid() && price >= 0.0
      modifies this
      ensures Valid()
      ensures rows == Added(old(rows), name, price)
      ensures old(HasName(rows, name)) ==> rows == old(rows)
      ensures !old(HasName(rows, name)) ==> rows == old(rows) + [Product(name, price)]
    {
      AddedKeepsUnique(rows, name, price);
      rows := Added(rows, name, price);
    }

    /** `update_product_price`: only the row with that name changes. */
    method UpdateProductPrice(name: string, price: real)
      requires Valid() && price >= 0.0
      modifies this
      ensures Valid()
      ensures rows == Repriced(old(rows), name, price)
      ensures !old(HasName(rows, name)) ==> rows == old(rows)
    {
      RepricedKeepsUnique(rows, name, price);
      if !HasName(rows, name) {
        RepricedMissingIsNoop(rows, name, price);
      }
      var r := Repriced(rows, name, price);
      assert forall p | p in r :: p.price >= 0.0 by {
        forall p | p in r ensures p.price >= 0.0 {
          var i :| 0 <= i < |r| && r[i] == p;
          assert rows[i] in rows;
        }
      }
      rows := r;
    }

    /** `delete_product`: only the row with that name goes. */
    method DeleteProduct(name: string)
      requires Valid()
      modifies this
      ensures Valid()
      ensures rows == Removed(old(rows), name)
      ensures !old(HasName(rows, name)) ==> rows == old(rows)
      ensures old(HasName(rows, name)) ==> |rows| == |old(rows)| - 1
    {
      RemovedCount(rows, name);
      RemovedKeepsUnique(rows, name);
      rows := Removed(rows, name);
    }
  }
}
