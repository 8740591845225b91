/**
 * The bill store: the append-only `bills` table with its AUTOINCREMENT key,
 * the substring search over customer name and phone, and the "Generate Bill"
 * step that saves the current cart.
 */
module Bills {
  import opened Text
  import opened Pricing
  import opened Cart

  /** A saved bill. `date` is the save-time timestamp text, supplied by the
      caller; `items` is the cart as it was when the bill was saved. */
  datatype Bill = Bill(
    id: nat,
    customerName: string,
    phone: string,
    address: string,
    date: string,
    items: seq<CartEntry>,
    total: real)

  /** The search condition `customer_name LIKE '%q%' OR phone LIKE '%q%'`. */
  predicate Matches(b: Bill, q: string)
  {
    Contains(b.customerName, q) || Contains(b.phone, q)
  }

  /** No bill is listed twice. */
  predicate NoDuplicates(bills: seq<Bill>)
  {
    forall i, j | 0 <= i < j < |bills| :: bills[i] != bills[j]
  }

  /** The bills that match `q`, in storage order, each as often as it is stored. */
  function Matching(bills: seq<Bill>, q: string): (r: seq<Bill>)
    ensures forall b :: b in r <==> b in bills && Matches(b, q)
    ensures |r| <= |bills|
  {
    if bills == [] then []
    else
      var n := |bills| - 1;
      var init := bills[..n];
      assert bills == init + [bills[n]];
      Matching(init, q) + (if Matches(bills[n], q) then [bills[n]] else [])
  }

  /** How many times `b` is listed in `bills`. */
  function Occurrences(bills: seq<Bill>, b: Bill): nat
  {
    if bills == [] then 0
    else Occurrences(bills[..|bills| - 1], b) + if bills[|bills| - 1] == b then 1 else 0
  }

  /** A matching bill appears in the result exactly as often as it is stored,
      and a bill that does not match does not appear. */
  lemma {:induction false} MatchingCount(bills: seq<Bill>, q: string, b: Bill)
    ensures Occurrences(Matching(bills, q), b) == if Matches(b, q) then Occurrences(bills, b) else 0
  {
    if bills != [] {
      var n := |bills| - 1;
      var init, x := bills[..n], bills[n];
      var mx := Matches(x, q);
      var r := Matching(init, q);
      MatchingCount(init, q, b);
      assert Matching(bills, q) == r + (if mx then [x] else []);
      OccurrencesAppend(r, if mx then [x] else [], b);
      assert Occurrences(bills, b) == Occurrences(init, b) + (if x == b then 1 else 0);
    }
  }

  lemma OccurrencesAppend(r: seq<Bill>, t: seq<Bill>, b: Bill)
    requires |t| <= 1
    ensures Occurrences(r + t, b) == Occurrences(r, b) + (if t != [] && t[0] == b then 1 else 0)
  {
    if t != [] {
      assert (r + t)[..|r|] == r;
    } else {
      assert r + t == r;
    }
  }

  /** A store that lists no bill twice gives a search result that lists no bill twice. */
  lemma {:induction false} MatchingNoDuplicates(bills: seq<Bill>, q: string)
    requires NoDuplicates(bills)
    ensures NoDuplicates(Matching(bills, q))
  {
    if bills != [] {
      var n := |bills| - 1;
      var init, x := bills[..n], bills[n];
      assert NoDuplicates(init) by {
        forall i, j | 0 <= i < j < |init| ensures init[i] != init[j] {
          assert init[i] == bills[i] && init[j] == bills[j];
        }
      }
      MatchingNoDuplicates(init, q);
      var r := Matching(init, q);
      assert x !in init by {
        forall k | 0 <= k < |init| ensures init[k] != x {
          assert init[k] == bills[k];
        }
      }
      if Matches(x, q) {
        assert Matching(bills, q) == r + [x];
        assert x !in r;
        var m := r + [x];
        forall i, j | 0 <= i < j < |m| ensures m[i] != m[j] {
          if j == |r| {
            assert m[i] in r;
          } else {
            assert m[i] == r[i] && m[j] == r[j];
          }
        }
      } else {
        assert Matching(bills, q) == r;
      }
    }
  }

  /** Saving a bill extends every later search by that bill exactly when it matches. */
  lemma MatchingAppend(bills: seq<Bill>, b: Bill, q: string)
    ensures Matching(bills + [b], q) == Matching(bills, q) + (if Matches(b, q) then [b] else [])
  {
    assert (bills + [b])[..|bills|] == bills;
  }

  /** A saved bill is found afterwards by any part of its customer name or phone. */
  lemma SavedBillIsFound(bills: seq<Bill>, b: Bill, pre: string, q: string, post: string)
    requires b.customerName == pre + q + post || b.phone == pre + q + post
    ensures Matching(bills + [b], q) == Matching(bills, q) + [b]
  {
    ContainsInfix(pre, q, post);
    MatchingAppend(bills, b, q);
  }

  /** An empty query matches every bill (`LIKE '%%'`). */
  lemma {:induction false} MatchingEmptyQuery(bills: seq<Bill>)
    ensures Matching(bills, []) == bills
  {
    if bills != [] {
      var n := |bills| - 1;
      var init, b := bills[..n], bills[n];
      MatchingEmptyQuery(init);
      EmptyQueryMatches(b);
      MatchingAppend(init, b, []);
      assert bills == init + [b];
    }
  }

  lemma EmptyQueryMatches(b: Bill)
    ensures Matches(b, [])
  {
    assert OccursAt(b.customerName, [], 0);
  }

  /** Bill numbers strictly increase in storage order and none exceeds the
      highest number handed out so far. */
  predicate IdsIncreasing(bills: seq<Bill>, last: nat)
  {
    && (forall i, j | 0 <= i < j < |bills| :: bills[i].id < bills[j].id)
    && (forall i | 0 <= i < |bills| :: 1 <= bills[i].id <= last)
  }

  class BillStore {
    var bills: seq<Bill>
    /** The largest bill number handed out so far (SQLite keeps this for an AUTOINCREMENT key). */
    var lastId: nat

    ghost predicate Valid()
      reads this
    {
      IdsIncreasing(bills, lastId)
    }

    constructor ()
      ensures Valid() && bills == [] && lastId == 0
    {
      bills := [];
      lastId := 0;
    }

    /** `save_bill`: append one row with a fresh number; earlier rows are untouched. */
    method SaveBill(customerName: string, phone: string, address: string, date: string,
                    items: seq<CartEntry>, total: real) returns (id: nat)
      requires Valid()
      modifies this
      ensures Valid()
      ensures bills == old(bills) + [Bill(id, customerName, phone, address, date, items, total)]
      ensures forall b | b in old(bills) :: b.id < id
      ensures id == old(lastId) + 1 && lastId == id
    {
      id := lastId + 1;
      bills := bills + [Bill(id, customerName, phone, address, date, items, total)];
      lastId := id;
    }

    /** `search_bills`: each stored bill whose name or phone contains `q`, once. */
    function SearchBills(q: string): (r: seq<Bill>)
      reads this
      requires Valid()
      ensures forall b :: b in r <==> b in bills && Matches(b, q)
      ensures NoDuplicates(r)
    {
      assert NoDuplicates(bills) by {
        forall i, j | 0 <= i < j < |bills| ensures bills[i] != bills[j] {
          assert bills[i].id < bills[j].id;
        }
      }
      MatchingNoDuplicates(bills, q);
      Matching(bills, q)
    }
  }

  /** "Generate Bill": offered only while the cart holds at least one line;
      saves the cart and its grand total and leaves the cart as it is. */
  method GenerateBill(cart: CartSession, store: BillStore, customerName: string, phone: string,
                      address: string, now: string) returns (id: nat, saved: bool)
    requires cart.Valid() && store.Valid()
    modifies store
    ensures store.Valid()
    ensures saved <==> old(cart.entries) != []
    ensures !saved ==> store.bills == old(store.bills) && store.lastId == old(store.lastId)
    ensures saved ==>
              store.bills == old(store.bills) + [Bill(id, customerName, phone, address, now, cart.entries, GrandTotal(cart.entries))]
    ensures saved ==> forall b | b in old(store.bills) :: b.id < id
  {
    id, saved := 0, false;
    if cart.entries != [] {
      id := store.SaveBill(customerName, phone, address, now, cart.entries, GrandTotal(cart.entries));
      saved := true;
    }
  }
}
