/**
 * The order-book listing of a pair (controllers/OrderController.js
 * `getOrderBook`): its pending buys by price descending and its pending
 * sells by price ascending, earlier orders first at equal price.
 */
module OrderBook {
  import opened Base
  import opened Orders

  /** Listing order: better price first, then earlier creation. */
  predicate ListedBefore(side: Side, a: Order, b: Order) {
    if side == Buy then a.price > b.price || (a.price == b.price && a.createdAt <= b.createdAt)
    else a.price < b.price || (a.price == b.price && a.createdAt <= b.createdAt)
  }

  ghost predicate Listed(orders: map<OrderId, Order>, ids: seq<OrderId>, side: Side) {
    && (forall i :: 0 <= i < |ids| ==> ids[i] in orders)
    && (forall i, j :: 0 <= i < j < |ids| ==> ListedBefore(side, orders[ids[i]], orders[ids[j]]))
  }

  ghost predicate Distinct<T>(s: seq<T>) {
    forall i, j :: 0 <= i < j < |s| ==> s[i] != s[j]
  }

  /** Inserts `id` in front of the first listed order it precedes. */
  function Insert(orders: map<OrderId, Order>, s: seq<OrderId>, id: OrderId, side: Side): (r: seq<OrderId>)
    requires id in orders && Listed(orders, s, side)
    ensures Listed(orders, r, side)
    ensures |r| == |s| + 1
    ensures forall e :: e in r <==> e in s || e == id
    ensures Distinct(s) && id !in s ==> Distinct(r)
    decreases |s|
  {
    if |s| == 0 then [id]
    else if ListedBefore(side, orders[id], orders[s[0]]) then [id] + s
    else
      DistinctTail(s);
      var rest := Insert(orders, s[1..], id, side);
      HeadBeforeRest(orders, s, id, side, rest);
      var r := [s[0]] + rest;
      DistinctCons(s, id, rest);
      assert forall i :: 0 < i < |r| ==> r[i] == rest[i - 1];
      r
  }

  lemma DistinctTail<T>(s: seq<T>)
    requires |s| > 0
    ensures Distinct(s) ==> Distinct(s[1..])
  {
    if Distinct(s) {
      forall i, j | 0 <= i < j < |s[1..]| ensures s[1..][i] != s[1..][j] {
        assert s[1..][i] == s[i + 1] && s[1..][j] == s[j + 1];
      }
    }
  }

  /** An order that does not go before the head of a listing goes after it, as does the rest of the listing. */
  lemma HeadBeforeRest(orders: map<OrderId, Order>, s: seq<OrderId>, id: OrderId, side: Side, rest: seq<OrderId>)
    requires id in orders && |s| > 0 && Listed(orders, s, side)
    requires !ListedBefore(side, orders[id], orders[s[0]])
    requires forall e :: e in rest <==> e in s[1..] || e == id
    ensures forall e :: e in rest ==> ListedBefore(side, orders[s[0]], orders[e])
  {
    forall e | e in rest
      ensures ListedBefore(side, orders[s[0]], orders[e])
    {
      if e != id {
        var k :| 0 <= k < |s[1..]| && s[1..][k] == e;
        assert s[k + 1] == e;
      }
    }
  }

  /** Putting back the head of a distinct listing in front of a distinct rest that lacks it keeps it distinct. */
  lemma DistinctCons(s: seq<OrderId>, id: OrderId, rest: seq<OrderId>)
    requires |s| > 0 && forall e :: e in rest <==> e in s[1..] || e == id
    ensures Distinct(s) && id !in s && Distinct(rest) ==> Distinct([s[0]] + rest)
  {
    if Distinct(s) && id !in s && Distinct(rest) {
      var r := [s[0]] + rest;
      forall k | 0 <= k < |s[1..]| ensures s[1..][k] != s[0] {
        assert s[1..][k] == s[k + 1];
      }
      assert s[0] !in rest;
      forall i, j | 0 <= i < j < |r| ensures r[i] != r[j] {
        if i == 0 {
          assert r[j] in rest;
        }
      }
    }
  }

  /** Lists the ids in book order, each once. */
  method ListIds(orders: map<OrderId, Order>, ids: set<OrderId>, side: Side) returns (r: seq<OrderId>)
    requires ids <= orders.Keys
    ensures forall id :: id in r <==> id in ids
    ensures Distinct(r)
    ensures Listed(orders, r, side)
  {
    r := [];
    var rest := ids;
    while rest != {}
      invariant rest <= ids
      invariant forall id :: id in r <==> id in ids - rest
      invariant Distinct(r)
      invariant Listed(orders, r, side)
      decreases rest
    {
      var id :| id in rest;
      r := Insert(orders, r, id, side);
      rest := rest - {id};
    }
  }

  /**
   * The pair's book: exactly its pending buys, best (highest) price first,
   * and exactly its pending sells, best (lowest) price first, each listed once.
   */
  method GetOrderBook(orders: map<OrderId, Order>, base: CurrencyId, quote: CurrencyId)
    returns (buys: seq<OrderId>, sells: seq<OrderId>)
    ensures forall id :: id in buys <==> id in PendingOrders(orders, base, quote, Some(Buy))
    ensures forall id :: id in sells <==> id in PendingOrders(orders, base, quote, Some(Sell))
    ensures Distinct(buys) && Distinct(sells)
    ensures Listed(orders, buys, Buy) && Listed(orders, sells, Sell)
  {
    buys := ListIds(orders, PendingOrders(orders, base, quote, Some(Buy)), Buy);
    sells := ListIds(orders, PendingOrders(orders, base, quote, Some(Sell)), Sell);
  }

  /** The head of a listing holds the best price of the side, as the matching engine selects it. */
  lemma HeadIsBest(orders: map<OrderId, Order>, ids: seq<OrderId>, side: Side, j: nat)
    requires Listed(orders, ids, side) && 0 < j < |ids|
    ensures side == Buy ==> orders[ids[j]].price <= orders[ids[0]].price
    ensures side == Sell ==> orders[ids[0]].price <= orders[ids[j]].price
  {
    assert ListedBefore(side, orders[ids[0]], orders[ids[j]]);
  }
}
