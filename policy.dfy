/**
 * The position policy shared by both polling loops: the only state is whether
 * the bot holds the asset; it asks to buy when it holds nothing and the price
 * is strictly below the buy threshold, to sell when it holds the asset and the
 * price is strictly above the sell threshold, and flips its flag only after
 * the order call reported success.
 */
module Policy {
  import opened Exchange

  datatype Decision = NoAction | RequestBuy | RequestSell

  /** The threshold test of one iteration (at most one order is requested). */
  function Decide(inPosition: bool, price: real, buyPrice: real, sellPrice: real): (d: Decision)
    ensures d == RequestBuy <==> !inPosition && price < buyPrice
    ensures d == RequestSell <==> inPosition && price > sellPrice
    ensures d == NoAction <==>
              (inPosition && price <= sellPrice) || (!inPosition && price >= buyPrice)
  {
    if inPosition then
      (if sellPrice < price then RequestSell else NoAction)
    else
      (if price < buyPrice then RequestBuy else NoAction)
  }

  /** A price equal to a threshold never triggers an order. */
  lemma TiesTriggerNothing(inPosition: bool, buyPrice: real, sellPrice: real)
    ensures Decide(inPosition, buyPrice, buyPrice, sellPrice) != RequestBuy
    ensures Decide(inPosition, sellPrice, buyPrice, sellPrice) != RequestSell
  {
  }

  /** The position after the order of decision `d` reported `filled`. */
  function ApplyOutcome(d: Decision, filled: bool, inPosition: bool): (next: bool)
    ensures !filled || d == NoAction ==> next == inPosition
    ensures filled && d == RequestBuy ==> next
    ensures filled && d == RequestSell ==> !next
  {
    match d
    case NoAction => inPosition
    case RequestBuy => filled || inPosition
    case RequestSell => !filled && inPosition
  }

  /**
   * One iteration of the policy changes the position exactly when an order was
   * requested and filled, and then to the opposite of the old position.
   */
  lemma PositionFlipsOnlyOnFill(inPosition: bool, price: real, buyPrice: real, sellPrice: real, filled: bool)
    ensures var d := Decide(inPosition, price, buyPrice, sellPrice);
            ApplyOutcome(d, filled, inPosition) != inPosition <==> filled && d != NoAction
  {
  }

  datatype Side = Buy | Sell

  /** `sides` is buy, sell, buy, sell, ... beginning with a buy. */
  predicate Alternates(sides: seq<Side>) {
    forall i :: 0 <= i < |sides| ==> sides[i] == (if i % 2 == 0 then Buy else Sell)
  }

  /** The side of the trade that leaves a position of `inPosition`. */
  function Closing(inPosition: bool): Side {
    if inPosition then Sell else Buy
  }

  /** The first `n` trades of buy, sell, buy, sell, ... */
  function Pattern(n: nat): seq<Side> {
    if n == 0 then [] else Pattern(n - 1) + [if n % 2 == 1 then Buy else Sell]
  }

  /**
   * `sides` is a history of completed trades that leaves the bot with the
   * position `inPosition`, starting out of position: buy, sell, buy, ... and
   * in position exactly after an odd number of trades.
   */
  predicate Consistent(sides: seq<Side>, inPosition: bool) {
    sides == Pattern(|sides|) && (inPosition <==> |sides| % 2 == 1)
  }

  /** A trade that flips the position keeps the trade history consistent. */
  lemma ConsistentAfterFlip(sides: seq<Side>, inPosition: bool)
    requires Consistent(sides, inPosition)
    ensures Consistent(sides + [Closing(inPosition)], !inPosition)
  {
    assert Pattern(|sides| + 1) == Pattern(|sides|) + [Closing(inPosition)];
  }

  lemma {:induction false} PatternAlternates(n: nat)
    ensures |Pattern(n)| == n && Alternates(Pattern(n))
  {
    if n > 0 {
      PatternAlternates(n - 1);
      assert forall i :: 0 <= i < n - 1 ==> Pattern(n)[i] == Pattern(n - 1)[i];
    }
  }

  /**
   * A consistent history is exactly one that is buy, sell, buy, ... and
   * leaves the bot holding the asset exactly after an odd number of trades.
   */
  lemma ConsistentIffAlternates(sides: seq<Side>, inPosition: bool)
    ensures Consistent(sides, inPosition) <==> Alternates(sides) && (inPosition <==> |sides| % 2 == 1)
  {
    PatternAlternates(|sides|);
    if Alternates(sides) {
      assert forall i :: 0 <= i < |sides| ==> sides[i] == Pattern(|sides|)[i];
    }
  }

  /** The sides of the market orders in `orders` that reported success, in order. */
  function FilledSides(orders: seq<Order>): (sides: seq<Side>)
    ensures |sides| <= |orders|
  {
    if orders == [] then []
    else
      var o := orders[0];
      (if o.ok && o.kind == MarketBuy then [Buy]
       else if o.ok && o.kind == MarketSell then [Sell]
       else []) + FilledSides(orders[1..])
  }

  lemma {:induction false} FilledSidesAppend(a: seq<Order>, b: seq<Order>)
    ensures FilledSides(a + b) == FilledSides(a) + FilledSides(b)
    decreases |a|
  {
    if a != [] {
      assert (a + b)[1..] == a[1..] + b;
      FilledSidesAppend(a[1..], b);
    } else {
      assert a + b == b;
    }
  }
}
