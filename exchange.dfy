/**
 * The exchange as the bots see it. Every call into the exchange client is
 * replaced by the answer it gave: a finite stream of loop iterations, each
 * either a failed price fetch or a price together with what the order call of
 * that iteration (if one is made) did, and the account's balance records.
 */
module Exchange {

  /** Whether an order call into the client returned (`Filled`) or raised (`Raised`). */
  datatype OrderCall = Filled | Raised

  /** The orders the bot can send to the exchange. */
  datatype OrderKind = MarketBuy | MarketSell | StopLimitSell | OcoSell

  /** An order call made by a bot and whether it reported success. */
  datatype Order = Order(kind: OrderKind, ok: bool)

  /**
   * One iteration of a polling loop as the exchange and the operator shape it:
   * the ticker call raised, or it gave `price`; `input` is the line the operator
   * types at the prompt (read only in interactive mode) and `call` is the fate
   * of the order call the iteration makes, if it makes one.
   */
  datatype Tick = FetchFailed | Quote(price: real, input: string, call: OrderCall)

  /** One record of the account's `balances` list, its `free` amount already a number. */
  datatype BalanceEntry = BalanceEntry(asset: string, free: real)

  /** The account call: it raised, or it returned the balance records. */
  datatype AccountReply = AccountFailed | Account(balances: seq<BalanceEntry>)

  /** Entry `i` of `bs` is a positive balance of `asset`. */
  predicate HeldAt(bs: seq<BalanceEntry>, i: int, asset: string)
    requires 0 <= i < |bs|
  {
    bs[i].asset == asset && bs[i].free > 0.0
  }

  /**
   * The dictionary comprehension `{b['asset']: b['free'] for b in balances if b['free'] > 0}`:
   * it holds exactly the assets with a positive free amount.
   */
  function PositiveBalances(bs: seq<BalanceEntry>): (m: map<string, real>)
    ensures forall a :: a in m <==> exists i :: 0 <= i < |bs| && HeldAt(bs, i, a)
    ensures forall a :: a in m ==> m[a] > 0.0
    decreases |bs|
  {
    if bs == [] then map[]
    else
      var n := |bs| - 1;
      var earlier := PositiveBalances(bs[..n]);
      assert forall i, a :: 0 <= i < n ==> (HeldAt(bs[..n], i, a) <==> HeldAt(bs, i, a));
      if bs[n].free > 0.0 then
        assert HeldAt(bs, n, bs[n].asset);
        earlier[bs[n].asset := bs[n].free]
      else
        earlier
  }

  /**
   * When an asset is listed more than once, the comprehension keeps the amount
   * of its last positive record.
   */
  lemma {:induction false} PositiveBalancesLastWins(bs: seq<BalanceEntry>, i: nat)
    requires i < |bs| && bs[i].free > 0.0
    requires forall j :: i < j < |bs| ==> !HeldAt(bs, j, bs[i].asset)
    ensures bs[i].asset in PositiveBalances(bs)
    ensures PositiveBalances(bs)[bs[i].asset] == bs[i].free
    decreases |bs|
  {
    var n := |bs| - 1;
    assert HeldAt(bs, i, bs[i].asset);
    if i < n {
      assert forall j, a :: 0 <= j < n ==> (HeldAt(bs[..n], j, a) <==> HeldAt(bs, j, a));
      PositiveBalancesLastWins(bs[..n], i);
      assert !HeldAt(bs, n, bs[i].asset);
    }
  }
}
