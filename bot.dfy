/**
 * The script entry point: `load_config` with its built-in testnet defaults,
 * the settings the script looks up, `execute_safe_trade` and `send_alert`,
 * and `run_bot`, whose loop follows the threshold policy and raises an alert
 * for every failed trade, every completed trade and a crash. Unlike the class
 * bot, a failed price fetch is not caught inside the loop: it ends the run.
 */
module Bot {
  import opened Wrappers
  import opened Text
  import opened EnvFile
  import opened Exchange
  import opened Policy
  import opened Seqs

  /** The configuration `load_config` falls back to when `.env` does not exist. */
  function DefaultConfig(): map<string, string> {
    map[
      "BINANCE_API_KEY" := "your_testnet_key",
      "BINANCE_API_SECRET" := "your_testnet_secret",
      "USE_TESTNET" := "True",
      "SYMBOL" := "BTCUSDT",
      "BUY_THRESHOLD" := "60000",
      "SELL_THRESHOLD" := "68000",
      "TRADE_QUANTITY" := "0.001"
    ]
  }

  /**
   * `load_config`: the dictionary read from `.env`, or the defaults when the
   * file does not exist; only the missing file is caught, so the ValueError
   * of a kept line without `=` escapes.
   */
  method LoadConfig(src: EnvSource) returns (r: Result<map<string, string>, ParseError>)
    ensures src.Missing? ==> r == Ok(DefaultConfig())
    ensures src.Present? ==> r == ParseLines(src.lines)
  {
    match src
    case Missing =>
      r := Ok(DefaultConfig());
    case Present(lines) =>
      r := ReadLines(lines);
  }

  /**
   * The keys the script reads with `config[...]`, in the order it reads them:
   * the client's credentials at start-up, then the trading settings in `run_bot`.
   */
  const RequiredKeys: seq<string> :=
    ["BINANCE_API_KEY", "BINANCE_API_SECRET", "SYMBOL", "BUY_THRESHOLD", "SELL_THRESHOLD", "TRADE_QUANTITY"]

  /** The index in `keys` of the first key absent from `config` (its KeyError), if any. */
  function FirstMissingKey(config: map<string, string>, keys: seq<string>): (r: Option<nat>)
    ensures r.None? <==> forall i :: 0 <= i < |keys| ==> keys[i] in config
    ensures r.Some? ==>
              && r.value < |keys| && keys[r.value] !in config
              && forall j :: 0 <= j < r.value ==> keys[j] in config
    decreases |keys|
  {
    if keys == [] then None
    else if keys[0] !in config then Some(0)
    else
      assert forall j :: 1 <= j < |keys| ==> keys[1..][j - 1] == keys[j];
      match FirstMissingKey(config, keys[1..])
      case None => None
      case Some(i) => Some(i + 1)
  }

  /**
   * The defaults hold every key the script reads, and the client they build
   * talks to the testnet.
   */
  lemma DefaultConfigIsComplete()
    ensures FirstMissingKey(DefaultConfig(), RequiredKeys).None?
    ensures TestnetFlag(DefaultConfig())
  {
    var m := DefaultConfig();
    assert forall i :: 0 <= i < |RequiredKeys| ==> RequiredKeys[i] in m;
    assert Get(m, "USE_TESTNET", "True") == "True";
    assert Lower("True") == "true";
  }

  /**
   * `get_account_balance`: the positive free balances, or nothing when the
   * account call raised; that exception is not caught here.
   */
  function GetAccountBalance(reply: AccountReply): (r: Option<map<string, real>>)
    ensures r.None? <==> reply.AccountFailed?
    ensures r.Some? ==> r.value == PositiveBalances(reply.balances)
    ensures r.Some? ==>
              && (forall a :: a in r.value <==> exists i :: 0 <= i < |reply.balances| && HeldAt(reply.balances, i, a))
              && forall a :: a in r.value ==> r.value[a] > 0.0
  {
    match reply
    case AccountFailed => None
    case Account(balances) => Some(PositiveBalances(balances))
  }

  /** The alerts the script raises; a message's text is not modelled, only what it names. */
  datatype Alert =
    | TradeFailed(symbol: string, quantity: real, isBuy: bool)
    | Bought(quantity: real, symbol: string, price: real)
    | Sold(quantity: real, symbol: string, price: real)
    | BotCrashed

  /** `send_alert` writes to the log; the log is modelled as the list of alerts sent so far. */
  class AlertLog {
    var alerts: seq<Alert>

    constructor ()
      ensures alerts == []
    {
      alerts := [];
    }

    method Send(a: Alert)
      modifies this
      ensures alerts == old(alerts) + [a]
    {
      alerts := alerts + [a];
    }
  }

  /**
   * The script's exchange client: only its market order calls are modelled,
   * as the list of orders sent to it, each with whether the call returned.
   */
  class Client {
    var orders: seq<Order>

    constructor ()
      ensures orders == []
    {
      orders := [];
    }

    /**
     * `order_market_buy` when `isBuy`, `order_market_sell` otherwise; `call`
     * says whether it returned, and the call is recorded either way.
     */
    method MarketOrder(isBuy: bool, call: OrderCall) returns (ok: bool)
      modifies this
      ensures ok <==> call == Filled
      ensures orders == old(orders) + [Order(if isBuy then MarketBuy else MarketSell, ok)]
    {
      ok := call == Filled;
      orders := orders + [Order(if isBuy then MarketBuy else MarketSell, ok)];
    }
  }

  /**
   * `execute_safe_trade`: one market order call on the side `isBuy` picks;
   * True when it returned; when it raised, the failure is alerted and False
   * is returned.
   */
  method ExecuteSafeTrade(log: AlertLog, client: Client, symbol: string, quantity: real, isBuy: bool, call: OrderCall)
    returns (ok: bool)
    modifies log, client
    ensures ok <==> call == Filled
    ensures client.orders == old(client.orders) + [Order(if isBuy then MarketBuy else MarketSell, ok)]
    ensures log.alerts == old(log.alerts) + if ok then [] else [TradeFailed(symbol, quantity, isBuy)]
  {
    ok := client.MarketOrder(isBuy, call);
    if !ok {
      log.Send(TradeFailed(symbol, quantity, isBuy));
    }
  }

  /** The trading settings of `run_bot`, the thresholds and the quantity already numbers. */
  datatype TradeConfig = TradeConfig(symbol: string, buyPrice: real, sellPrice: real, quantity: real)

  /** The position, the order calls and the alerts of the trading logic of one iteration. */
  datatype TradeResult = TradeResult(inPosition: bool, orders: seq<Order>, alerts: seq<Alert>)

  /** The trading logic of one iteration at `price`. */
  function Trade(cfg: TradeConfig, inPosition: bool, price: real, call: OrderCall): TradeResult {
    var d := Decide(inPosition, price, cfg.buyPrice, cfg.sellPrice);
    var ok := call == Filled;
    match d
    case NoAction => TradeResult(inPosition, [], [])
    case RequestBuy =>
      TradeResult(ApplyOutcome(d, ok, inPosition), [Order(MarketBuy, ok)],
                  [if ok then Bought(cfg.quantity, cfg.symbol, price) else TradeFailed(cfg.symbol, cfg.quantity, true)])
    case RequestSell =>
      TradeResult(ApplyOutcome(d, ok, inPosition), [Order(MarketSell, ok)],
                  [if ok then Sold(cfg.quantity, cfg.symbol, price) else TradeFailed(cfg.symbol, cfg.quantity, false)])
  }

  /**
   * A trade is attempted exactly when the threshold rule asks for one, as one
   * market order call on the closing side; every attempt raises exactly one
   * alert, its failure or its completion; only a completed trade flips the
   * position.
   */
  lemma TradeMeaning(cfg: TradeConfig, inPosition: bool, price: real, call: OrderCall)
    ensures var r := Trade(cfg, inPosition, price, call);
            && r.orders == (if Decide(inPosition, price, cfg.buyPrice, cfg.sellPrice) == NoAction then []
                            else [Order(if inPosition then MarketSell else MarketBuy, call == Filled)])
            && |r.alerts| == |r.orders|
            && (r.inPosition != inPosition <==> r.alerts != [] && call == Filled)
            && forall a :: a in r.alerts ==>
                 a == if call == Raised then TradeFailed(cfg.symbol, cfg.quantity, !inPosition)
                      else if inPosition then Sold(cfg.quantity, cfg.symbol, price)
                      else Bought(cfg.quantity, cfg.symbol, price)
  {
  }

  /** The sides of the completed trades that `alerts` announce, in order. */
  function TradeSides(alerts: seq<Alert>): (sides: seq<Side>)
    ensures |sides| <= |alerts|
  {
    if alerts == [] then []
    else
      (match alerts[0]
       case Bought(_, _, _) => [Buy]
       case Sold(_, _, _) => [Sell]
       case _ => []) + TradeSides(alerts[1..])
  }

  lemma {:induction false} TradeSidesAppend(a: seq<Alert>, b: seq<Alert>)
    ensures TradeSides(a + b) == TradeSides(a) + TradeSides(b)
    decreases |a|
  {
    if a != [] {
      assert (a + b)[1..] == a[1..] + b;
      TradeSidesAppend(a[1..], b);
    } else {
      assert a + b == b;
    }
  }

  /** One iteration's trading keeps the announced trades consistent with the position. */
  lemma TradeKeepsConsistent(cfg: TradeConfig, inPosition: bool, price: real, call: OrderCall, prior: seq<Side>)
    requires Consistent(prior, inPosition)
    ensures var t := Trade(cfg, inPosition, price, call);
            Consistent(prior + TradeSides(t.alerts), t.inPosition)
  {
    var t := Trade(cfg, inPosition, price, call);
    TradeMeaning(cfg, inPosition, price, call);
    if t.inPosition != inPosition {
      assert TradeSides(t.alerts) == [Closing(inPosition)];
      ConsistentAfterFlip(prior, inPosition);
    } else {
      assert TradeSides(t.alerts) == [];
      assert prior + TradeSides(t.alerts) == prior;
    }
  }

  /**
   * The `while True` loop over the iterations `ticks`, with the handlers
   * around it: the final position, the alerts raised, how many iterations
   * ran, and whether the loop crashed.
   */
  datatype LoopResult = LoopResult(inPosition: bool, orders: seq<Order>, alerts: seq<Alert>, consumed: nat, crashed: bool)

  function Loop(cfg: TradeConfig, inPosition: bool, ticks: seq<Tick>): (r: LoopResult)
    ensures r.consumed <= |ticks|
    ensures |r.orders| <= r.consumed
    ensures !r.crashed ==> r.consumed == |ticks|
    ensures r.crashed ==> r.consumed > 0
    decreases |ticks|
  {
    if ticks == [] then LoopResult(inPosition, [], [], 0, false)
    else
      match ticks[0]
      case FetchFailed => LoopResult(inPosition, [], [BotCrashed], 1, true)
      case Quote(price, _, call) =>
        var t := Trade(cfg, inPosition, price, call);
        var rest := Loop(cfg, t.inPosition, ticks[1..]);
        LoopResult(rest.inPosition, t.orders + rest.orders, t.alerts + rest.alerts, 1 + rest.consumed, rest.crashed)
  }

  /** The loop crashes exactly when some price fetch fails. */
  lemma {:induction false} CrashIffFetchFailed(cfg: TradeConfig, inPosition: bool, ticks: seq<Tick>)
    ensures Loop(cfg, inPosition, ticks).crashed <==> exists k :: 0 <= k < |ticks| && ticks[k].FetchFailed?
    decreases |ticks|
  {
    if ticks != [] && ticks[0].Quote? {
      var t := Trade(cfg, inPosition, ticks[0].price, ticks[0].call);
      CrashIffFetchFailed(cfg, t.inPosition, ticks[1..]);
      assert forall k :: 1 <= k < |ticks| ==> ticks[1..][k - 1] == ticks[k];
    }
  }

  /** The crash alert is raised only by a crash, and then as the last alert. */
  lemma {:induction false} CrashAlertIsLast(cfg: TradeConfig, inPosition: bool, ticks: seq<Tick>)
    ensures var r := Loop(cfg, inPosition, ticks);
            && (r.crashed ==> r.alerts != [])
            && forall i :: 0 <= i < |r.alerts| ==> (r.alerts[i] == BotCrashed <==> r.crashed && i == |r.alerts| - 1)
    decreases |ticks|
  {
    if ticks != [] && ticks[0].Quote? {
      var t := Trade(cfg, inPosition, ticks[0].price, ticks[0].call);
      var rest := Loop(cfg, t.inPosition, ticks[1..]);
      CrashAlertIsLast(cfg, t.inPosition, ticks[1..]);
      assert BotCrashed !in t.alerts by {
        TradeMeaning(cfg, inPosition, ticks[0].price, ticks[0].call);
      }
      CrashAlertAfter(t.alerts, rest.alerts, rest.crashed);
    }
  }

  /** Alerts without the crash alert, put before a list whose crash alert is last, keep it last. */
  lemma CrashAlertAfter(first: seq<Alert>, last: seq<Alert>, crashed: bool)
    requires BotCrashed !in first && (crashed ==> last != [])
    requires forall i :: 0 <= i < |last| ==> (last[i] == BotCrashed <==> crashed && i == |last| - 1)
    ensures var all := first + last;
            forall i :: 0 <= i < |all| ==> (all[i] == BotCrashed <==> crashed && i == |all| - 1)
  {
    var all := first + last;
    forall i | 0 <= i < |all|
      ensures all[i] == BotCrashed <==> crashed && i == |all| - 1
    {
      if i < |first| {
        assert all[i] in first;
      } else {
        assert all[i] == last[i - |first|];
      }
    }
  }

  /**
   * The loop runs up to and including the first failed fetch and reads
   * nothing after it.
   */
  lemma {:induction false} CrashEndsLoop(cfg: TradeConfig, inPosition: bool, ticks: seq<Tick>, k: nat)
    requires k < |ticks| && ticks[k].FetchFailed?
    requires forall j :: 0 <= j < k ==> ticks[j].Quote?
    ensures var r := Loop(cfg, inPosition, ticks);
            r.crashed && r.consumed == k + 1 && r == Loop(cfg, inPosition, ticks[..k + 1])
    decreases k
  {
    assert ticks[..k + 1][0] == ticks[0];
    if k > 0 {
      var t := Trade(cfg, inPosition, ticks[0].price, ticks[0].call);
      assert ticks[..k + 1][1..] == ticks[1..][..k];
      assert forall j :: 0 <= j < k - 1 ==> ticks[1..][j] == ticks[j + 1];
      CrashEndsLoop(cfg, t.inPosition, ticks[1..], k - 1);
    }
  }

  /** One iteration announces a completed trade exactly for its filled market order. */
  lemma TradeAnnouncesFill(cfg: TradeConfig, inPosition: bool, price: real, call: OrderCall)
    ensures var t := Trade(cfg, inPosition, price, call);
            TradeSides(t.alerts) == FilledSides(t.orders)
  {
  }

  /**
   * The completed trades the loop announces are exactly its filled market
   * orders, in order: a `Bought`/`Sold` alert is sent for each and no other.
   */
  lemma {:induction false} LoopAnnouncesFills(cfg: TradeConfig, inPosition: bool, ticks: seq<Tick>)
    ensures var r := Loop(cfg, inPosition, ticks);
            TradeSides(r.alerts) == FilledSides(r.orders)
    decreases |ticks|
  {
    if ticks != [] && ticks[0].Quote? {
      var t := Trade(cfg, inPosition, ticks[0].price, ticks[0].call);
      var rest := Loop(cfg, t.inPosition, ticks[1..]);
      LoopAnnouncesFills(cfg, t.inPosition, ticks[1..]);
      TradeAnnouncesFill(cfg, inPosition, ticks[0].price, ticks[0].call);
      TradeSidesAppend(t.alerts, rest.alerts);
      FilledSidesAppend(t.orders, rest.orders);
    } else if ticks != [] {
      assert TradeSides([BotCrashed]) == [] by {
        assert [BotCrashed][1..] == [];
      }
    }
  }

  /** The completed trades the loop announces, after a consistent history, keep it consistent. */
  lemma {:induction false} LoopKeepsConsistent(cfg: TradeConfig, inPosition: bool, ticks: seq<Tick>, prior: seq<Side>)
    requires Consistent(prior, inPosition)
    ensures var r := Loop(cfg, inPosition, ticks);
            Consistent(prior + TradeSides(r.alerts), r.inPosition)
    decreases |ticks|, 1
  {
    if ticks != [] && ticks[0].Quote? {
      QuoteKeepsConsistent(cfg, inPosition, ticks, prior);
    } else {
      var r := Loop(cfg, inPosition, ticks);
      assert TradeSides(r.alerts) == [];
      assert prior + TradeSides(r.alerts) == prior;
    }
  }

  /** `LoopKeepsConsistent` for a loop whose first fetch succeeds. */
  lemma {:induction false} QuoteKeepsConsistent(cfg: TradeConfig, inPosition: bool, ticks: seq<Tick>, prior: seq<Side>)
    requires ticks != [] && ticks[0].Quote? && Consistent(prior, inPosition)
    ensures var r := Loop(cfg, inPosition, ticks);
            Consistent(prior + TradeSides(r.alerts), r.inPosition)
    decreases |ticks|, 0
  {
    var r := Loop(cfg, inPosition, ticks);
    var t := Trade(cfg, inPosition, ticks[0].price, ticks[0].call);
    var rest := Loop(cfg, t.inPosition, ticks[1..]);
    var mid := prior + TradeSides(t.alerts);
    assert Consistent(mid, t.inPosition) by {
      TradeKeepsConsistent(cfg, inPosition, ticks[0].price, ticks[0].call, prior);
    }
    assert Consistent(mid + TradeSides(rest.alerts), rest.inPosition) by {
      LoopKeepsConsistent(cfg, t.inPosition, ticks[1..], mid);
    }
    assert r.alerts == t.alerts + rest.alerts && r.inPosition == rest.inPosition;
    TradeSidesAppend(t.alerts, rest.alerts);
    AppendAssoc(prior, TradeSides(t.alerts), TradeSides(rest.alerts));
  }

  /** How `run_bot` ends: interrupted by the operator, crashed in the loop, or failed before it. */
  datatype Ending = StoppedByUser | Crashed | FailedAtStartup

  datatype Outcome = Outcome(ending: Ending, inPosition: bool, orders: seq<Order>, alerts: seq<Alert>, consumed: nat)

  /**
   * `run_bot`: the balance is fetched before the loop's `try`, so a failing
   * account call ends the run with no alert; otherwise the loop runs from
   * out of position.
   */
  function Session(cfg: TradeConfig, account: AccountReply, ticks: seq<Tick>): (o: Outcome)
    ensures o.ending == FailedAtStartup <==> account.AccountFailed?
    ensures o.ending == FailedAtStartup ==> o == Outcome(FailedAtStartup, false, [], [], 0)
    ensures o.consumed <= |ticks|
    ensures |o.orders| <= o.consumed
    ensures o.ending == StoppedByUser ==> o.consumed == |ticks|
  {
    if GetAccountBalance(account).None? then Outcome(FailedAtStartup, false, [], [], 0)
    else
      var r := Loop(cfg, false, ticks);
      Outcome(if r.crashed then Crashed else StoppedByUser, r.inPosition, r.orders, r.alerts, r.consumed)
  }

  /**
   * Every run's announced trades are buy, sell, buy, ... and the bot ends in
   * position exactly after an odd number of them, and they are exactly its
   * filled market orders; a crash alert is raised exactly when a price fetch
   * failed, as the last alert.
   */
  lemma SessionAlerts(cfg: TradeConfig, account: AccountReply, ticks: seq<Tick>)
    ensures var o := Session(cfg, account, ticks);
            && Alternates(TradeSides(o.alerts))
            && (o.inPosition <==> |TradeSides(o.alerts)| % 2 == 1)
            && (o.ending == Crashed <==> account.Account? && exists k :: 0 <= k < |ticks| && ticks[k].FetchFailed?)
            && (o.ending == Crashed <==> BotCrashed in o.alerts)
            && (o.ending == Crashed ==> o.alerts[|o.alerts| - 1] == BotCrashed)
            && TradeSides(o.alerts) == FilledSides(o.orders)
  {
    if account.Account? {
      var r := Loop(cfg, false, ticks);
      assert Session(cfg, account, ticks).alerts == r.alerts;
      assert TradeSides(r.alerts) == FilledSides(r.orders) by {
        LoopAnnouncesFills(cfg, false, ticks);
      }
      assert r.crashed <==> exists k :: 0 <= k < |ticks| && ticks[k].FetchFailed? by {
        CrashIffFetchFailed(cfg, false, ticks);
      }
      assert Alternates(TradeSides(r.alerts)) && (r.inPosition <==> |TradeSides(r.alerts)| % 2 == 1) by {
        LoopKeepsConsistent(cfg, false, ticks, []);
        assert [] + TradeSides(r.alerts) == TradeSides(r.alerts);
        ConsistentIffAlternates(TradeSides(r.alerts), r.inPosition);
      }
      assert (r.crashed <==> BotCrashed in r.alerts) && (r.crashed ==> r.alerts[|r.alerts| - 1] == BotCrashed) by {
        CrashAlertIsLast(cfg, false, ticks);
        if BotCrashed in r.alerts {
          var i :| 0 <= i < |r.alerts| && r.alerts[i] == BotCrashed;
        }
        if r.crashed {
          assert r.alerts[|r.alerts| - 1] in r.alerts;
        }
      }
    }
  }

  /**
   * After `i` iterations that made the order calls `made` and raised `sent`,
   * finishing the loop from the position `inPosition` gives the whole loop `total`.
   */
  ghost predicate Resumes(total: LoopResult, cfg: TradeConfig, inPosition: bool, ticks: seq<Tick>, i: nat,
                          made: seq<Order>, sent: seq<Alert>)
    requires i <= |ticks|
  {
    var rest := Loop(cfg, inPosition, ticks[i..]);
    total == LoopResult(rest.inPosition, made + rest.orders, sent + rest.alerts, i + rest.consumed, rest.crashed)
  }

  /** One more iteration keeps `Resumes`, or, if its fetch fails, completes the loop with the crash. */
  lemma ResumesStep(total: LoopResult, cfg: TradeConfig, inPosition: bool, ticks: seq<Tick>, i: nat,
                    made: seq<Order>, sent: seq<Alert>)
    requires i < |ticks| && Resumes(total, cfg, inPosition, ticks, i, made, sent)
    ensures ticks[i].FetchFailed? ==> total == LoopResult(inPosition, made, sent + [BotCrashed], i + 1, true)
    ensures ticks[i].Quote? ==>
              var t := Trade(cfg, inPosition, ticks[i].price, ticks[i].call);
              Resumes(total, cfg, t.inPosition, ticks, i + 1, made + t.orders, sent + t.alerts)
  {
    assert ticks[i..][0] == ticks[i];
    assert ticks[i..][1..] == ticks[i + 1..];
    if ticks[i].Quote? {
      var t := Trade(cfg, inPosition, ticks[i].price, ticks[i].call);
      var rest := Loop(cfg, t.inPosition, ticks[i + 1..]);
      AppendAssoc(made, t.orders, rest.orders);
      AppendAssoc(sent, t.alerts, rest.alerts);
    } else {
      assert made + [] == made;
    }
  }

  /** The trading logic of `run_bot`'s loop body at `price`, as written there. */
  method TradeOnce(log: AlertLog, client: Client, cfg: TradeConfig, inPosition: bool, price: real, call: OrderCall)
    returns (next: bool)
    modifies log, client
    ensures var t := Trade(cfg, inPosition, price, call);
            && next == t.inPosition
            && client.orders == old(client.orders) + t.orders
            && log.alerts == old(log.alerts) + t.alerts
  {
    next := inPosition;
    if !inPosition && price < cfg.buyPrice {
      var ok := ExecuteSafeTrade(log, client, cfg.symbol, cfg.quantity, true, call);
      if ok {
        next := true;
        log.Send(Bought(cfg.quantity, cfg.symbol, price));
      }
    } else if inPosition && price > cfg.sellPrice {
      var ok := ExecuteSafeTrade(log, client, cfg.symbol, cfg.quantity, false, call);
      if ok {
        next := false;
        log.Send(Sold(cfg.quantity, cfg.symbol, price));
      }
    }
  }

  /**
   * The `try` statement of `run_bot`: the loop from out of position and its
   * two handlers, the end of the stream standing for the operator's interrupt.
   */
  method TradingLoop(log: AlertLog, client: Client, cfg: TradeConfig, ticks: seq<Tick>)
    returns (crashed: bool, consumed: nat)
    modifies log, client
    ensures var r := Loop(cfg, false, ticks);
            && crashed == r.crashed && consumed == r.consumed
            && client.orders == old(client.orders) + r.orders
            && log.alerts == old(log.alerts) + r.alerts
  {
    ghost var start := log.alerts;
    ghost var startOrders := client.orders;
    ghost var made: seq<Order> := [];
    ghost var sent: seq<Alert> := [];
    ghost var total := Loop(cfg, false, ticks);
    var inPosition := false;
    crashed := false;
    consumed := 0;
    assert ticks[0..] == ticks;
    while consumed < |ticks|
      invariant consumed <= |ticks|
      invariant log.alerts == start + sent
      invariant client.orders == startOrders + made
      invariant !crashed && Resumes(total, cfg, inPosition, ticks, consumed, made, sent)
    {
      ResumesStep(total, cfg, inPosition, ticks, consumed, made, sent);
      match ticks[consumed]
      case FetchFailed =>
        // the ticker call raised: the exception leaves the loop
        crashed := true;
        consumed := consumed + 1;
        assert total == LoopResult(inPosition, made, sent + [BotCrashed], consumed, true);
        break;
      case Quote(price, _, call) =>
        ghost var t := Trade(cfg, inPosition, price, call);
        inPosition := TradeOnce(log, client, cfg, inPosition, price, call);
        AppendAssoc(startOrders, made, t.orders);
        AppendAssoc(start, sent, t.alerts);
        made := made + t.orders;
        sent := sent + t.alerts;
        consumed := consumed + 1;
    }
    if crashed {
      log.Send(BotCrashed);
      AppendAssoc(start, sent, [BotCrashed]);
    } else {
      assert ticks[consumed..] == [];
      assert total == LoopResult(inPosition, made, sent, consumed, false) by {
        assert made + [] == made && sent + [] == sent;
      }
    }
  }

  /**
   * `run_bot` over the account reply and the iterations `ticks`: the order
   * calls and alerts it makes, how it ends and how many iterations it ran.
   */
  method RunBot(log: AlertLog, client: Client, cfg: TradeConfig, account: AccountReply, ticks: seq<Tick>)
    returns (ending: Ending, consumed: nat)
    modifies log, client
    ensures var o := Session(cfg, account, ticks);
            && ending == o.ending && consumed == o.consumed
            && client.orders == old(client.orders) + o.orders
            && log.alerts == old(log.alerts) + o.alerts
  {
    var balance := GetAccountBalance(account);
    if balance.None? {
      // the exception propagates out of `run_bot`
      return FailedAtStartup, 0;
    }
    var crashed;
    crashed, consumed := TradingLoop(log, client, cfg, ticks);
    ending := if crashed then Crashed else StoppedByUser;
  }
}
