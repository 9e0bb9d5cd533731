/**
 * The class-based entry point: `load_env`, the command-line defaults it
 * feeds, and `BasicBot`, whose `run` polls the price and either follows the
 * threshold policy (automatic mode) or dispatches one operator command per
 * iteration (interactive mode). A failed iteration is logged and the loop goes
 * on; it ends when the operator quits or interrupts it.
 */
module TradingBot {
  import opened Wrappers
  import opened Text
  import opened EnvFile
  import opened Exchange
  import opened Policy
  import opened Seqs

  /**
   * `load_env`: the dictionary read from `.env`; a missing file gives the
   * empty dictionary, and the ValueError of a kept line without `=` escapes.
   */
  method LoadEnv(src: EnvSource) returns (r: Result<map<string, string>, ParseError>)
    ensures src.Missing? ==> r == Ok(map[])
    ensures src.Present? ==> r == ParseLines(src.lines)
  {
    match src
    case Missing =>
      r := Ok(map[]);
    case Present(lines) =>
      r := ReadLines(lines);
  }

  /**
   * The value of the `--testnet` switch: on when the switch is given, and
   * otherwise when `USE_TESTNET` is absent from `.env` or spells `true`.
   */
  function TestnetDefault(env: map<string, string>, flagGiven: bool): (on: bool)
    ensures on <==> flagGiven || "USE_TESTNET" !in env || MatchesIgnoringCase(env["USE_TESTNET"], "true")
  {
    TestnetFlagIff(env);
    flagGiven || TestnetFlag(env)
  }

  /** `get_balance`: the positive free balances, or nothing when the account call raised. */
  function GetBalance(reply: AccountReply): (m: map<string, real>)
    ensures reply.AccountFailed? ==> m == map[]
    ensures reply.Account? ==> m == PositiveBalances(reply.balances)
    ensures reply.Account? ==>
              forall a :: a in m <==> exists i :: 0 <= i < |reply.balances| && HeldAt(reply.balances, i, a)
    ensures forall a :: a in m ==> m[a] > 0.0
  {
    match reply
    case AccountFailed => map[]
    case Account(balances) => PositiveBalances(balances)
  }

  /** The operator commands of interactive mode; anything else is `CmdOther`. */
  datatype Command = CmdBuy | CmdSell | CmdOco | CmdStop | CmdQuit | CmdOther

  /** The command of an operator line: the line stripped and lower-cased. */
  function ParseCommand(input: string): Command {
    var command := Lower(Strip(input));
    if command == "b" then CmdBuy
    else if command == "s" then CmdSell
    else if command == "oco" then CmdOco
    else if command == "stop" then CmdStop
    else if command == "q" then CmdQuit
    else CmdOther
  }

  /**
   * A command is recognised whatever the case of its letters and whatever
   * white space surrounds it; every other line is `CmdOther`.
   */
  lemma ParseCommandIgnoresCase(input: string)
    ensures ParseCommand(input) == CmdBuy <==> MatchesIgnoringCase(Strip(input), "b")
    ensures ParseCommand(input) == CmdSell <==> MatchesIgnoringCase(Strip(input), "s")
    ensures ParseCommand(input) == CmdOco <==> MatchesIgnoringCase(Strip(input), "oco")
    ensures ParseCommand(input) == CmdStop <==> MatchesIgnoringCase(Strip(input), "stop")
    ensures ParseCommand(input) == CmdQuit <==> MatchesIgnoringCase(Strip(input), "q")
  {
    var line := Strip(input);
    LowerMatches(line, "b");
    LowerMatches(line, "s");
    LowerMatches(line, "oco");
    LowerMatches(line, "stop");
    LowerMatches(line, "q");
  }

  /** What one pass through the loop body leaves behind. */
  datatype IterResult = IterResult(inPosition: bool, orders: seq<Order>, quit: bool)

  /** Interactive mode: the command decides the call; the position flag is never touched. */
  function UiIteration(inPosition: bool, command: Command, call: OrderCall): IterResult {
    var ok := call == Filled;
    match command
    case CmdBuy => IterResult(inPosition, [Order(MarketBuy, ok)], false)
    case CmdSell => IterResult(inPosition, [Order(MarketSell, ok)], false)
    case CmdOco => IterResult(inPosition, [Order(OcoSell, ok)], false)
    case CmdStop => IterResult(inPosition, [Order(StopLimitSell, ok)], false)
    case CmdQuit => IterResult(inPosition, [], true)
    case CmdOther => IterResult(inPosition, [], false)
  }

  /**
   * An interactive iteration leaves the position alone, ends the loop exactly
   * on `q`, makes one order call for each of the four order commands (a
   * market buy for `b`, a market sell for `s`, an OCO sell for `oco`, a
   * stop-limit sell for `stop`) and nothing else for any other line.
   */
  lemma UiIterationMeaning(inPosition: bool, command: Command, call: OrderCall)
    ensures var r := UiIteration(inPosition, command, call);
            && r.inPosition == inPosition
            && (r.quit <==> command == CmdQuit)
            && (r.orders == [] <==> command == CmdQuit || command == CmdOther)
            && (command == CmdOther ==> r == IterResult(inPosition, [], false))
            && (command == CmdBuy ==> r.orders == [Order(MarketBuy, call == Filled)])
            && (command == CmdSell ==> r.orders == [Order(MarketSell, call == Filled)])
            && (command == CmdOco ==> r.orders == [Order(OcoSell, call == Filled)])
            && (command == CmdStop ==> r.orders == [Order(StopLimitSell, call == Filled)])
            && forall o :: o in r.orders ==> o.ok == (call == Filled)
  {
  }

  /** Automatic mode: the policy decides the market order and its outcome the position. */
  function AutoIteration(inPosition: bool, price: real, buyPrice: real, sellPrice: real, call: OrderCall): IterResult {
    var d := Decide(inPosition, price, buyPrice, sellPrice);
    var ok := call == Filled;
    match d
    case NoAction => IterResult(inPosition, [], false)
    case RequestBuy => IterResult(ApplyOutcome(d, ok, inPosition), [Order(MarketBuy, ok)], false)
    case RequestSell => IterResult(ApplyOutcome(d, ok, inPosition), [Order(MarketSell, ok)], false)
  }

  /**
   * An automatic iteration never quits, makes a market order exactly when the
   * threshold rule asks for one (a buy out of position, a sell in position)
   * and changes the position exactly when that order went through.
   */
  lemma AutoIterationMeaning(inPosition: bool, price: real, buyPrice: real, sellPrice: real, call: OrderCall)
    ensures var r := AutoIteration(inPosition, price, buyPrice, sellPrice, call);
            && !r.quit
            && (r.orders != [] <==> Decide(inPosition, price, buyPrice, sellPrice) != NoAction)
            && (r.inPosition != inPosition <==> r.orders != [] && call == Filled)
            && forall o :: o in r.orders ==> o == Order(if inPosition then MarketSell else MarketBuy, call == Filled)
  {
  }

  /**
   * An iteration as the loop body acts on it: no price (the ticker call
   * raised), or a price with the operator's command and the fate of the
   * iteration's order call.
   */
  datatype Round = NoPrice | Priced(price: real, command: Command, call: OrderCall)

  /** The operator's line of a tick read as a command. */
  function RoundOf(t: Tick): Round {
    match t
    case FetchFailed => NoPrice
    case Quote(price, input, call) => Priced(price, ParseCommand(input), call)
  }

  function Rounds(ticks: seq<Tick>): (rs: seq<Round>)
    ensures |rs| == |ticks| && forall i :: 0 <= i < |ticks| ==> rs[i] == RoundOf(ticks[i])
  {
    seq(|ticks|, i requires 0 <= i < |ticks| => RoundOf(ticks[i]))
  }

  /** One pass through the body of `run`'s loop. */
  function Iteration(buyPrice: real, sellPrice: real, uiMode: bool, inPosition: bool, t: Round): IterResult {
    match t
    case NoPrice => IterResult(inPosition, [], false)
    case Priced(price, command, call) =>
      if uiMode then UiIteration(inPosition, command, call)
      else AutoIteration(inPosition, price, buyPrice, sellPrice, call)
  }

  /**
   * One pass makes at most one order call; a failed fetch changes nothing;
   * only the interactive mode quits, and only it never moves the position; a
   * change of position comes with exactly one successful market order on the
   * closing side.
   */
  lemma IterationMeaning(buyPrice: real, sellPrice: real, uiMode: bool, inPosition: bool, t: Round)
    ensures var r := Iteration(buyPrice, sellPrice, uiMode, inPosition, t);
            && |r.orders| <= 1
            && (t.NoPrice? ==> r == IterResult(inPosition, [], false))
            && (r.quit ==> uiMode && r.orders == [])
            && (uiMode ==> r.inPosition == inPosition)
            && (r.inPosition != inPosition ==> r.orders == [Order(if inPosition then MarketSell else MarketBuy, true)])
            && (!uiMode ==> FilledSides(r.orders) == if r.inPosition == inPosition then [] else [Closing(inPosition)])
  {
  }

  /**
   * The loop over a stream of iterations: the final position, the order calls
   * made, how many iterations ran, and whether the operator quit.
   */
  datatype RunResult = RunResult(inPosition: bool, orders: seq<Order>, consumed: nat, quit: bool)

  function RunOutcome(buyPrice: real, sellPrice: real, uiMode: bool, inPosition: bool, ticks: seq<Round>): (r: RunResult)
    ensures r.consumed <= |ticks|
    ensures |r.orders| <= r.consumed
    ensures r.quit ==> uiMode && r.consumed > 0
    ensures !r.quit ==> r.consumed == |ticks|
    ensures uiMode ==> r.inPosition == inPosition
    decreases |ticks|
  {
    if ticks == [] then RunResult(inPosition, [], 0, false)
    else
      var it := Iteration(buyPrice, sellPrice, uiMode, inPosition, ticks[0]);
      IterationMeaning(buyPrice, sellPrice, uiMode, inPosition, ticks[0]);
      if it.quit then RunResult(inPosition, it.orders, 1, true)
      else
        var rest := RunOutcome(buyPrice, sellPrice, uiMode, it.inPosition, ticks[1..]);
        RunResult(rest.inPosition, it.orders + rest.orders, 1 + rest.consumed, rest.quit)
  }

  /**
   * In automatic mode the successful market orders, appended to an earlier
   * consistent history, keep it consistent: they alternate and the final
   * position is "in" exactly after an odd number of them.
   */
  lemma {:induction false} AutoFillsAlternate(buyPrice: real, sellPrice: real, inPosition: bool, ticks: seq<Round>, prior: seq<Side>)
    requires Consistent(prior, inPosition)
    ensures var r := RunOutcome(buyPrice, sellPrice, false, inPosition, ticks);
            Consistent(prior + FilledSides(r.orders), r.inPosition)
    decreases |ticks|
  {
    var r := RunOutcome(buyPrice, sellPrice, false, inPosition, ticks);
    if ticks == [] {
      assert prior + FilledSides(r.orders) == prior;
    } else {
      var it := Iteration(buyPrice, sellPrice, false, inPosition, ticks[0]);
      var rest := RunOutcome(buyPrice, sellPrice, false, it.inPosition, ticks[1..]);
      var mid := prior + FilledSides(it.orders);
      assert Consistent(mid, it.inPosition) by {
        IterationKeepsConsistent(buyPrice, sellPrice, inPosition, ticks[0], prior);
      }
      assert Consistent(mid + FilledSides(rest.orders), rest.inPosition) by {
        AutoFillsAlternate(buyPrice, sellPrice, it.inPosition, ticks[1..], mid);
      }
      assert r.orders == it.orders + rest.orders && r.inPosition == rest.inPosition;
      FilledSidesAppend(it.orders, rest.orders);
      AppendAssoc(prior, FilledSides(it.orders), FilledSides(rest.orders));
    }
  }

  /** One automatic iteration keeps the trade history consistent with the position. */
  lemma IterationKeepsConsistent(buyPrice: real, sellPrice: real, inPosition: bool, t: Round, prior: seq<Side>)
    requires Consistent(prior, inPosition)
    ensures var it := Iteration(buyPrice, sellPrice, false, inPosition, t);
            Consistent(prior + FilledSides(it.orders), it.inPosition)
  {
    var it := Iteration(buyPrice, sellPrice, false, inPosition, t);
    IterationMeaning(buyPrice, sellPrice, false, inPosition, t);
    if it.inPosition != inPosition {
      ConsistentAfterFlip(prior, inPosition);
    } else {
      assert prior + FilledSides(it.orders) == prior;
    }
  }

  /**
   * Starting out of position, the successful automatic trades of a run are
   * buy, sell, buy, ... and the bot ends in position exactly after a buy.
   */
  lemma AutoRunAlternates(buyPrice: real, sellPrice: real, ticks: seq<Round>)
    ensures var r := RunOutcome(buyPrice, sellPrice, false, false, ticks);
            Alternates(FilledSides(r.orders)) && (r.inPosition <==> |FilledSides(r.orders)| % 2 == 1)
  {
    var r := RunOutcome(buyPrice, sellPrice, false, false, ticks);
    AutoFillsAlternate(buyPrice, sellPrice, false, ticks, []);
    assert [] + FilledSides(r.orders) == FilledSides(r.orders);
    ConsistentIffAlternates(FilledSides(r.orders), r.inPosition);
  }

  predicate IsQuit(t: Round) {
    t.Priced? && t.command == CmdQuit
  }

  /** In interactive mode the first `q` ends the loop: nothing after it is read. */
  lemma {:induction false} QuitEndsRun(buyPrice: real, sellPrice: real, inPosition: bool, ticks: seq<Round>, k: nat)
    requires k < |ticks| && IsQuit(ticks[k])
    requires forall j :: 0 <= j < k ==> !IsQuit(ticks[j])
    ensures var r := RunOutcome(buyPrice, sellPrice, true, inPosition, ticks);
            r.quit && r.consumed == k + 1 && r == RunOutcome(buyPrice, sellPrice, true, inPosition, ticks[..k + 1])
    decreases k
  {
    var it := Iteration(buyPrice, sellPrice, true, inPosition, ticks[0]);
    UiQuitsOnQ(buyPrice, sellPrice, inPosition, ticks[0]);
    assert ticks[..k + 1][0] == ticks[0];
    if k > 0 {
      assert !IsQuit(ticks[0]);
      assert ticks[..k + 1][1..] == ticks[1..][..k];
      assert forall j :: 0 <= j < k - 1 ==> ticks[1..][j] == ticks[j + 1];
      QuitEndsRun(buyPrice, sellPrice, inPosition, ticks[1..], k - 1);
    }
  }

  /** An interactive pass quits exactly on `q`, and keeps the position. */
  lemma UiQuitsOnQ(buyPrice: real, sellPrice: real, inPosition: bool, t: Round)
    ensures var it := Iteration(buyPrice, sellPrice, true, inPosition, t);
            (it.quit <==> IsQuit(t)) && it.inPosition == inPosition
  {
  }

  /**
   * In interactive mode the loop quits only on a `q`: a quitting run's last
   * iteration read `q`, and none before it did.
   */
  lemma {:induction false} QuitOnlyOnQ(buyPrice: real, sellPrice: real, inPosition: bool, ticks: seq<Round>)
    ensures var r := RunOutcome(buyPrice, sellPrice, true, inPosition, ticks);
            r.quit ==> IsQuit(ticks[r.consumed - 1]) && forall j :: 0 <= j < r.consumed - 1 ==> !IsQuit(ticks[j])
    decreases |ticks|
  {
    var r := RunOutcome(buyPrice, sellPrice, true, inPosition, ticks);
    if ticks != [] {
      var it := Iteration(buyPrice, sellPrice, true, inPosition, ticks[0]);
      UiQuitsOnQ(buyPrice, sellPrice, inPosition, ticks[0]);
      if !it.quit {
        var rest := RunOutcome(buyPrice, sellPrice, true, inPosition, ticks[1..]);
        assert r.quit == rest.quit && r.consumed == 1 + rest.consumed;
        QuitOnlyOnQ(buyPrice, sellPrice, inPosition, ticks[1..]);
        if r.quit {
          assert ticks[r.consumed - 1] == ticks[1..][rest.consumed - 1];
          assert forall j :: 1 <= j < r.consumed - 1 ==> ticks[j] == ticks[1..][j - 1];
        }
      }
    }
  }

  /** An interactive run quits exactly when its stream holds a `q`. */
  lemma {:induction false} QuitIffSomeQ(buyPrice: real, sellPrice: real, inPosition: bool, ticks: seq<Round>)
    ensures RunOutcome(buyPrice, sellPrice, true, inPosition, ticks).quit <==> exists k :: 0 <= k < |ticks| && IsQuit(ticks[k])
    decreases |ticks|
  {
    if ticks != [] {
      var it := Iteration(buyPrice, sellPrice, true, inPosition, ticks[0]);
      UiQuitsOnQ(buyPrice, sellPrice, inPosition, ticks[0]);
      if !it.quit {
        QuitIffSomeQ(buyPrice, sellPrice, inPosition, ticks[1..]);
        assert forall k :: 1 <= k < |ticks| ==> ticks[1..][k - 1] == ticks[k];
      }
    }
  }

  /**
   * After `i` iterations that made the calls `orders`, finishing the loop from
   * the position `inPosition` gives the whole run `total`.
   */
  ghost predicate Resumes(total: RunResult, buyPrice: real, sellPrice: real, uiMode: bool,
                          inPosition: bool, ticks: seq<Round>, i: nat, orders: seq<Order>)
    requires i <= |ticks|
  {
    var rest := RunOutcome(buyPrice, sellPrice, uiMode, inPosition, ticks[i..]);
    total == RunResult(rest.inPosition, orders + rest.orders, i + rest.consumed, rest.quit)
  }

  /** One more iteration keeps `Resumes`, or, if it quits, completes the run. */
  lemma ResumesStep(total: RunResult, buyPrice: real, sellPrice: real, uiMode: bool,
                    inPosition: bool, ticks: seq<Round>, i: nat, orders: seq<Order>)
    requires i < |ticks| && Resumes(total, buyPrice, sellPrice, uiMode, inPosition, ticks, i, orders)
    ensures var it := Iteration(buyPrice, sellPrice, uiMode, inPosition, ticks[i]);
            if it.quit then total == RunResult(it.inPosition, orders + it.orders, i + 1, true)
            else Resumes(total, buyPrice, sellPrice, uiMode, it.inPosition, ticks, i + 1, orders + it.orders)
  {
    var it := Iteration(buyPrice, sellPrice, uiMode, inPosition, ticks[i]);
    assert ticks[i..][0] == ticks[i];
    assert ticks[i..][1..] == ticks[i + 1..];
    var rest := RunOutcome(buyPrice, sellPrice, uiMode, it.inPosition, ticks[i + 1..]);
    AppendAssoc(orders, it.orders, rest.orders);
  }

  /** `BasicBot`: the configuration it was built with and its position flag. */
  class BasicBot {
    const symbol: string
    const buyPrice: real
    const sellPrice: real
    const quantity: real
    const testnet: bool
    var inPosition: bool

    /** `__init__`: the client is not modelled; the bot starts out of position. */
    constructor (symbol: string, buyPrice: real, sellPrice: real, quantity: real, testnet: bool)
      ensures this.symbol == symbol && this.buyPrice == buyPrice && this.sellPrice == sellPrice
      ensures this.quantity == quantity && this.testnet == testnet
      ensures !inPosition
    {
      this.symbol := symbol;
      this.buyPrice := buyPrice;
      this.sellPrice := sellPrice;
      this.quantity := quantity;
      this.testnet := testnet;
      inPosition := false;
    }

    /**
     * `execute_trade`: the market buy or market sell call, chosen by `isBuy`,
     * and whether it returned (`order.ok`, the True or False the method returns).
     */
    method ExecuteTrade(isBuy: bool, call: OrderCall) returns (order: Order)
      ensures order.kind == (if isBuy then MarketBuy else MarketSell)
      ensures order.ok <==> call == Filled
    {
      var kind := if isBuy then MarketBuy else MarketSell;
      match call
      case Filled => order := Order(kind, true);
      case Raised => order := Order(kind, false);
    }

    /**
     * The interactive branch of the loop body: the command read from the
     * operator picks one call, or ends the loop. It has no `modifies` clause:
     * it cannot change the position flag.
     */
    method Dispatch(input: string, call: OrderCall) returns (orders: seq<Order>, quit: bool)
      ensures var r := UiIteration(inPosition, ParseCommand(input), call);
              orders == r.orders && quit == r.quit
    {
      orders, quit := [], false;
      var command := Lower(Strip(input));
      if command == "b" {
        var order := ExecuteTrade(true, call);
        orders := [order];
      } else if command == "s" {
        var order := ExecuteTrade(false, call);
        orders := [order];
      } else if command == "oco" {
        orders := [Order(OcoSell, call == Filled)];
      } else if command == "stop" {
        orders := [Order(StopLimitSell, call == Filled)];
      } else if command == "q" {
        quit := true;
      }
    }

    /** The automatic branch of the loop body: the threshold rule and its market order. */
    method FollowPolicy(price: real, call: OrderCall) returns (orders: seq<Order>)
      modifies this`inPosition
      ensures var r := AutoIteration(old(inPosition), price, buyPrice, sellPrice, call);
              inPosition == r.inPosition && orders == r.orders
    {
      orders := [];
      if !inPosition && price < buyPrice {
        var order := ExecuteTrade(true, call);
        orders := [order];
        if order.ok {
          inPosition := true;
        }
      } else if inPosition && price > sellPrice {
        var order := ExecuteTrade(false, call);
        orders := [order];
        if order.ok {
          inPosition := false;
        }
      }
    }

    /** The body of `run`'s `while True` loop, once. */
    method Iterate(uiMode: bool, tick: Tick) returns (orders: seq<Order>, quit: bool)
      modifies this`inPosition
      ensures var r := Iteration(buyPrice, sellPrice, uiMode, old(inPosition), RoundOf(tick));
              inPosition == r.inPosition && orders == r.orders && quit == r.quit
    {
      orders, quit := [], false;
      match tick
      case FetchFailed =>
        // the ticker call raised: the error is logged and the loop goes on
      case Quote(price, input, call) =>
        if uiMode {
          orders, quit := Dispatch(input, call);
        } else {
          orders := FollowPolicy(price, call);
        }
    }

    /**
     * `run`: the loop over the iterations `ticks`, until the operator quits or
     * the stream ends (the interrupt). Returns the order calls it made and the
     * number of iterations it ran.
     */
    method Run(uiMode: bool, ticks: seq<Tick>) returns (orders: seq<Order>, consumed: nat)
      modifies this`inPosition
      ensures var r := RunOutcome(buyPrice, sellPrice, uiMode, old(inPosition), Rounds(ticks));
              inPosition == r.inPosition && orders == r.orders && consumed == r.consumed
    {
      orders, consumed := [], 0;
      ghost var rounds := Rounds(ticks);
      ghost var total := RunOutcome(buyPrice, sellPrice, uiMode, inPosition, rounds);
      assert rounds[0..] == rounds;
      while consumed < |ticks|
        invariant consumed <= |ticks|
        invariant Resumes(total, buyPrice, sellPrice, uiMode, inPosition, rounds, consumed, orders)
      {
        ResumesStep(total, buyPrice, sellPrice, uiMode, inPosition, rounds, consumed, orders);
        var step, quit := Iterate(uiMode, ticks[consumed]);
        orders := orders + step;
        consumed := consumed + 1;
        if quit {
          // the operator typed `q`: break
          assert total == RunResult(inPosition, orders, consumed, true);
          return;
        }
      }
      assert rounds[consumed..] == [];
      assert total == RunResult(inPosition, orders, consumed, false) by {
        assert orders + [] == orders;
      }
    }
  }
}
