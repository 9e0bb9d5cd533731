# Binance trading bot: configuration reader, position policy and alerts

This project models the logic of a small Binance trading bot that can be
stated apart from the exchange. The bot ships as two near-identical entry
points:

- `trading_bot.py` holds the class `BasicBot`. Its `run` loop polls the price
  and either follows a threshold policy (automatic mode) or dispatches one
  operator command per iteration (interactive mode). A failed iteration is
  logged and the loop goes on.
- `bot.py` is a script. Its `run_bot` loop follows the same policy and sends
  alerts. Any exception inside its loop other than the interrupt ends the run
  with a crash alert.

Both entry points read a `.env` file with the same loop. `wrappers.dfy` holds
`Option`/`Result` and one sequence lemma. The other files are:

- `text.dfy`: Python's `strip`, `lower` and `split('=', 1)` on strings.
- `env_file.dfy`: the shared `.env` reader, written once, and the
  `USE_TESTNET` flag.
- `exchange.dfy`: the exchange as inputs, and the balance comprehension.
- `policy.dfy`: the buy/sell decision, the position update, and the
  consistency of a trade history with the position.
- `trading_bot.dfy`: `load_env`, the `--testnet` default, `get_balance`, and
  the class `BasicBot`. The class has its position field, `execute_trade`,
  the loop body and `run`.
- `bot.dfy`: `load_config` with its defaults, the keys the script reads,
  `get_account_balance`, `send_alert` as an alert log, `execute_safe_trade`,
  and `run_bot`.

Every call into the exchange client is replaced by the answer it gave. The
loops run over a finite sequence of `Tick`s. Each tick is either a failed
price fetch, or a price together with:

- the operator's input line, read only in interactive mode;
- whether the iteration's order call returned (`Filled`) or raised (`Raised`).

The end of the sequence stands for the operator's Ctrl-C. Prices, thresholds
and amounts are `real`; every comparison the source makes is a strict `<` or
`>`. Each stateful loop is an imperative method: `BasicBot.Run` updates the
field `inPosition`, and `Bot.RunBot` appends to an `AlertLog` and records its
market orders in a `Client`. Each is proved
equal to a pure specification function (`RunOutcome`, `Session`), and the
properties are proved about those functions.

## Model

Several specification functions have no row of their own: `Text.Strip`,
`Text.Lower`, `EnvFile.ParseLine`, `EnvFile.TestnetFlag`,
`TradingBot.ParseCommand`, `TradingBot.UiIteration`,
`TradingBot.AutoIteration`, `TradingBot.Iteration`, `Bot.Trade` and
`Bot.DefaultConfig`. The contract of each is the lemma named after it
(`ParseLineMeaning`, `TestnetFlagIff`, `ParseCommandIgnoresCase`,
`IterationMeaning`, `TradeMeaning`, `DefaultConfigIsComplete`, and so on),
whose row cites the same lines.

| member | source | states |
|---|---|---|
| Text.StripIsTrimmedInfix | trading_bot.py:17-18 | `strip` keeps one contiguous piece of the line, which neither starts nor ends with white space; everything dropped on either side is white space |
| Text.StripIgnoresTrailingSpace | trading_bot.py:16-18 | a trailing white space character, such as a line's newline, does not change the stripped text |
| Text.StripEmptyIffBlank | trading_bot.py:17 | the stripped line is empty exactly when every character of the line is white space |
| Text.LowerMatches | trading_bot.py:113 | lower-casing gives a lower-case word exactly when the text spells that word with each letter in either case |
| Text.SplitAtFirst | trading_bot.py:18 | `split('=', 1)` unpacked: there is no result exactly when the text has no `=`; otherwise the text is key, `=`, value, and the key holds no `=` (the value may) |
| EnvFile.ParseLineMeaning | trading_bot.py:16-18 | a line is skipped exactly when it is all white space or its raw text starts with `#`; a kept entry's key and value make up the stripped line around its first `=`; a kept line without `=` is the error case |
| EnvFile.IndentedHashIsKept | trading_bot.py:17 | `" #a=1"` is not a comment: it is the entry with key `#a` and value `1` |
| EnvFile.LineEndIgnored | trading_bot.py:16-18 | a line read with its trailing newline gives the same result as the line without it |
| EnvFile.Store | trading_bot.py:18-20 | storing classified lines succeeds exactly when no kept line lacks `=`; on failure it names the first such line |
| EnvFile.ParseLines | trading_bot.py:15-20 | reading a file's lines succeeds exactly when every kept line has `=`; otherwise the error names the first line that has none |
| EnvFile.StoredEntries | trading_bot.py:19 | a successful store holds exactly the keys some entry assigns, each with the value of the last entry that assigns it |
| EnvFile.ParsedEntries | trading_bot.py:18-19 | a successful read holds exactly the keys some kept line defines; a later line for a key overwrites an earlier one |
| EnvFile.ErrorIsFinal | trading_bot.py:18-20 | once a line without `=` has been met, the lines after it change nothing: the ValueError leaves the loop |
| EnvFile.ReadLines | trading_bot.py:15-19 | the reader's `for` loop over the lines returns exactly `ParseLines` of them |
| EnvFile.TestnetFlagIff | bot.py:40 | the testnet flag is on exactly when `USE_TESTNET` is absent or spells `true` in any case |
| Exchange.PositiveBalances | trading_bot.py:51-54 | the comprehension holds exactly the assets that have a record with a positive free amount, and every amount it holds is positive |
| Exchange.PositiveBalancesLastWins | trading_bot.py:51-54 | for an asset listed twice, the amount kept is the one from its last positive record |
| Policy.Decide | trading_bot.py:131-139 | a buy is requested exactly when out of position and the price is strictly below the buy threshold; a sell exactly when in position and the price is strictly above the sell threshold; otherwise nothing |
| Policy.TiesTriggerNothing | trading_bot.py:131-136 | a price equal to a threshold requests no order on that side |
| Policy.ApplyOutcome | trading_bot.py:132-138 | the position changes only when the requested order was filled: to in position after a buy, out of position after a sell |
| Policy.PositionFlipsOnlyOnFill | trading_bot.py:131-139 | one iteration changes the position exactly when an order was requested and it was filled |
| Policy.ConsistentAfterFlip | trading_bot.py:131-139 | a trade that closes the current position keeps the history consistent with the flipped position |
| Policy.PatternAlternates | trading_bot.py:131-139 | the canonical trade history of length n alternates buy, sell, buy, ... |
| Policy.ConsistentIffAlternates | trading_bot.py:131-139 | a history is consistent with the position exactly when it alternates from a buy and the bot holds the asset exactly after an odd number of trades |
| TradingBot.LoadEnv | trading_bot.py:12-22 | a missing `.env` gives the empty map; an existing one gives `ParseLines` of its lines, including the uncaught error |
| TradingBot.TestnetDefault | trading_bot.py:166 | `--testnet` is on when the switch is given, or when `USE_TESTNET` is absent or spells `true` in any case |
| TradingBot.GetBalance | trading_bot.py:48-57 | a failed account call gives `{}`; otherwise the comprehension `PositiveBalances` of the reply, so exactly the assets with a positive free amount, all positive |
| TradingBot.ParseCommandIgnoresCase | trading_bot.py:113-127 | each of `b`, `s`, `oco`, `stop` and `q` is recognised exactly when the stripped input spells it in any case |
| TradingBot.UiIterationMeaning | trading_bot.py:112-129 | an interactive iteration never changes the position; it quits exactly on `q`; `b` makes one market buy, `s` one market sell, `oco` one OCO sell and `stop` one stop-limit sell call, each marked filled exactly when the call returned; it makes no order call exactly on `q` or an unknown command; an unknown command does nothing |
| TradingBot.AutoIterationMeaning | trading_bot.py:131-139 | an automatic iteration never quits; it orders exactly when `Decide` asks; the order is the market order on the closing side; the position changes exactly when that order was filled |
| TradingBot.IterationMeaning | trading_bot.py:108-147 | one pass makes at most one order call; a failed fetch changes nothing; only interactive mode quits, and it never moves the position; a position change comes with one filled market order on the closing side |
| TradingBot.RunOutcome | trading_bot.py:107-147 | the loop ran at most as many iterations as it was given and made no more order calls than iterations; a run that stops early is an interactive one; interactive mode never moves the position |
| TradingBot.IterationKeepsConsistent | trading_bot.py:131-139 | one automatic iteration keeps a trade history consistent with the position |
| TradingBot.AutoFillsAlternate | trading_bot.py:131-139 | the filled market orders of an automatic run keep an earlier consistent history consistent |
| TradingBot.AutoRunAlternates | trading_bot.py:46-139 | from the initial out-of-position state, an automatic run's filled orders alternate buy, sell, ... and end in position exactly after an odd number |
| TradingBot.QuitEndsRun | trading_bot.py:127-128 | in interactive mode the first `q` ends the loop: the run quits after exactly that many iterations, and nothing after `q` is read |
| TradingBot.UiQuitsOnQ | trading_bot.py:112-129 | an interactive pass quits exactly when it read `q`, and keeps the position |
| TradingBot.QuitOnlyOnQ | trading_bot.py:107-147 | an interactive run that quits read `q` in its last iteration and in none before it: the loop has no other `break` |
| TradingBot.QuitIffSomeQ | trading_bot.py:107-147 | an interactive run quits exactly when its stream of iterations holds a `q` |
| TradingBot.BasicBot.constructor | trading_bot.py:40-46 | the bot keeps its symbol, thresholds, quantity and testnet flag, and starts out of position |
| TradingBot.BasicBot.ExecuteTrade | trading_bot.py:59-69 | `execute_trade` makes the market buy call when `is_buy` holds and the market sell call otherwise, and returns True exactly when that call did not raise |
| TradingBot.BasicBot.Dispatch | trading_bot.py:112-129 | the interactive branch makes the calls of `UiIteration` for the command read, and cannot change the position |
| TradingBot.BasicBot.FollowPolicy | trading_bot.py:131-139 | the automatic branch updates the position field and makes the order calls as `AutoIteration` says |
| TradingBot.BasicBot.Iterate | trading_bot.py:108-147 | one pass of the loop body updates the field and returns the calls and the quit flag of `Iteration` |
| TradingBot.BasicBot.Run | trading_bot.py:101-147 | `run` leaves the position field as `RunOutcome` says and returns its order calls and its number of iterations |
| Bot.LoadConfig | bot.py:10-30 | a missing `.env` gives exactly the seven-key default map; an existing one gives `ParseLines` of its lines, including the uncaught error |
| Bot.FirstMissingKey | bot.py:37-90 | the KeyError of the script's `config[...]` lookups: there is none exactly when every key is present; otherwise it names the first absent key in lookup order |
| Bot.DefaultConfigIsComplete | bot.py:21-40 | the default map holds every key the script reads, and its testnet flag is on |
| Bot.GetAccountBalance | bot.py:55-61 | a failed account call propagates as no result; otherwise the comprehension `PositiveBalances` of the reply, so exactly the assets with a positive free amount, all positive |
| Bot.AlertLog.Send | bot.py:63-65 | `send_alert` appends its alert to the log |
| Bot.Client.MarketOrder | bot.py:70-71 | the market order call picked by `is_buy` (`order_market_buy` or `order_market_sell`) is recorded on the client, whether it returned or raised |
| Bot.ExecuteSafeTrade | bot.py:67-77 | makes exactly one market order call, a buy when `is_buy` holds and a sell otherwise; returns True exactly when that call returned; a failure appends exactly one `TRADE FAILED` alert naming symbol, quantity and side, and a success appends none |
| Bot.TradeMeaning | bot.py:101-110 | a trade is attempted exactly when `Decide` asks, as exactly one market order call on the closing side (none otherwise); each attempt raises exactly one alert (its failure, or `Bought`/`Sold` with the price); only a completed trade flips the position |
| Bot.TradeAnnouncesFill | bot.py:101-110 | one iteration announces a completed trade exactly for its filled market order |
| Bot.TradeKeepsConsistent | bot.py:102-110 | one iteration's alerted trades keep the trade history consistent with the position |
| Bot.Loop | bot.py:95-118 | the loop runs at most as many iterations as it was given and makes no more order calls than iterations; it stops early only by crashing, and then after at least one iteration |
| Bot.LoopAnnouncesFills | bot.py:95-110 | the completed trades the loop alerts are exactly its filled market orders, side by side and in order |
| Bot.CrashIffFetchFailed | bot.py:95-118 | the loop crashes exactly when some price fetch fails |
| Bot.CrashAlertIsLast | bot.py:114-118 | the crash alert appears only in a crashed run, and there exactly once, as the last alert |
| Bot.CrashEndsLoop | bot.py:96-118 | the run ends at the first failed fetch: exactly that many iterations ran, and nothing after it is read |
| Bot.LoopKeepsConsistent | bot.py:93-110 | the alerted trades of the loop keep an earlier consistent history consistent |
| Bot.Session | bot.py:82-118 | a failed account call fails the run at start-up with no order calls, no alerts and no iterations; a run makes no more order calls than iterations; a run that ends by interrupt ran every iteration |
| Bot.SessionAlerts | bot.py:93-118 | a run's alerted trades alternate buy, sell, ... and the bot ends in position exactly after an odd number; they are exactly the filled market orders; the crash alert is sent exactly when the account call succeeded and some fetch failed, and it is the last alert |
| Bot.TradeOnce | bot.py:101-110 | the trading logic of one iteration returns the position of `Trade`, makes exactly its order calls on the client and appends exactly its alerts to the log |
| Bot.TradingLoop | bot.py:95-118 | the `try` statement of `run_bot` makes exactly the order calls of `Loop`, appends exactly its alerts, and reports its crash and its iteration count |
| Bot.RunBot | bot.py:82-118 | `run_bot` makes exactly the order calls of `Session`, appends exactly its alerts, and returns how it ended and how many iterations ran |

## Left out

- Exchange client calls (`get_symbol_ticker`, `get_account`, `order_market_buy`/`order_market_sell`, `create_order`, `create_oco_order`): foreign library calls, replaced by the `Tick` and `AccountReply` inputs. The market order calls are recorded as `Order`s: returned by `BasicBot.ExecuteTrade` in trading_bot.py, and sent to `Bot.Client` in bot.py.
- `place_stop_limit_sell` / `place_oco_order` (trading_bot.py:71-99): modelled only as one order call of kind `StopLimitSell`/`OcoSell`, which never touches the position. Their prices and the five `float(input(...))` prompts (three for `oco` at trading_bot.py:119-121, two for `stop` at trading_bot.py:124-125) are not modelled. When a prompt's conversion raises, the loop's handler at trading_bot.py:146-147 catches the ValueError before any order call is made. The model still records an `OcoSell` or `StopLimitSell` order with `ok` false for that iteration, so on these two paths `orders` can count a call that was never made.
- Logging, message formatting (`${price:.2f}`), `time.sleep` and the `input()` prompt itself: I/O. The operator's line is part of each tick.
- `KeyboardInterrupt`: its timing is not modelled. The end of the tick sequence stands for it, in both loops.
- The default arguments `testnet=True` of `BasicBot.__init__` (trading_bot.py:40) and `ui_mode=False` of `run` (trading_bot.py:101): the constructor and `Run` take both explicitly. The only call site (trading_bot.py:171-180) passes both, so no behaviour is lost.
- `argparse` (trading_bot.py:159-169): only the `--testnet` default (`TestnetDefault`) is modelled. The other defaults are plain `env.get` lookups, and the construction of `BasicBot` from them is `BasicBot.constructor`.
- `float(...)` parsing of prices, thresholds, quantities and balance amounts: no float semantics. The numbers arrive as `real`, and `Bot.TradeConfig` holds the three converted settings. A ValueError from `float` at bot.py:88-90 is not modelled.
- Module-level globals of bot.py (`config`, `client`): the configuration and the client's answers are passed in as parameters. `Bot.FirstMissingKey` models the KeyError of the `config[...]` lookups in their order, but `Session` does not sequence it against the account call at bot.py:85.
- Unicode case mapping: `Text.Lower` maps only ASCII letters. This gives Python's answer for every comparison the bot makes. Every word compared after `lower()` (`true`, `b`, `s`, `oco`, `stop`, `q`) is ASCII. The only non-ASCII characters that Python lower-cases to text with ASCII letters are U+0130 (to `i` with a combining dot) and U+212A, the Kelvin sign (to `k`), and none of these words contains `i` or `k`.
- The outer fatal-crash handler at trading_bot.py:149-150: every exception of an iteration is caught by the inner handler, so the model has no path to it.
- `BasicBot.client` and the balance log line at trading_bot.py:104: `get_balance` is modelled as `GetBalance`, but `Run` does not take the account reply, since the value is only logged and `get_balance` cannot raise. In bot.py the account call at line 85 can raise, and `Bot.Session` takes its reply.
- Reading the file (`open`, iteration over `f`): the file is given as its sequence of lines. Python keeps the trailing newline on each line. By `EnvFile.LineEndIgnored` it changes no line's result, so lines are modelled without it.
