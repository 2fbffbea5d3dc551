# Launch-sniping bot: ledger, statistics and launch monitor

A model, in Dafny, of three pieces of logic inside a TypeScript bot. The bot watches
a bonding-curve launch contract for `Launched` events. It is meant to buy newly
launched tokens whose symbol starts with "actualz", but as written it never sends a
buy (see Findings). It keeps its trades in a LevelDB ledger and reports trade
statistics.

- `results.dfy`, module `Results`: `Option`, `Result` and `Outcome`. A JavaScript
  `null`/`undefined` becomes `None`. A thrown exception or a rejected promise becomes
  `Err`/`Fail`.
- `bigint_text.dfy`, module `BigIntText`: `BigInt(text)` and `n.toString()` on
  decimal text. The statistics code keeps every amount as text and converts with
  these two.
- `key_order.dfy`, module `KeyOrder`: the order in which the ledger's store iterates
  its keys. That is character-by-character comparison, with a proper prefix first.
- `transaction_db.dfy`, module `TransactionDB`: the `Transaction` record and the
  ledger, modelled as a `map` from transaction hash to record.
  - It covers put, point lookup, the merge-update that throws on a missing hash, and
    the status-filtered scan in key order.
  - The ledger has no full-scan method, yet the statistics code calls one
    (`transactionDB.getAllTransactions()`). `GetAllTransactions` models it as every
    stored record, in key order.
- `statistics.dfy`, module `Statistics`: the trade statistics.
  - The full scan is split into SOLD and BOUGHT trades.
  - Sold trades are grouped per token in `Map` insertion order.
  - Profit and investment are totalled with bigints.
- `monitor_service.dfy`, module `MonitorService`:
  - one timer tick of the poller as a pure transition of its watermark `blockNumber`;
  - sequences of ticks;
  - the launch handler's buy decision.

  Chain replies are inputs: the height, the event list, the token's `name`/`symbol`
  replies, and how each key's buy ended.

The per-token accumulation in `calculateTokenProfits` is modelled **as written**.
- Each of the three lines has the shape `BigInt(prev) + (BigInt(x)).toString()`.
  That is a bigint plus a string, which JavaScript evaluates as text concatenation.
- A field that starts at "0" and takes in the non-negative amounts `x1, x2, ...`
  reads back as `ConcatFold([x1, x2, ...])`. Each step is `prev * 10^digits(x) + x`.
- That equals the sum exactly when every amount before the token's last trade is zero
  (`ConcatFoldIsSumIff`, `CleanFieldIsSumIff`). A token sold once therefore reads exactly
  (`SingleTradeReadsExactly`). `TwoTradesConcatenate` shows "12" where the sum is 3.
- A negative amount puts a minus sign inside the digits, and the field is left
  unparsable (`NegativeTradePoisons`, `NegativeAmountPoisons`). A later trade of the same
  token then throws. For the profit column the total profit throws too
  (`NegativeProfitThrows`). A buy or sale column poisoned by the token's last trade is
  returned as it stands, and nothing throws.

These files contain no sell, profit-threshold or retry logic. The model covers the
watermark tick, the buy decision and the statistics as written.

## Model

| member | source | states |
|---|---|---|
| BigIntText.ParseBigInt | src/utils/statistics.ts:136-149 | `BigInt(text)` succeeds exactly on digits with at most one leading sign (the empty text included), and otherwise throws a SyntaxError naming the text. Its value is the decimal value of the digits, negated after '-', so "+12" reads 12 and "007" reads 7. |
| BigIntText.ToDecimal | src/utils/statistics.ts:162 | `n.toString()` reads back as `n` through `BigInt`. A non-negative value is written in canonical digits, `digits(n)` of them. A negative value is '-' followed by canonical digits. |
| BigIntText.CanonicalTextIsToDecimal | src/utils/statistics.ts:159-162 | The other round trip: canonical decimal text, with no redundant zero or sign, parses and prints back to itself. |
| BigIntText.ConcatNonNegative | src/utils/statistics.ts:141-143 | `BigInt(p)` followed by the text of `x >= 0`, read back as a bigint, is `p * 10^digits(x) + x`. |
| BigIntText.ConcatNegative | src/utils/statistics.ts:147-149 | Gluing the text of a negative value onto any value gives text that `BigInt` rejects. |
| KeyOrder.Ascending | src/db/TransactionDB.ts:78 | A full scan visits each stored key exactly once, in strictly ascending key order. |
| TransactionDB.Merge | src/db/TransactionDB.ts:66 | `{ ...t, ...u }`: every property the update carries wins, and every other property of the stored record is kept. |
| TransactionDB.MergeNoChange | src/db/TransactionDB.ts:66 | An update that carries no property leaves the record unchanged. |
| TransactionDB.MergeIdempotent | src/db/TransactionDB.ts:66 | Applying the same update twice is the same as applying it once. |
| TransactionDB.GetTransaction | src/db/TransactionDB.ts:46-57 | A lookup returns the stored record when the hash is present, and null (not a throw) when it is absent. |
| TransactionDB.SaveTransaction | src/db/TransactionDB.ts:37-44 | After a put, the lookup of its hash gives the saved record and replaces any earlier one. Every other hash looks up as before. The keys gain only that hash. Records stay stored under their own hash. |
| TransactionDB.UpdateTransaction | src/db/TransactionDB.ts:59-72 | The update throws exactly when the hash is absent, and then leaves the store unchanged. Otherwise the merged record is stored under its own, possibly new, hash, and every other hash is untouched. The key set is unchanged unless the update carries a hash. |
| TransactionDB.FilterStatus | src/db/TransactionDB.ts:78-82 | The filter keeps exactly the records with the given status, and never more records than it was given. |
| TransactionDB.FilterAppend | src/db/TransactionDB.ts:78-82 | Filtering keeps input order: it distributes over concatenation. |
| TransactionDB.FilterKeepsAscending | src/db/TransactionDB.ts:78-82 | Filtering a hash-ascending list leaves it hash-ascending. |
| TransactionDB.GetAllTransactions | src/utils/statistics.ts:120-122 | The full scan returns each stored record once, in ascending hash order. |
| TransactionDB.GetAllBoughtTransactions | src/db/TransactionDB.ts:74-89 | It returns exactly the stored records with status BOUGHT, in ascending hash order. |
| Statistics.AppendText | src/utils/statistics.ts:141-143 | One accumulation line succeeds exactly when the field and the amount both parse. For a non-negative field and amount, the new field reads back as `prev * 10^digits(x) + x`. For a negative amount it no longer parses. |
| Statistics.TradeAmount | src/utils/statistics.ts:137-147 | A trade's amount is a TypeError exactly when the sale amount is missing. A missing or empty profit counts as 0. The buy cost is available exactly when its text parses. |
| Statistics.UpdateEntry | src/utils/statistics.ts:137-150 | An unparsable profit throws before any field is touched. A successful update keeps the entry's token and counts one more trade. |
| Statistics.UpdateEntrySpec | src/utils/statistics.ts:137-150 | Updating an entry throws exactly when an amount or a field does not parse. A missing profit counts as 0, and a missing sale amount is a TypeError. Otherwise the entry keeps its token, counts one more trade, and each of the three fields has the trade's amount appended as text. |
| Statistics.Store | src/utils/statistics.ts:152 | `Map.set`: the token's entry is replaced in place, or added at the end for a new token, and every other entry is kept. |
| Statistics.Accumulate | src/utils/statistics.ts:127-152 | One iteration throws exactly when the update of the token's entry throws, with the same error. Otherwise the entry list keeps its length or grows by one. |
| Statistics.AccumulatePlaces | src/utils/statistics.ts:127-153 | One loop iteration succeeds exactly when the update of the token's entry (or of a fresh zero entry) succeeds. Only that token's entry changes, and it becomes the updated entry. |
| Statistics.CalculateTokenProfits | src/utils/statistics.ts:124-156 | There are never more entries than sold trades. Its grouping, fold and throwing behaviour are stated by the lemmas below. |
| Statistics.GroupedStep | src/utils/statistics.ts:128-152 | One iteration keeps the grouping invariant: the entries follow the first appearances of the tokens, each counts its token's trades, and the counts add up. |
| Statistics.TokenProfitsGrouped | src/utils/statistics.ts:124-156 | There is one entry per distinct token among the sold trades, in order of first appearance. Each entry's `transactions` is that token's number of sold trades, and they add up to the number of sold trades. |
| Statistics.TokenProfitsDistinct | src/utils/statistics.ts:125-155 | No token has two entries. |
| Statistics.ConcatFoldSingle | src/utils/statistics.ts:141-149 | A field that absorbed a single amount reads back as that amount. |
| Statistics.FoldsReadStep | src/utils/statistics.ts:141-149 | After one more clean trade, every field of every entry reads back as the concatenation fold of its token's amounts. |
| Statistics.CleanTradeStep | src/utils/statistics.ts:127-153 | One more clean trade after a scan that did not throw: the scan still does not throw, and every field still reads back as its token's concatenation fold. |
| Statistics.CleanTradesAccumulate | src/utils/statistics.ts:124-156 | With non-negative parseable amounts, `calculateTokenProfits` does not throw. Every field reads back as the concatenation fold of its token's amounts, in trade order. |
| Statistics.ConcatFoldIsSumIff | src/utils/statistics.ts:141-149 | The concatenation fold of non-negative amounts equals their sum exactly when every amount before the last is zero. |
| Statistics.CleanFieldIsSumIff | src/utils/statistics.ts:124-156 | With clean trades, a token's field reads back as the sum of that token's amounts in that column exactly when every amount before its last trade's is zero. |
| Statistics.SingleTradeReadsExactly | src/utils/statistics.ts:141-149 | With clean trades, a token sold exactly once has fields that read back as exactly that trade's amounts. |
| Statistics.NegativeTradePoisons | src/utils/statistics.ts:147-149 | The trade that appends a negative amount leaves its token's field unparsable. |
| Statistics.PoisonedEntryBlocks | src/utils/statistics.ts:141-149 | A later trade of a token whose field does not parse throws. A trade of any other token leaves that entry unchanged. |
| Statistics.PoisonPersists | src/utils/statistics.ts:127-153 | Once a token's field is unparsable, it stays unparsable through every later trade, unless the calculation throws. |
| Statistics.NegativeAmountPoisons | src/utils/statistics.ts:141-153 | Once any trade appends a negative amount, either the calculation throws or that token's final field is unparsable. |
| Statistics.TradeThrows | src/utils/statistics.ts:137-146 | A trade whose amount does not parse, or that has no sale amount, makes its loop iteration throw. |
| Statistics.LastTradeThrows | src/utils/statistics.ts:127-153 | A last sold trade with an unparsable amount makes `calculateTokenProfits` throw, whatever came before. |
| Statistics.UnparsableTradeThrows | src/utils/statistics.ts:137-153 | Such a trade anywhere in the sold list makes `calculateTokenProfits` throw. |
| Statistics.SumAmountsAppend | src/utils/statistics.ts:159-162 | The reference sum of parsed amounts distributes over concatenation. |
| Statistics.SumAmountsPermutation | src/utils/statistics.ts:175-178 | The reference sum does not depend on the order of the items. |
| Statistics.ReduceBigInt | src/utils/statistics.ts:175-178 | The left-to-right bigint reduce succeeds exactly when every text parses, and then equals the reference sum. |
| Statistics.CalculateTotalProfit | src/utils/statistics.ts:158-163 | The total profit is the canonical `toString()` text of the sum of the parsed `profit` fields. It throws exactly when one does not parse, and is "0" for no entries. |
| Statistics.CalculateTotalInvestment | src/utils/statistics.ts:174-179 | The total investment is the canonical `toString()` text of the exact sum of the parsed buy costs. It throws exactly when one does not parse, and is "0" for no holdings. |
| Statistics.InvestmentOrderIndependent | src/utils/statistics.ts:174-179 | Two holding lists with the same records, in any order, both succeed or both throw, and report the same total. |
| Statistics.SameElementsParse | src/utils/statistics.ts:176 | Whether every buy cost parses depends only on which records there are. |
| Statistics.FormatHoldingRecords | src/utils/statistics.ts:165-172 | There is one record per holding trade, in the same order, copying token, buy time and hash, with the buy cost as `buyAmount`. |
| Statistics.InvestmentMatchesRecords | src/utils/statistics.ts:165-179 | The reported total investment is the canonical text of the sum of the reported records' `buyAmount`s. |
| Statistics.SameTextsSameSum | src/utils/statistics.ts:168 | Records that carry the trades' buy costs have the same sum as the trades. |
| Statistics.GetSoldTokensProfits | src/utils/statistics.ts:72-91 | The sold statistics succeed exactly when grouping the SOLD trades of the scan and totalling their profits both succeed. They report those entries, and a total that is the canonical text of the sum of the entries' profits. |
| Statistics.GetHoldingTokensStatistics | src/utils/statistics.ts:97-116 | The holding statistics succeed exactly when every BOUGHT trade's buy cost parses. They report one record per BOUGHT trade, and a total that is the canonical text of the sum of the buy costs. |
| Statistics.GetTradeStatistics | src/utils/statistics.ts:35-66 | The combined statistics succeed exactly when the sold and holding statistics both do, and report their values. When the sold half fails, its error is the one thrown. |
| Statistics.SplitByStatus | src/utils/statistics.ts:41-42 | SOLD records go to the sold list and BOUGHT records to the holding list. FAILED records go to neither, none goes to both, and the three filters partition the scan as a multiset. |
| Statistics.PoisonedTotalThrows | src/utils/statistics.ts:158-161 | An entry whose `profit` field does not parse makes the total profit throw. |
| Statistics.NegativeProfitThrows | src/utils/statistics.ts:147-161 | A stored SOLD trade with a negative profit makes `getTradeStatistics` throw. |
| Statistics.FirstTrade | src/utils/statistics.ts:127-153 | The first trade of a token turns the zero entry into "01", "03" and "02". |
| Statistics.SecondEntry | src/utils/statistics.ts:137-150 | A second trade of that token reads those back as 1, 3 and 2, and glues on its own amounts, giving "12", "34" and "22". |
| Statistics.SecondTrade | src/utils/statistics.ts:127-153 | That second trade replaces the token's one entry in place. |
| Statistics.TwoTradesConcatenate | src/utils/statistics.ts:124-163 | Two sold trades of one token give the fields "12", "34" and "22", where the sums would be 3, 7 and 4. The total profit reads "22". |
| MonitorService.Start | src/services/MonitorService.ts:42-44 | The first watermark is the height read at start. When that read fails, start rejects. |
| MonitorService.LaunchedArgs | src/services/MonitorService.ts:55-59 | Exactly the arguments of the decoded event logs are handed on, and no more items than the query returned. |
| MonitorService.LaunchedArgsCount | src/services/MonitorService.ts:55-59 | Each decoded event is handed on once. |
| MonitorService.LaunchedArgsAppend | src/services/MonitorService.ts:55-59 | Events are handed on in result order. |
| MonitorService.Tick | src/services/MonitorService.ts:47-65 | A failed height read changes nothing. The watermark never decreases, and changes exactly when the height is above it, becoming that height. Only that one block is queried. Events are handed on only from a successful query, and then all of its decoded events. |
| MonitorService.WatermarkBeforeQuery | src/services/MonitorService.ts:52-54 | The new watermark and the query do not depend on the query's result, so a block whose query failed is still marked seen. |
| MonitorService.Run | src/services/MonitorService.ts:47-65 | Over any sequence of ticks, the queried blocks strictly increase and all lie above the starting watermark. The last one is the final watermark, and the watermark never decreases. |
| MonitorService.OnlyReadHeightsQueried | src/services/MonitorService.ts:50-54 | A block that no tick read as the height is never queried, so blocks that ticks jump over are never asked for. |
| MonitorService.LowerIdempotent | src/services/MonitorService.ts:76 | Lowercasing twice is lowercasing once. |
| MonitorService.BuyTargetByPrefix | src/services/MonitorService.ts:76-77 | A symbol passes the gate exactly when its first seven characters, lowercased, are "actualz". |
| MonitorService.BuyTargetIgnoresCase | src/services/MonitorService.ts:76-77 | The gate ignores case and anything after the prefix. |
| MonitorService.Buys | src/services/MonitorService.ts:80-89 | There is one buy per configured key, in key order, for the launched token. Each stakes 5·10^18 wei, with gas limit 800000 and both fee caps at 0.03 gwei. |
| MonitorService.ReadView | src/services/MonitorService.ts:72-74 | A view call returns the chain's reply when the ABI declares the function, and fails when it does not, because the ABI does not declare the function. |
| MonitorService.HandleLaunchedEvent | src/services/MonitorService.ts:68-98 | A buy is sent only after both reads succeed and the symbol passes the gate, and then the buys are exactly one per key, and the catch block runs exactly when one of them fails. A failed or undeclared `name()` read means no buy and the catch block. With no keys, only a failed read reaches the catch block. |
| MonitorService.HandleAsWritten | src/services/MonitorService.ts:68-98 | With the token contract built from `ERC20_ABI`, the handler sends no buy and ends in the catch block. |
| MonitorService.AsWrittenNeverBuys | src/services/MonitorService.ts:72-73 | With the token contract built from `ERC20_ABI`, every launch ends in the catch block without a buy. |
| MonitorService.OnLaunch | src/services/MonitorService.ts:68-98 | With `name` declared, there is one buy per key exactly when both reads succeed and the symbol passes the gate, and no buy otherwise. |
| MonitorService.OnLaunchBuysIffGate | src/services/MonitorService.ts:68-98 | With `name` declared, a launch is bought exactly when both reads succeed and the symbol passes the gate, with one buy per key. The catch block runs exactly when a read fails or one of the buys fails; with no keys `Promise.all([])` resolves, so a passing launch returns normally. |
| MonitorService.NoKeysReturnsNormally | src/services/MonitorService.ts:80-92 | With no configured keys, a launch that passes the gate sends nothing and does not reach the catch block. |

## Left out

- LevelDB, the ethers provider, contracts and wallets, and `fs` key loading: all I/O. Their results are inputs, and the ledger is a `map`.
- The `setInterval` schedule and overlapping ticks: ticks are modelled one after another. Each tick's compare-and-set of the watermark runs without an `await` in between, so overlapping ticks cannot undo an advance. Their queries and handlers may still finish out of order.
- The `Promise.all` concurrency of the buys, `tx.wait()`, and the fire-and-forget `reconnectHttpProvider` (src/services/MonitorService.ts:29-40). Only the buys sent, each key's buy outcome as an input, and whether the catch block runs are modelled; which failure `Promise.all` reports is not.
- The handler's logging and the decoding of raw logs into events. A query's items are given already decoded or raw.
- `stop`, the constructor, `formatEther`, `formatTimestamp`, `main`, src/index.ts, src/utils/logger.ts: I/O, formatting and bootstrap, with no logic to verify.
- BigIntText.ParseBigInt: leading and trailing whitespace and the `0x`/`0o`/`0b` prefixes that `BigInt` also accepts are treated as syntax errors. The amounts the bot stores are plain decimal.
- MonitorService.LowerChar: lowercases ASCII letters only. Full Unicode `toLowerCase` is not modelled. The gate compares with an ASCII prefix.
- TransactionDB.UpdateTransaction: an update object that carries a property explicitly set to `undefined` is not modelled. A `Patch` property is either absent or a value.
- TransactionDB.GetTransaction: store failures other than a missing key, which the source rethrows, are not modelled.
- TransactionDB.GetAllTransactions: the ledger class has no such method, and the model takes it to be a full scan in key order. LevelDB compares UTF-8 bytes. That order agrees with the character order used here.
- Errors raised by the log query or the store are one error kind each. Their messages are not modelled.

## Findings

| source | as written | input that shows it | evidently intended | confidence | as-written member | corrected member |
|---|---|---|---|---|---|---|
| src/services/MonitorService.ts:72-73 | The token contract is built from `ERC20_ABI` (src/contracts/interfaces.ts:10-16), which declares no `name` function, and line 73 calls `tokenContract.name()`. The call fails because the ABI does not declare the function, so the catch block runs and no buy is sent. | Any `Launched` event, for example a token whose symbol is "ACTUALZ1" with every chain reply succeeding. | Build the token contract from an ABI that declares `name()`, so that the symbol gate decides. | medium; not executed. It rests on an ethers contract call failing for a function its ABI does not declare. | MonitorService.AsWrittenNeverBuys | MonitorService.OnLaunchBuysIffGate |
