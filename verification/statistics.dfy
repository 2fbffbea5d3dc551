/** Trade statistics of src/utils/statistics.ts: the full scan is split by status,
    sold trades are grouped per token, and profit and investment are totalled.

    The per-token accumulation is modelled as written. Each of its three lines has
    the shape `BigInt(prev) + (BigInt(x)).toString()`, a bigint plus a string, which
    JavaScript evaluates as text concatenation: the new field is the decimal text of
    `prev` followed by that of `x`. Read back as a bigint, a field that started at
    "0" and absorbed non-negative `x1, x2, ...` is `ConcatFold([x1, x2, ...])`, which
    is the sum exactly when every amount before the last is zero. */
module Statistics {
  import opened Results
  import opened BigIntText
  import opened TransactionDB

  datatype TokenProfit = TokenProfit(
    tokenAddress: string,
    totalBuyAmount: string,
    totalSellAmount: string,
    profit: string,
    transactions: nat)

  datatype HoldingRecord = HoldingRecord(
    tokenAddress: string,
    buyAmount: string,
    buyTime: string,
    transactionHash: string)

  datatype SoldTokens = SoldTokens(tokenProfits: seq<TokenProfit>, totalProfit: string)

  datatype HoldingTokens = HoldingTokens(records: seq<HoldingRecord>, totalInvestment: string)

  datatype StatisticsResult = StatisticsResult(soldTokens: SoldTokens, holdingTokens: HoldingTokens)

  // ---------------------------------------------------------------------------
  // The three accumulated columns of a TokenProfit

  datatype Column = BuyColumn | SellColumn | ProfitColumn

  /** The bigint a sold trade contributes to a column. A missing `soldVirtualAmount`
      is `BigInt(undefined)`, a TypeError; a missing or empty `profit` counts as 0. */
  function TradeAmount(tx: Transaction, c: Column): (r: Result<int, JsError>)
    ensures r == Err(TypeError) <==> c == SellColumn && tx.soldVirtualAmount.None?
    ensures c == ProfitColumn && (tx.profit.None? || tx.profit.value == "") ==> r == Ok(0)
    ensures c == BuyColumn ==> (r.Ok? <==> ParseBigInt(tx.buyCostVirtualAmount).Ok?)
  {
    match c
    case BuyColumn => ParseBigInt(tx.buyCostVirtualAmount)
    case SellColumn =>
      if tx.soldVirtualAmount.Some? then ParseBigInt(tx.soldVirtualAmount.value) else Err(TypeError)
    case ProfitColumn =>
      if tx.profit.Some? && tx.profit.value != "" then ParseBigInt(tx.profit.value) else Ok(0)
  }

  function ColumnText(e: TokenProfit, c: Column): string {
    match c
    case BuyColumn => e.totalBuyAmount
    case SellColumn => e.totalSellAmount
    case ProfitColumn => e.profit
  }

  /** The entry a token starts from the first time one of its trades is seen. */
  function FreshEntry(a: string): TokenProfit {
    TokenProfit(a, "0", "0", "0", 0)
  }

  /** `BigInt(prev) + amount.toString()`: parse the field, then append the amount's text.
      Read back as a bigint, the new field is `prev * 10^digits(x) + x` for non-negative
      values, and no bigint at all once the amount is negative. */
  function AppendText(prev: string, amount: Result<int, JsError>): (r: Result<string, JsError>)
    ensures r.Ok? <==> ParseBigInt(prev).Ok? && amount.Ok?
    ensures r.Ok? && ParseBigInt(prev).value >= 0 && amount.value >= 0 ==>
      ParseBigInt(r.value) == Ok(ParseBigInt(prev).value * Pow10(DigitCount(amount.value)) + amount.value)
    ensures r.Ok? && amount.value < 0 ==> ParseBigInt(r.value).Err?
  {
    var p :- ParseBigInt(prev);
    var x :- amount;
    if p >= 0 && x >= 0 then
      ConcatNonNegative(p, x);
      Ok(ToDecimal(p) + ToDecimal(x))
    else if x < 0 then
      ConcatNegative(p, x);
      Ok(ToDecimal(p) + ToDecimal(x))
    else Ok(ToDecimal(p) + ToDecimal(x))
  }

  // ---------------------------------------------------------------------------
  // Grouping per token, in Map insertion order

  /** The tokens of the entries, in order. */
  function Addresses(entries: seq<TokenProfit>): (r: seq<string>)
    ensures |r| == |entries|
    ensures forall i :: 0 <= i < |r| ==> r[i] == entries[i].tokenAddress
    decreases |entries|
  {
    if |entries| == 0 then []
    else Addresses(entries[..|entries| - 1]) + [entries[|entries| - 1].tokenAddress]
  }

  /** The tokens of the trades, in order. */
  function TokenAddresses(txs: seq<Transaction>): (r: seq<string>)
    ensures |r| == |txs|
    ensures forall i :: 0 <= i < |r| ==> r[i] == txs[i].tokenAddress
    decreases |txs|
  {
    if |txs| == 0 then []
    else TokenAddresses(txs[..|txs| - 1]) + [txs[|txs| - 1].tokenAddress]
  }

  /** The distinct values of `xs`, each at the position of its first appearance. */
  function FirstAppearances(xs: seq<string>): (r: seq<string>)
    ensures forall a :: a in r <==> a in xs
    ensures forall i, j :: 0 <= i < j < |r| ==> r[i] != r[j]
    decreases |xs|
  {
    if |xs| == 0 then []
    else
      var prev := FirstAppearances(xs[..|xs| - 1]);
      assert xs == xs[..|xs| - 1] + [xs[|xs| - 1]];
      if xs[|xs| - 1] in prev then prev else prev + [xs[|xs| - 1]]
  }

  /** How many times `a` occurs in `xs`. */
  function Count(xs: seq<string>, a: string): (n: nat)
    ensures n > 0 <==> a in xs
    decreases |xs|
  {
    if |xs| == 0 then 0
    else
      assert xs == xs[..|xs| - 1] + [xs[|xs| - 1]];
      Count(xs[..|xs| - 1], a) + (if xs[|xs| - 1] == a then 1 else 0)
  }

  /** Sum of the `transactions` counters. */
  function TransactionsTotal(entries: seq<TokenProfit>): nat
    decreases |entries|
  {
    if |entries| == 0 then 0
    else TransactionsTotal(entries[..|entries| - 1]) + entries[|entries| - 1].transactions
  }

  lemma {:induction false} TransactionsTotalAppend(entries: seq<TokenProfit>, e: TokenProfit)
    ensures TransactionsTotal(entries + [e]) == TransactionsTotal(entries) + e.transactions
  {
    assert (entries + [e])[..|entries|] == entries;
  }

  lemma {:induction false} TransactionsTotalUpdate(entries: seq<TokenProfit>, i: nat, e: TokenProfit)
    requires i < |entries|
    ensures TransactionsTotal(entries[i := e]) == TransactionsTotal(entries) - entries[i].transactions + e.transactions
    decreases |entries|
  {
    var n := |entries|;
    var updated := entries[i := e];
    assert updated[..n - 1] == if i < n - 1 then entries[..n - 1][i := e] else entries[..n - 1];
    if i < n - 1 {
      TransactionsTotalUpdate(entries[..n - 1], i, e);
    }
  }

  /** Position of the token's entry, or `|entries|` when it has none. */
  function IndexOf(entries: seq<TokenProfit>, a: string): (i: nat)
    ensures i <= |entries|
    ensures i < |entries| ==> entries[i].tokenAddress == a
    ensures forall k :: 0 <= k < i ==> entries[k].tokenAddress != a
    decreases |entries|
  {
    if |entries| == 0 then 0
    else if entries[0].tokenAddress == a then 0
    else 1 + IndexOf(entries[1..], a)
  }

  /** The entry `profitsByToken.get(a) || { ...zeros }` yields. */
  function Prior(entries: seq<TokenProfit>, a: string): TokenProfit {
    var i := IndexOf(entries, a);
    if i < |entries| then entries[i] else FreshEntry(a)
  }

  /** All three text fields of an entry read back as bigints. */
  predicate FieldsParse(e: TokenProfit) {
    ParseBigInt(e.totalBuyAmount).Ok? && ParseBigInt(e.totalSellAmount).Ok? && ParseBigInt(e.profit).Ok?
  }

  /** `after` is the text of `before`, read as a bigint, followed by the amount's text. */
  predicate Appended(after: string, before: string, amount: Result<int, JsError>) {
    ParseBigInt(before).Ok? && amount.Ok? && after == ToDecimal(ParseBigInt(before).value) + ToDecimal(amount.value)
  }

  /** The same fact for a column picked by name. */
  lemma UpdatedColumn(entry: TokenProfit, tx: Transaction, c: Column)
    requires UpdateEntry(entry, tx).Ok?
    ensures Appended(ColumnText(UpdateEntry(entry, tx).value, c), ColumnText(entry, c), TradeAmount(tx, c))
  {
    UpdateEntrySpec(entry, tx);
  }

  /** Lines 137-150 on one entry: parse the trade's profit, then append the buy cost,
      the sale proceeds and the profit to the entry's text fields, and count the trade.
      Throws as the source does. */
  function UpdateEntry(entry: TokenProfit, tx: Transaction): (r: Result<TokenProfit, JsError>)
    ensures TradeAmount(tx, ProfitColumn).Err? ==> r == Err(TradeAmount(tx, ProfitColumn).error)
    ensures r.Ok? ==> r.value.tokenAddress == entry.tokenAddress && r.value.transactions == entry.transactions + 1
  {
    var profit :- TradeAmount(tx, ProfitColumn);
    var buy :- AppendText(entry.totalBuyAmount, TradeAmount(tx, BuyColumn));
    var sell :- AppendText(entry.totalSellAmount, TradeAmount(tx, SellColumn));
    var total :- AppendText(entry.profit, Ok(profit));
    Ok(TokenProfit(entry.tokenAddress, buy, sell, total, entry.transactions + 1))
  }

  /** The update throws exactly when one of the trade's three amounts, or one of the
      entry's three texts, does not read as a bigint; otherwise each text field is the
      old text's value followed by the trade's amount, and the counter goes up by one. */
  lemma UpdateEntrySpec(entry: TokenProfit, tx: Transaction)
    ensures UpdateEntry(entry, tx).Ok? <==>
      && TradeAmount(tx, BuyColumn).Ok? && TradeAmount(tx, SellColumn).Ok? && TradeAmount(tx, ProfitColumn).Ok?
      && FieldsParse(entry)
    ensures UpdateEntry(entry, tx).Ok? ==>
      var r := UpdateEntry(entry, tx).value;
      && r.tokenAddress == entry.tokenAddress
      && r.transactions == entry.transactions + 1
      && Appended(r.totalBuyAmount, entry.totalBuyAmount, TradeAmount(tx, BuyColumn))
      && Appended(r.totalSellAmount, entry.totalSellAmount, TradeAmount(tx, SellColumn))
      && Appended(r.profit, entry.profit, TradeAmount(tx, ProfitColumn))
  {
  }

  /** `r` is `acc` with token `a`'s entry counted once more: updated in place when
      the token has an entry, appended at the end when it has none. */
  predicate Placed(acc: seq<TokenProfit>, a: string, r: seq<TokenProfit>) {
    var i := IndexOf(acc, a);
    && |r| == (if i < |acc| then |acc| else |acc| + 1)
    && r[i].tokenAddress == a
    && r[i].transactions == (if i < |acc| then acc[i].transactions else 0) + 1
    && forall k :: 0 <= k < |acc| && k != i ==> r[k] == acc[k]
  }

  /** Store `e` as token `a`'s entry: over the old one, or at the end when there is none. */
  function Store(acc: seq<TokenProfit>, a: string, e: TokenProfit): (r: seq<TokenProfit>)
    ensures |r| == if IndexOf(acc, a) < |acc| then |acc| else |acc| + 1
    ensures r[IndexOf(acc, a)] == e
    ensures forall k :: 0 <= k < |acc| && k != IndexOf(acc, a) ==> r[k] == acc[k]
  {
    var i := IndexOf(acc, a);
    if i < |acc| then acc[i := e] else acc + [e]
  }

  /** One iteration of the loop at lines 127-153: fetch the token's entry or start a
      fresh one, update it, and store it back in place, or at the end for a new token. */
  function Accumulate(acc: seq<TokenProfit>, tx: Transaction): (r: Result<seq<TokenProfit>, JsError>)
    ensures r.Err? <==> UpdateEntry(Prior(acc, tx.tokenAddress), tx).Err?
    ensures r.Err? ==> r.error == UpdateEntry(Prior(acc, tx.tokenAddress), tx).error
    ensures r.Ok? ==> |acc| <= |r.value| <= |acc| + 1
  {
    var u := UpdateEntry(Prior(acc, tx.tokenAddress), tx);
    if u.Err? then Err(u.error) else Ok(Store(acc, tx.tokenAddress, u.value))
  }

  /** One trade throws exactly when updating its token's entry throws; otherwise the
      updated entry is stored in place, or at the end for a new token. */
  lemma {:induction false} AccumulatePlaces(acc: seq<TokenProfit>, tx: Transaction)
    ensures Accumulate(acc, tx).Ok? <==> UpdateEntry(Prior(acc, tx.tokenAddress), tx).Ok?
    ensures Accumulate(acc, tx).Ok? ==> Placed(acc, tx.tokenAddress, Accumulate(acc, tx).value)
    ensures Accumulate(acc, tx).Ok? ==>
      Accumulate(acc, tx).value[IndexOf(acc, tx.tokenAddress)] == UpdateEntry(Prior(acc, tx.tokenAddress), tx).value
  {
    UpdateEntrySpec(Prior(acc, tx.tokenAddress), tx);
  }

  /** The grouping facts `calculateTokenProfits` keeps after each trade. */
  predicate Grouped(entries: seq<TokenProfit>, xs: seq<string>) {
    && Addresses(entries) == FirstAppearances(xs)
    && Counted(entries, xs)
    && TransactionsTotal(entries) == |xs|
  }

  /** Every entry counts its token's occurrences in `xs`. */
  predicate Counted(entries: seq<TokenProfit>, xs: seq<string>) {
    forall i :: 0 <= i < |entries| ==> entries[i].transactions == Count(xs, entries[i].tokenAddress)
  }

  lemma {:induction false} CountAppend(xs: seq<string>, a: string, b: string)
    ensures Count(xs + [a], b) == Count(xs, b) + (if a == b then 1 else 0)
  {
    assert (xs + [a])[..|xs|] == xs;
  }

  lemma {:induction false} FirstAppearancesAppend(xs: seq<string>, a: string)
    ensures FirstAppearances(xs + [a])
      == if a in FirstAppearances(xs) then FirstAppearances(xs) else FirstAppearances(xs) + [a]
  {
    assert (xs + [a])[..|xs|] == xs;
  }

  lemma {:induction false} AddressesUpdate(entries: seq<TokenProfit>, i: nat, e: TokenProfit)
    requires i < |entries| && e.tokenAddress == entries[i].tokenAddress
    ensures Addresses(entries[i := e]) == Addresses(entries)
  {
    var u := Addresses(entries[i := e]);
    var v := Addresses(entries);
    assert |u| == |v|;
    forall k | 0 <= k < |u| ensures u[k] == v[k] {
    }
  }

  lemma {:induction false} AddressesAppend(entries: seq<TokenProfit>, e: TokenProfit)
    ensures Addresses(entries + [e]) == Addresses(entries) + [e.tokenAddress]
  {
    assert (entries + [e])[..|entries|] == entries;
  }

  /** A token already grouped: its entry, updated in place, counts one more trade. */
  lemma {:induction false} GroupedExisting(acc: seq<TokenProfit>, xs: seq<string>, i: nat, e: TokenProfit)
    requires Grouped(acc, xs)
    requires i < |acc| && e.tokenAddress == acc[i].tokenAddress
    requires e.transactions == acc[i].transactions + 1
    ensures Grouped(acc[i := e], xs + [e.tokenAddress])
  {
    FirstAppearancesAppend(xs, e.tokenAddress);
    assert e.tokenAddress in FirstAppearances(xs) by { assert Addresses(acc)[i] == e.tokenAddress; }
    AddressesUpdate(acc, i, e);
    CountedExisting(acc, xs, i, e);
    TransactionsTotalUpdate(acc, i, e);
  }

  lemma {:induction false} CountedExisting(acc: seq<TokenProfit>, xs: seq<string>, i: nat, e: TokenProfit)
    requires Counted(acc, xs)
    requires forall p, q :: 0 <= p < q < |acc| ==> acc[p].tokenAddress != acc[q].tokenAddress
    requires i < |acc| && e.tokenAddress == acc[i].tokenAddress
    requires e.transactions == acc[i].transactions + 1
    ensures Counted(acc[i := e], xs + [e.tokenAddress])
  {
    var r := acc[i := e];
    forall k | 0 <= k < |r|
      ensures r[k].transactions == Count(xs + [e.tokenAddress], r[k].tokenAddress)
    {
      CountAppend(xs, e.tokenAddress, r[k].tokenAddress);
      if k < i {
        assert acc[k].tokenAddress != acc[i].tokenAddress;
      } else if k > i {
        assert acc[i].tokenAddress != acc[k].tokenAddress;
      }
    }
  }

  /** A token not yet grouped: a new entry at the end counts its first trade. */
  lemma {:induction false} GroupedNew(acc: seq<TokenProfit>, xs: seq<string>, e: TokenProfit)
    requires Grouped(acc, xs)
    requires forall k :: 0 <= k < |acc| ==> acc[k].tokenAddress != e.tokenAddress
    requires e.transactions == 1
    ensures Grouped(acc + [e], xs + [e.tokenAddress])
  {
    FirstAppearancesAppend(xs, e.tokenAddress);
    assert e.tokenAddress !in Addresses(acc);
    AddressesAppend(acc, e);
    CountedNew(acc, xs, e);
    TransactionsTotalAppend(acc, e);
  }

  lemma {:induction false} CountedNew(acc: seq<TokenProfit>, xs: seq<string>, e: TokenProfit)
    requires Counted(acc, xs)
    requires forall k :: 0 <= k < |acc| ==> acc[k].tokenAddress != e.tokenAddress
    requires e.tokenAddress !in xs
    requires e.transactions == 1
    ensures Counted(acc + [e], xs + [e.tokenAddress])
  {
    var r := acc + [e];
    forall k | 0 <= k < |r|
      ensures r[k].transactions == Count(xs + [e.tokenAddress], r[k].tokenAddress)
    {
      CountAppend(xs, e.tokenAddress, r[k].tokenAddress);
    }
  }

  lemma {:induction false} GroupedStep(acc: seq<TokenProfit>, xs: seq<string>, a: string, r: seq<TokenProfit>)
    requires Grouped(acc, xs)
    requires Placed(acc, a, r)
    ensures Grouped(r, xs + [a])
  {
    var i := IndexOf(acc, a);
    if i < |acc| {
      assert r == acc[i := r[i]];
      GroupedExisting(acc, xs, i, r[i]);
    } else {
      assert r == acc + [r[i]];
      GroupedNew(acc, xs, r[i]);
    }
  }

  /** `calculateTokenProfits(soldTransactions)`: the loop at lines 127-153 over the
      sold trades, in order, throwing at the first trade that throws. */
  function CalculateTokenProfits(sold: seq<Transaction>): (r: Result<seq<TokenProfit>, JsError>)
    ensures r.Ok? ==> |r.value| <= |sold|
    decreases |sold|
  {
    if |sold| == 0 then Ok([])
    else
      var acc :- CalculateTokenProfits(sold[..|sold| - 1]);
      Accumulate(acc, sold[|sold| - 1])
  }

  /** One more sold trade: the scan so far throws, or the trade is accumulated into it. */
  lemma {:induction false} TokenProfitsStep(sold: seq<Transaction>)
    requires |sold| > 0
    ensures CalculateTokenProfits(sold[..|sold| - 1]).Err? ==> CalculateTokenProfits(sold).Err?
    ensures CalculateTokenProfits(sold[..|sold| - 1]).Ok? ==>
      CalculateTokenProfits(sold) == Accumulate(CalculateTokenProfits(sold[..|sold| - 1]).value, sold[|sold| - 1])
  {
  }

  /** A scan that did not throw, extended by one more sold trade. */
  lemma {:induction false} TokenProfitsSnoc(prefix: seq<Transaction>, tx: Transaction)
    requires CalculateTokenProfits(prefix).Ok?
    ensures CalculateTokenProfits(prefix + [tx]) == Accumulate(CalculateTokenProfits(prefix).value, tx)
  {
    assert (prefix + [tx])[..|prefix|] == prefix;
  }

  /** The grouping `calculateTokenProfits` produces: one entry per distinct token
      among the sold trades, in order of first appearance, each counting that
      token's trades, so the counters add up to the number of sold trades. */
  lemma {:induction false} TokenProfitsGrouped(sold: seq<Transaction>)
    ensures CalculateTokenProfits(sold).Ok? ==>
      Addresses(CalculateTokenProfits(sold).value) == FirstAppearances(TokenAddresses(sold))
    ensures CalculateTokenProfits(sold).Ok? ==>
      var r := CalculateTokenProfits(sold).value;
      forall i :: 0 <= i < |r| ==> r[i].transactions == Count(TokenAddresses(sold), r[i].tokenAddress)
    ensures CalculateTokenProfits(sold).Ok? ==> TransactionsTotal(CalculateTokenProfits(sold).value) == |sold|
    decreases |sold|
  {
    if |sold| > 0 && CalculateTokenProfits(sold).Ok? {
      var prefix := sold[..|sold| - 1];
      var tx := sold[|sold| - 1];
      TokenProfitsGrouped(prefix);
      var acc := CalculateTokenProfits(prefix).value;
      AccumulatePlaces(acc, tx);
      GroupedStep(acc, TokenAddresses(prefix), tx.tokenAddress, Accumulate(acc, tx).value);
    }
  }

  /** The entries' tokens are distinct. */
  lemma {:induction false} TokenProfitsDistinct(sold: seq<Transaction>)
    requires CalculateTokenProfits(sold).Ok?
    ensures var r := CalculateTokenProfits(sold).value;
      forall p, q :: 0 <= p < q < |r| ==> r[p].tokenAddress != r[q].tokenAddress
  {
    TokenProfitsGrouped(sold);
    var r := CalculateTokenProfits(sold).value;
    forall p, q | 0 <= p < q < |r|
      ensures r[p].tokenAddress != r[q].tokenAddress
    {
      assert Addresses(r)[p] != Addresses(r)[q];
    }
  }

  // ---------------------------------------------------------------------------
  // What the accumulated text reads back as

  /** The value a field that started at "0" reads back as after absorbing the
      non-negative amounts `xs` by text concatenation. */
  function ConcatFold(xs: seq<nat>): nat
    decreases |xs|
  {
    if |xs| == 0 then 0
    else ConcatFold(xs[..|xs| - 1]) * Pow10(DigitCount(xs[|xs| - 1])) + xs[|xs| - 1]
  }

  /** A single amount reads back as itself. */
  lemma ConcatFoldSingle(x: nat)
    ensures ConcatFold([x]) == x
  {
    assert [x][..0] == [];
  }

  /** The value the design intends a field to hold: the plain sum of the amounts. */
  function AmountSum(xs: seq<nat>): nat
    decreases |xs|
  {
    if |xs| == 0 then 0 else AmountSum(xs[..|xs| - 1]) + xs[|xs| - 1]
  }

  /** Gluing never reads back as less than adding. */
  lemma {:induction false} ConcatFoldAtLeastSum(xs: seq<nat>)
    ensures ConcatFold(xs) >= AmountSum(xs)
    decreases |xs|
  {
    if |xs| > 0 {
      var prefix, x := xs[..|xs| - 1], xs[|xs| - 1];
      ConcatFoldAtLeastSum(prefix);
      ScaleAtLeast(ConcatFold(prefix), Pow10(DigitCount(x)));
    }
  }

  /** Scaling by a factor of at least one does not shrink; by ten or more it grows tenfold. */
  lemma ScaleAtLeast(f: nat, w: nat)
    requires w >= 1
    ensures f * w >= f
    ensures w >= 10 ==> f * w >= 10 * f
  {
  }

  /** Both readings are zero exactly when every amount is zero. */
  lemma {:induction false} ZeroFolds(xs: seq<nat>)
    ensures ConcatFold(xs) == 0 <==> forall i :: 0 <= i < |xs| ==> xs[i] == 0
    ensures AmountSum(xs) == 0 <==> forall i :: 0 <= i < |xs| ==> xs[i] == 0
    decreases |xs|
  {
    if |xs| > 0 {
      var prefix := xs[..|xs| - 1];
      ZeroFolds(prefix);
      assert forall i :: 0 <= i < |prefix| ==> prefix[i] == xs[i];
    }
  }

  /** The accumulated field reads back as the sum of its amounts exactly when every
      amount before the last one is zero. So a token sold once reads exactly, and so
      does one whose earlier trades all carried zero. */
  lemma {:induction false} ConcatFoldIsSumIff(xs: seq<nat>)
    ensures ConcatFold(xs) == AmountSum(xs) <==> forall i :: 0 <= i < |xs| - 1 ==> xs[i] == 0
  {
    if |xs| > 0 {
      var prefix, x := xs[..|xs| - 1], xs[|xs| - 1];
      var f, t := ConcatFold(prefix), AmountSum(prefix);
      ConcatFoldAtLeastSum(prefix);
      ZeroFolds(prefix);
      assert forall i :: 0 <= i < |prefix| ==> prefix[i] == xs[i];
      var w := Pow10(DigitCount(x));
      assert w >= 10 by { assert DigitCount(x) >= 1; }
      ScaleAtLeast(f, w);
      assert ConcatFold(xs) == f * w + x;
    }
  }

  predicate NonNegative(r: Result<int, JsError>) {
    r.Ok? && r.value >= 0
  }

  /** A sold trade whose three amounts parse to non-negative bigints. */
  predicate Clean(tx: Transaction) {
    NonNegative(TradeAmount(tx, BuyColumn))
    && NonNegative(TradeAmount(tx, SellColumn))
    && NonNegative(TradeAmount(tx, ProfitColumn))
  }

  /** The non-negative amount a clean trade contributes to a column (0 otherwise). */
  function CleanAmount(tx: Transaction, c: Column): nat {
    var x := TradeAmount(tx, c);
    if x.Ok? && x.value >= 0 then x.value else 0
  }

  /** The amounts the trades of token `a` contribute to column `c`, in order. */
  function ColumnAmounts(txs: seq<Transaction>, a: string, c: Column): seq<nat>
    decreases |txs|
  {
    if |txs| == 0 then []
    else
      var prev := ColumnAmounts(txs[..|txs| - 1], a, c);
      var tx := txs[|txs| - 1];
      if tx.tokenAddress == a then prev + [CleanAmount(tx, c)] else prev
  }

  /** Every entry's text fields read back as the concatenation fold of its trades. */
  predicate FoldsRead(entries: seq<TokenProfit>, txs: seq<Transaction>)
  {
    forall i, c :: 0 <= i < |entries| ==>
      ParseBigInt(ColumnText(entries[i], c)) == Ok(ConcatFold(ColumnAmounts(txs, entries[i].tokenAddress, c)))
  }

  /** The amounts after one more trade: the trade's amount is added at the end
      when it is of token `a`, and nothing changes otherwise. */
  lemma {:induction false} ColumnAmountsSnoc(txs: seq<Transaction>, tx: Transaction, a: string, c: Column)
    ensures ColumnAmounts(txs + [tx], a, c)
      == if tx.tokenAddress == a then ColumnAmounts(txs, a, c) + [CleanAmount(tx, c)] else ColumnAmounts(txs, a, c)
  {
    assert (txs + [tx])[..|txs|] == txs;
  }

  /** Appending a non-negative amount's text extends the concatenation fold by that amount. */
  lemma AppendedReads(after: string, before: string, amount: Result<int, JsError>, prev: seq<nat>, x: nat)
    requires ParseBigInt(before) == Ok(ConcatFold(prev))
    requires amount == Ok(x)
    requires Appended(after, before, amount)
    ensures ParseBigInt(after) == Ok(ConcatFold(prev + [x]))
  {
    ConcatNonNegative(ConcatFold(prev), x);
    ConcatFoldSnoc(prev, x);
  }

  lemma {:induction false} ConcatFoldSnoc(prev: seq<nat>, x: nat)
    ensures ConcatFold(prev + [x]) == ConcatFold(prev) * Pow10(DigitCount(x)) + x
  {
    assert (prev + [x])[..|prev|] == prev;
  }

  /** The entry a trade of token `a` starts from reads back as the fold of the
      token's earlier amounts: "0" for a token not seen before. */
  lemma {:induction false} PriorReads(acc: seq<TokenProfit>, txs: seq<Transaction>, a: string, c: Column)
    requires FoldsRead(acc, txs)
    requires Addresses(acc) == FirstAppearances(TokenAddresses(txs))
    ensures ParseBigInt(ColumnText(Prior(acc, a), c)) == Ok(ConcatFold(ColumnAmounts(txs, a, c)))
  {
    if IndexOf(acc, a) == |acc| {
      assert a !in Addresses(acc);
      forall k | 0 <= k < |txs| ensures txs[k].tokenAddress != a {
        assert TokenAddresses(txs)[k] == txs[k].tokenAddress;
      }
      ColumnAmountsAbsent(txs, a, c);
      assert ColumnText(Prior(acc, a), c) == "0";
      ParseZero();
    }
  }

  /** One clean trade keeps every entry reading back as the fold of its token's amounts. */
  lemma {:induction false} FoldsReadStep(acc: seq<TokenProfit>, txs: seq<Transaction>, tx: Transaction)
    requires Clean(tx)
    requires FoldsRead(acc, txs)
    requires Addresses(acc) == FirstAppearances(TokenAddresses(txs))
    ensures Accumulate(acc, tx).Ok?
    ensures FoldsRead(Accumulate(acc, tx).value, txs + [tx])
  {
    var a := tx.tokenAddress;
    var prior := Prior(acc, a);
    PriorReads(acc, txs, a, BuyColumn);
    PriorReads(acc, txs, a, SellColumn);
    PriorReads(acc, txs, a, ProfitColumn);
    UpdateEntrySpec(prior, tx);
    AccumulatePlaces(acc, tx);
    var r := Accumulate(acc, tx).value;
    forall j, c | 0 <= j < |r|
      ensures ParseBigInt(ColumnText(r[j], c)) == Ok(ConcatFold(ColumnAmounts(txs + [tx], r[j].tokenAddress, c)))
    {
      if j == IndexOf(acc, a) {
        UpdatedEntryReads(acc, txs, tx, c);
      } else {
        OtherEntryReads(acc, txs, tx, j, c);
      }
    }
  }

  /** The entry the trade updates reads back as its earlier fold extended by the trade's amount. */
  lemma {:induction false} UpdatedEntryReads(acc: seq<TokenProfit>, txs: seq<Transaction>, tx: Transaction, c: Column)
    requires Clean(tx)
    requires FoldsRead(acc, txs)
    requires Addresses(acc) == FirstAppearances(TokenAddresses(txs))
    requires Accumulate(acc, tx).Ok?
    ensures IndexOf(acc, tx.tokenAddress) < |Accumulate(acc, tx).value|
    ensures ParseBigInt(ColumnText(Accumulate(acc, tx).value[IndexOf(acc, tx.tokenAddress)], c))
      == Ok(ConcatFold(ColumnAmounts(txs + [tx], tx.tokenAddress, c)))
  {
    var a := tx.tokenAddress;
    var prior := Prior(acc, a);
    AccumulatePlaces(acc, tx);
    ColumnAmountsSnoc(txs, tx, a, c);
    UpdatedColumn(prior, tx, c);
    PriorReads(acc, txs, a, c);
    AppendedReads(ColumnText(Accumulate(acc, tx).value[IndexOf(acc, a)], c), ColumnText(prior, c), TradeAmount(tx, c),
      ColumnAmounts(txs, a, c), CleanAmount(tx, c));
  }

  /** Every other entry is left as it was, and the trade adds nothing to its amounts. */
  lemma {:induction false} OtherEntryReads(acc: seq<TokenProfit>, txs: seq<Transaction>, tx: Transaction, j: nat, c: Column)
    requires FoldsRead(acc, txs)
    requires Addresses(acc) == FirstAppearances(TokenAddresses(txs))
    requires Accumulate(acc, tx).Ok?
    requires j < |Accumulate(acc, tx).value| && j != IndexOf(acc, tx.tokenAddress)
    ensures ParseBigInt(ColumnText(Accumulate(acc, tx).value[j], c))
      == Ok(ConcatFold(ColumnAmounts(txs + [tx], Accumulate(acc, tx).value[j].tokenAddress, c)))
  {
    var a := tx.tokenAddress;
    var i := IndexOf(acc, a);
    AccumulatePlaces(acc, tx);
    assert j < |acc|;
    assert Accumulate(acc, tx).value[j] == acc[j];
    assert acc[j].tokenAddress != a by {
      if i < |acc| {
        assert Addresses(acc)[i] != Addresses(acc)[j];
      }
    }
    ColumnAmountsSnoc(txs, tx, acc[j].tokenAddress, c);
  }

  /** A token that never occurs contributes nothing. */
  lemma {:induction false} ColumnAmountsAbsent(txs: seq<Transaction>, a: string, c: Column)
    requires forall k :: 0 <= k < |txs| ==> txs[k].tokenAddress != a
    ensures ColumnAmounts(txs, a, c) == []
    decreases |txs|
  {
    if |txs| > 0 {
      ColumnAmountsAbsent(txs[..|txs| - 1], a, c);
    }
  }

  /** With clean sold trades the accumulation never throws, and every field of every
      entry reads back as the concatenation fold of that token's amounts. */
  lemma {:induction false} CleanTradesAccumulate(sold: seq<Transaction>)
    requires forall k :: 0 <= k < |sold| ==> Clean(sold[k])
    ensures CalculateTokenProfits(sold).Ok?
    ensures FoldsRead(CalculateTokenProfits(sold).value, sold)
    decreases |sold|
  {
    if |sold| > 0 {
      var prefix := sold[..|sold| - 1];
      assert forall k :: 0 <= k < |prefix| ==> prefix[k] == sold[k];
      CleanTradesAccumulate(prefix);
      CleanTradeStep(prefix, sold[|sold| - 1]);
      LastSplit(sold);
    }
  }

  /** The step of `CleanTradesAccumulate`: one more clean trade. */
  lemma {:induction false} CleanTradeStep(prefix: seq<Transaction>, tx: Transaction)
    requires Clean(tx)
    requires CalculateTokenProfits(prefix).Ok?
    requires FoldsRead(CalculateTokenProfits(prefix).value, prefix)
    ensures CalculateTokenProfits(prefix + [tx]).Ok?
    ensures FoldsRead(CalculateTokenProfits(prefix + [tx]).value, prefix + [tx])
  {
    TokenProfitsSnoc(prefix, tx);
    TokenProfitsGrouped(prefix);
    FoldsReadStep(CalculateTokenProfits(prefix).value, prefix, tx);
  }

  /** With clean trades, a token sold exactly once has fields that read back as
      exactly that trade's amounts. */
  lemma {:induction false} SingleTradeReadsExactly(sold: seq<Transaction>, k: nat, c: Column)
    requires forall j :: 0 <= j < |sold| ==> Clean(sold[j])
    requires k < |sold|
    requires Count(TokenAddresses(sold), sold[k].tokenAddress) == 1
    ensures CalculateTokenProfits(sold).Ok?
    ensures var r := CalculateTokenProfits(sold).value;
      exists i :: 0 <= i < |r| && r[i].tokenAddress == sold[k].tokenAddress
        && ParseBigInt(ColumnText(r[i], c)) == TradeAmount(sold[k], c)
  {
    CleanTradesAccumulate(sold);
    var r := CalculateTokenProfits(sold).value;
    var i := EntryOfTrade(sold, k);
    SingleOccurrenceAmounts(sold, k, c);
    ConcatFoldSingle(CleanAmount(sold[k], c));
  }

  /** With clean trades, a token's field reads back as the sum of that token's amounts
      exactly when every amount before its last trade's is zero. */
  lemma {:induction false} CleanFieldIsSumIff(sold: seq<Transaction>, i: nat, c: Column)
    requires forall k :: 0 <= k < |sold| ==> Clean(sold[k])
    requires CalculateTokenProfits(sold).Ok? && i < |CalculateTokenProfits(sold).value|
    ensures var e := CalculateTokenProfits(sold).value[i];
      var xs := ColumnAmounts(sold, e.tokenAddress, c);
      ParseBigInt(ColumnText(e, c)) == Ok(AmountSum(xs)) <==> forall j :: 0 <= j < |xs| - 1 ==> xs[j] == 0
  {
    CleanTradesAccumulate(sold);
    var e := CalculateTokenProfits(sold).value[i];
    ConcatFoldIsSumIff(ColumnAmounts(sold, e.tokenAddress, c));
  }

  /** Every sold trade's token has an entry. */
  lemma {:induction false} EntryOfTrade(sold: seq<Transaction>, k: nat) returns (i: nat)
    requires k < |sold| && CalculateTokenProfits(sold).Ok?
    ensures i < |CalculateTokenProfits(sold).value|
    ensures CalculateTokenProfits(sold).value[i].tokenAddress == sold[k].tokenAddress
  {
    TokenProfitsGrouped(sold);
    var r := CalculateTokenProfits(sold).value;
    var a := sold[k].tokenAddress;
    assert TokenAddresses(sold)[k] == a;
    assert a in FirstAppearances(TokenAddresses(sold));
    i :| 0 <= i < |r| && Addresses(r)[i] == a;
  }

  /** The amounts of a token that occurs once among the trades: that one trade's. */
  lemma {:induction false} SingleOccurrenceAmounts(txs: seq<Transaction>, k: nat, c: Column)
    requires k < |txs|
    requires Count(TokenAddresses(txs), txs[k].tokenAddress) == 1
    ensures ColumnAmounts(txs, txs[k].tokenAddress, c) == [CleanAmount(txs[k], c)]
    decreases |txs|
  {
    var prefix := txs[..|txs| - 1];
    var a := txs[k].tokenAddress;
    TokenAddressesSnoc(txs);
    CountAppend(TokenAddresses(prefix), txs[|txs| - 1].tokenAddress, a);
    if k == |txs| - 1 {
      OnlyLastOccurrence(txs, c);
    } else {
      assert prefix[k] == txs[k];
      assert TokenAddresses(prefix)[k] == a;
      SingleOccurrenceAmounts(prefix, k, c);
    }
  }

  lemma {:induction false} TokenAddressesSnoc(txs: seq<Transaction>)
    requires |txs| > 0
    ensures TokenAddresses(txs) == TokenAddresses(txs[..|txs| - 1]) + [txs[|txs| - 1].tokenAddress]
  {
  }

  /** The last trade's token, absent from the earlier trades, has that trade's amount only. */
  lemma {:induction false} OnlyLastOccurrence(txs: seq<Transaction>, c: Column)
    requires |txs| > 0
    requires Count(TokenAddresses(txs[..|txs| - 1]), txs[|txs| - 1].tokenAddress) == 0
    ensures ColumnAmounts(txs, txs[|txs| - 1].tokenAddress, c) == [CleanAmount(txs[|txs| - 1], c)]
  {
    var prefix := txs[..|txs| - 1];
    var a := txs[|txs| - 1].tokenAddress;
    forall j | 0 <= j < |prefix|
      ensures prefix[j].tokenAddress != a
    {
      assert TokenAddresses(prefix)[j] == prefix[j].tokenAddress;
    }
    ColumnAmountsAbsent(prefix, a, c);
  }

  // ---------------------------------------------------------------------------
  // A negative amount poisons the field's text

  /** Token `a` has an entry whose column `c` no longer reads as a bigint. */
  predicate Poisoned(entries: seq<TokenProfit>, a: string, c: Column) {
    exists i :: 0 <= i < |entries| && entries[i].tokenAddress == a && ParseBigInt(ColumnText(entries[i], c)).Err?
  }

  /** Once a trade appends a negative amount to a column, that token's field stays
      unparsable for the rest of the scan, or a later trade of the token throws. */
  lemma {:induction false} NegativeAmountPoisons(sold: seq<Transaction>, j: nat, c: Column)
    requires j < |sold|
    requires TradeAmount(sold[j], c).Ok? && TradeAmount(sold[j], c).value < 0
    ensures CalculateTokenProfits(sold).Ok? ==> Poisoned(CalculateTokenProfits(sold).value, sold[j].tokenAddress, c)
    decreases |sold|
  {
    var prefix := sold[..|sold| - 1];
    if j == |sold| - 1 {
      LastTradePoisons(sold, c);
    } else {
      assert prefix[j] == sold[j];
      NegativeAmountPoisons(prefix, j, c);
      PoisonPersists(sold, sold[j].tokenAddress, c);
    }
  }

  /** The last trade appends a negative amount: its token ends up poisoned. */
  lemma {:induction false} LastTradePoisons(sold: seq<Transaction>, c: Column)
    requires |sold| > 0
    requires TradeAmount(sold[|sold| - 1], c).Ok? && TradeAmount(sold[|sold| - 1], c).value < 0
    ensures CalculateTokenProfits(sold).Ok? ==> Poisoned(CalculateTokenProfits(sold).value, sold[|sold| - 1].tokenAddress, c)
  {
    var pre := CalculateTokenProfits(sold[..|sold| - 1]);
    TokenProfitsStep(sold);
    if pre.Ok? {
      NegativeTradePoisons(pre.value, sold[|sold| - 1], c);
    }
  }

  /** A poisoned token stays poisoned through one more trade that does not throw. */
  lemma {:induction false} PoisonPersists(sold: seq<Transaction>, a: string, c: Column)
    requires |sold| > 0
    requires CalculateTokenProfits(sold[..|sold| - 1]).Ok? ==>
      Poisoned(CalculateTokenProfits(sold[..|sold| - 1]).value, a, c)
    ensures CalculateTokenProfits(sold).Ok? ==> Poisoned(CalculateTokenProfits(sold).value, a, c)
  {
    var prefix := sold[..|sold| - 1];
    var pre := CalculateTokenProfits(prefix);
    TokenProfitsStep(sold);
    if pre.Ok? {
      var acc := pre.value;
      var i :| 0 <= i < |acc| && acc[i].tokenAddress == a && ParseBigInt(ColumnText(acc[i], c)).Err?;
      TokenProfitsDistinct(prefix);
      PoisonedEntryBlocks(acc, sold[|sold| - 1], i, c);
    }
  }

  /** The trade that appends a negative amount leaves its token's field unparsable. */
  lemma {:induction false} NegativeTradePoisons(acc: seq<TokenProfit>, tx: Transaction, c: Column)
    requires TradeAmount(tx, c).Ok? && TradeAmount(tx, c).value < 0
    ensures Accumulate(acc, tx).Ok? ==> Poisoned(Accumulate(acc, tx).value, tx.tokenAddress, c)
  {
    if Accumulate(acc, tx).Ok? {
      var prior := Prior(acc, tx.tokenAddress);
      var i := IndexOf(acc, tx.tokenAddress);
      AccumulatePlaces(acc, tx);
      UpdatedColumn(prior, tx, c);
      ConcatNegative(ParseBigInt(ColumnText(prior, c)).value, TradeAmount(tx, c).value);
      assert Accumulate(acc, tx).value[i].tokenAddress == tx.tokenAddress;
    }
  }

  /** A later trade of a token whose field no longer parses throws; a trade of
      another token leaves that entry as it was. */
  lemma {:induction false} PoisonedEntryBlocks(acc: seq<TokenProfit>, tx: Transaction, i: nat, c: Column)
    requires i < |acc| && ParseBigInt(ColumnText(acc[i], c)).Err?
    requires forall p, q :: 0 <= p < q < |acc| ==> acc[p].tokenAddress != acc[q].tokenAddress
    ensures tx.tokenAddress == acc[i].tokenAddress ==> Accumulate(acc, tx).Err?
    ensures Accumulate(acc, tx).Ok? ==> i < |Accumulate(acc, tx).value| && Accumulate(acc, tx).value[i] == acc[i]
  {
    var m := IndexOf(acc, tx.tokenAddress);
    if tx.tokenAddress == acc[i].tokenAddress {
      assert m <= i;
      assert !FieldsParse(Prior(acc, tx.tokenAddress));
    } else {
      assert m != i;
    }
  }

  /** A sold trade whose amount does not parse, or that has no `soldVirtualAmount`,
      makes `calculateTokenProfits` throw. */
  lemma {:induction false} UnparsableTradeThrows(sold: seq<Transaction>, j: nat, c: Column)
    requires j < |sold|
    requires TradeAmount(sold[j], c).Err?
    ensures CalculateTokenProfits(sold).Err?
    decreases |sold|
  {
    var prefix := sold[..|sold| - 1];
    if j < |sold| - 1 {
      assert prefix[j] == sold[j];
      UnparsableTradeThrows(prefix, j, c);
      TokenProfitsStep(sold);
    } else {
      LastTradeThrows(sold, c);
    }
  }

  lemma {:induction false} LastTradeThrows(sold: seq<Transaction>, c: Column)
    requires |sold| > 0 && TradeAmount(sold[|sold| - 1], c).Err?
    ensures CalculateTokenProfits(sold).Err?
  {
    var pre := CalculateTokenProfits(sold[..|sold| - 1]);
    TokenProfitsStep(sold);
    if pre.Ok? {
      TradeThrows(pre.value, sold[|sold| - 1], c);
    }
  }

  /** One trade whose amount does not parse makes its loop iteration throw. */
  lemma {:induction false} TradeThrows(acc: seq<TokenProfit>, tx: Transaction, c: Column)
    requires TradeAmount(tx, c).Err?
    ensures Accumulate(acc, tx).Err?
  {
    UpdateEntrySpec(Prior(acc, tx.tokenAddress), tx);
  }

  // ---------------------------------------------------------------------------
  // Totals

  /** The value a text parses to, or 0 when it does not parse. */
  function AmountOf(s: string): int {
    if ParseBigInt(s).Ok? then ParseBigInt(s).value else 0
  }

  /** Reference sum of the parsed texts, independent of the fold below. */
  function SumAmounts<T>(xs: seq<T>, text: T -> string): int
    decreases |xs|
  {
    if |xs| == 0 then 0 else AmountOf(text(xs[0])) + SumAmounts(xs[1..], text)
  }

  lemma {:induction false} SumAmountsAppend<T>(a: seq<T>, b: seq<T>, text: T -> string)
    ensures SumAmounts(a + b, text) == SumAmounts(a, text) + SumAmounts(b, text)
    decreases |a|
  {
    if |a| == 0 {
      assert a + b == b;
    } else {
      assert (a + b)[1..] == a[1..] + b;
      SumAmountsAppend(a[1..], b, text);
    }
  }

  /** The sum does not depend on the order of the items. */
  lemma {:induction false} SumAmountsPermutation<T>(a: seq<T>, b: seq<T>, text: T -> string)
    requires multiset(a) == multiset(b)
    ensures SumAmounts(a, text) == SumAmounts(b, text)
    decreases |a|
  {
    if |a| == 0 {
      assert |b| == |multiset(b)| == 0;
    } else {
      var x := a[0];
      assert x in multiset(b);
      var j :| 0 <= j < |b| && b[j] == x;
      MultisetDrop(a, b, j);
      SumAmountsPermutation(a[1..], b[..j] + b[j + 1..], text);
      SumAmountsRemove(b, j, text);
    }
  }

  /** Taking the first item off `a` and a matching item off `b` keeps their multisets equal. */
  lemma MultisetDrop<T>(a: seq<T>, b: seq<T>, j: nat)
    requires multiset(a) == multiset(b)
    requires |a| > 0 && j < |b| && b[j] == a[0]
    ensures multiset(a[1..]) == multiset(b[..j] + b[j + 1..])
  {
    assert a == [a[0]] + a[1..];
    assert b == b[..j] + [b[j]] + b[j + 1..];
    assert multiset(b) == multiset(b[..j]) + multiset([b[j]]) + multiset(b[j + 1..]);
    assert multiset(b[..j] + b[j + 1..]) == multiset(b[..j]) + multiset(b[j + 1..]);
    assert multiset(a[1..]) == multiset(a) - multiset([a[0]]);
  }

  /** The sum over `b` is item `j`'s amount plus the sum over the rest. */
  lemma SumAmountsRemove<T>(b: seq<T>, j: nat, text: T -> string)
    requires j < |b|
    ensures SumAmounts(b, text) == AmountOf(text(b[j])) + SumAmounts(b[..j] + b[j + 1..], text)
  {
    var tail := b[j..];
    assert b == b[..j] + tail;
    assert tail[1..] == b[j + 1..];
    SumAmountsAppend(b[..j], tail, text);
    SumAmountsAppend(b[..j], b[j + 1..], text);
  }

  /** `xs.reduce((total, x) => total + BigInt(text(x)), BigInt(0))`, left to right,
      throwing at the first text that does not parse. */
  function ReduceBigInt<T>(xs: seq<T>, text: T -> string): (r: Result<int, JsError>)
    ensures r.Ok? <==> forall i :: 0 <= i < |xs| ==> ParseBigInt(text(xs[i])).Ok?
    ensures r.Ok? ==> r.value == SumAmounts(xs, text)
    decreases |xs|
  {
    if |xs| == 0 then Ok(0)
    else
      var prefix := xs[..|xs| - 1];
      var last := xs[|xs| - 1];
      assert xs == prefix + [last];
      SumAmountsAppend(prefix, [last], text);
      var total :- ReduceBigInt(prefix, text);
      var x :- ParseBigInt(text(last));
      Ok(total + x)
  }

  function ProfitText(e: TokenProfit): string {
    e.profit
  }

  function BuyCostText(tx: Transaction): string {
    tx.buyCostVirtualAmount
  }

  function BuyAmountText(h: HoldingRecord): string {
    h.buyAmount
  }

  /** `calculateTotalProfit(tokenProfits)`: the sum of the entries' parsed `profit`
      fields, as text; "0" for no entries; throws when a field does not parse. */
  function CalculateTotalProfit(tokenProfits: seq<TokenProfit>): (r: Result<string, JsError>)
    ensures r.Ok? <==> forall i :: 0 <= i < |tokenProfits| ==> ParseBigInt(tokenProfits[i].profit).Ok?
    ensures r.Ok? ==> r.value == ToDecimal(SumAmounts(tokenProfits, ProfitText))
    ensures r.Ok? ==> ParseBigInt(r.value) == Ok(SumAmounts(tokenProfits, ProfitText))
    ensures |tokenProfits| == 0 ==> r == Ok("0")
  {
    var total :- ReduceBigInt(tokenProfits, ProfitText);
    Ok(ToDecimal(total))
  }

  /** `calculateTotalInvestment(holdingTransactions)`: the exact sum of the parsed
      `buyCostVirtualAmount` fields, as text; "0" for none; throws when one does not parse. */
  function CalculateTotalInvestment(holding: seq<Transaction>): (r: Result<string, JsError>)
    ensures r.Ok? <==> forall i :: 0 <= i < |holding| ==> ParseBigInt(holding[i].buyCostVirtualAmount).Ok?
    ensures r.Ok? ==> r.value == ToDecimal(SumAmounts(holding, BuyCostText))
    ensures r.Ok? ==> ParseBigInt(r.value) == Ok(SumAmounts(holding, BuyCostText))
    ensures |holding| == 0 ==> r == Ok("0")
  {
    var total :- ReduceBigInt(holding, BuyCostText);
    Ok(ToDecimal(total))
  }

  /** The total investment does not depend on the order of the holding records. */
  lemma {:induction false} InvestmentOrderIndependent(a: seq<Transaction>, b: seq<Transaction>)
    requires multiset(a) == multiset(b)
    ensures CalculateTotalInvestment(a).Ok? <==> CalculateTotalInvestment(b).Ok?
    ensures CalculateTotalInvestment(a).Ok? ==> CalculateTotalInvestment(a) == CalculateTotalInvestment(b)
  {
    if CalculateTotalInvestment(b).Ok? {
      SameElementsParse(b, a);
    }
    if CalculateTotalInvestment(a).Ok? {
      SameElementsParse(a, b);
      SumAmountsPermutation(a, b, BuyCostText);
      var s := SumAmounts(a, BuyCostText);
      assert CalculateTotalInvestment(a) == Ok(ToDecimal(s));
      assert CalculateTotalInvestment(b) == Ok(ToDecimal(s));
    }
  }

  /** Whether every buy cost parses depends only on which records there are. */
  lemma {:induction false} SameElementsParse(a: seq<Transaction>, b: seq<Transaction>)
    requires multiset(a) == multiset(b)
    requires forall i :: 0 <= i < |a| ==> ParseBigInt(a[i].buyCostVirtualAmount).Ok?
    ensures forall j :: 0 <= j < |b| ==> ParseBigInt(b[j].buyCostVirtualAmount).Ok?
  {
    forall j | 0 <= j < |b|
      ensures ParseBigInt(b[j].buyCostVirtualAmount).Ok?
    {
      assert b[j] in multiset(a);
      var i :| 0 <= i < |a| && a[i] == b[j];
    }
  }

  /** `formatHoldingRecords(holdingTransactions)`: one record per holding trade, in
      the same order, copying its token, buy time and hash, with its buy cost as `buyAmount`. */
  function FormatHoldingRecords(holding: seq<Transaction>): (r: seq<HoldingRecord>)
    ensures |r| == |holding|
    ensures forall i :: 0 <= i < |r| ==>
      && r[i].tokenAddress == holding[i].tokenAddress
      && r[i].buyAmount == holding[i].buyCostVirtualAmount
      && r[i].buyTime == holding[i].buyTime
      && r[i].transactionHash == holding[i].transactionHash
  {
    seq(|holding|, i requires 0 <= i < |holding| =>
      HoldingRecord(holding[i].tokenAddress, holding[i].buyCostVirtualAmount, holding[i].buyTime, holding[i].transactionHash))
  }

  /** The reported investment is the sum of the reported records' `buyAmount`s. */
  lemma {:induction false} InvestmentMatchesRecords(holding: seq<Transaction>)
    ensures CalculateTotalInvestment(holding).Ok? ==>
      CalculateTotalInvestment(holding).value == ToDecimal(SumAmounts(FormatHoldingRecords(holding), BuyAmountText))
    decreases |holding|
  {
    SameTextsSameSum(holding, FormatHoldingRecords(holding));
  }

  lemma {:induction false} SameTextsSameSum(txs: seq<Transaction>, records: seq<HoldingRecord>)
    requires |txs| == |records|
    requires forall i :: 0 <= i < |txs| ==> records[i].buyAmount == txs[i].buyCostVirtualAmount
    ensures SumAmounts(txs, BuyCostText) == SumAmounts(records, BuyAmountText)
    decreases |txs|
  {
    if |txs| > 0 {
      SameTextsSameSum(txs[1..], records[1..]);
    }
  }

  // ---------------------------------------------------------------------------
  // The exported statistics

  /** `getSoldTokensProfits()`: sold trades of the full scan, grouped and totalled. */
  function GetSoldTokensProfits(db: Ledger): (r: Result<SoldTokens, JsError>)
    ensures var sold := FilterStatus(GetAllTransactions(db), Sold);
      r.Ok? <==> CalculateTokenProfits(sold).Ok? && CalculateTotalProfit(CalculateTokenProfits(sold).value).Ok?
    ensures r.Ok? ==> r.value.tokenProfits == CalculateTokenProfits(FilterStatus(GetAllTransactions(db), Sold)).value
    ensures r.Ok? ==> r.value.totalProfit == ToDecimal(SumAmounts(r.value.tokenProfits, ProfitText))
  {
    var sold := FilterStatus(GetAllTransactions(db), Sold);
    var tokenProfits :- CalculateTokenProfits(sold);
    var totalProfit :- CalculateTotalProfit(tokenProfits);
    Ok(SoldTokens(tokenProfits, totalProfit))
  }

  /** Every trade's `buyCostVirtualAmount` reads as a bigint. */
  predicate CostsParse(txs: seq<Transaction>) {
    forall i :: 0 <= i < |txs| ==> ParseBigInt(txs[i].buyCostVirtualAmount).Ok?
  }

  /** `getHoldingTokensStatistics()`: holding trades of the full scan, listed and totalled. */
  function GetHoldingTokensStatistics(db: Ledger): (r: Result<HoldingTokens, JsError>)
    ensures r.Ok? <==> CostsParse(FilterStatus(GetAllTransactions(db), Bought))
    ensures r.Ok? ==> r.value.records == FormatHoldingRecords(FilterStatus(GetAllTransactions(db), Bought))
    ensures r.Ok? ==> r.value.totalInvestment == ToDecimal(SumAmounts(FilterStatus(GetAllTransactions(db), Bought), BuyCostText))
  {
    var holding := FilterStatus(GetAllTransactions(db), Bought);
    var records := FormatHoldingRecords(holding);
    var total := CalculateTotalInvestment(holding);
    if total.Err? then Err(total.error) else Ok(HoldingTokens(records, total.value))
  }

  /** `getTradeStatistics()`: both halves from one scan. It succeeds exactly when the
      two separately exported statistics do, reports the same values, and throws the
      sold half's error first. */
  function GetTradeStatistics(db: Ledger): (r: Result<StatisticsResult, JsError>)
    ensures r.Ok? <==> GetSoldTokensProfits(db).Ok? && GetHoldingTokensStatistics(db).Ok?
    ensures r.Ok? ==> r.value == StatisticsResult(GetSoldTokensProfits(db).value, GetHoldingTokensStatistics(db).value)
    ensures GetSoldTokensProfits(db).Err? ==> r == Err(GetSoldTokensProfits(db).error)
  {
    var all := GetAllTransactions(db);
    var soldTransactions := FilterStatus(all, Sold);
    var holdingTransactions := FilterStatus(all, Bought);
    var tokenProfits :- CalculateTokenProfits(soldTransactions);
    var totalProfit :- CalculateTotalProfit(tokenProfits);
    var holdingRecords := FormatHoldingRecords(holdingTransactions);
    var totalInvestment :- CalculateTotalInvestment(holdingTransactions);
    Ok(StatisticsResult(SoldTokens(tokenProfits, totalProfit), HoldingTokens(holdingRecords, totalInvestment)))
  }

  /** Lines 41-42 split the scan: SOLD records go to the sold list and BOUGHT ones to
      the holding list, FAILED ones to neither, none to both, and nothing is lost. */
  lemma {:induction false} SplitByStatus(all: seq<Transaction>)
    ensures forall t :: t in FilterStatus(all, Sold) <==> t in all && t.status == Sold
    ensures forall t :: t in FilterStatus(all, Bought) <==> t in all && t.status == Bought
    ensures forall t :: !(t in FilterStatus(all, Sold) && t in FilterStatus(all, Bought))
    ensures multiset(all)
      == multiset(FilterStatus(all, Sold)) + multiset(FilterStatus(all, Bought)) + multiset(FilterStatus(all, Failed))
    decreases |all|
  {
    if |all| > 0 {
      SplitByStatus(all[1..]);
      assert all == [all[0]] + all[1..];
    }
  }

  /** A sold trade with a negative profit makes `getTradeStatistics` throw: either a
      later trade of the same token re-parses the text (line 147), or the total does (line 161). */
  lemma NegativeProfitThrows(db: Ledger, t: Transaction)
    requires t in db.records.Values && t.status == Sold
    requires TradeAmount(t, ProfitColumn).Ok? && TradeAmount(t, ProfitColumn).value < 0
    ensures GetTradeStatistics(db).Err?
  {
    var sold := FilterStatus(GetAllTransactions(db), Sold);
    assert t in sold;
    var j :| 0 <= j < |sold| && sold[j] == t;
    NegativeAmountPoisons(sold, j, ProfitColumn);
    if CalculateTokenProfits(sold).Ok? {
      PoisonedTotalThrows(CalculateTokenProfits(sold).value, t.tokenAddress);
    }
  }

  /** An entry whose profit text does not parse makes the total profit throw. */
  lemma {:induction false} PoisonedTotalThrows(entries: seq<TokenProfit>, a: string)
    requires Poisoned(entries, a, ProfitColumn)
    ensures CalculateTotalProfit(entries).Err?
  {
    var i :| 0 <= i < |entries| && entries[i].tokenAddress == a && ParseBigInt(ColumnText(entries[i], ProfitColumn)).Err?;
    assert ParseBigInt(entries[i].profit).Err?;
  }

  // ---------------------------------------------------------------------------
  // A worked example of the concatenation

  const T1 := Transaction("0xa1", "0xtoken", "0xpair", "1", "t1", "10", Some("t3"), Some("3"), Some("2"), Sold)
  const T2 := Transaction("0xa2", "0xtoken", "0xpair", "2", "t2", "20", Some("t4"), Some("4"), Some("2"), Sold)

  /** The texts of the small values the example uses. */
  lemma SmallTexts()
    ensures ToDecimal(0) == "0" && ToDecimal(1) == "1" && ToDecimal(2) == "2"
    ensures ToDecimal(3) == "3" && ToDecimal(4) == "4"
    ensures ToDecimal(22) == "22"
  {
    assert NatText(2) == "2";
  }

  /** After the first trade the entry holds "01", "03" and "02". */
  lemma FirstTrade()
    ensures CalculateTokenProfits([T1]) == Ok([TokenProfit("0xtoken", "01", "03", "02", 1)])
  {
    SmallTexts();
    assert [T1][..0] == [];
    assert TradeAmount(T1, BuyColumn) == Ok(1);
    assert TradeAmount(T1, SellColumn) == Ok(3);
    assert TradeAmount(T1, ProfitColumn) == Ok(2);
    ParseZero();
    var e := UpdateEntry(FreshEntry("0xtoken"), T1);
    assert FieldsParse(FreshEntry("0xtoken"));
    assert e.Ok?;
    assert "0" + "1" == "01" && "0" + "3" == "03" && "0" + "2" == "02";
    assert e == Ok(TokenProfit("0xtoken", "01", "03", "02", 1));
    var r := Accumulate([], T1);
    assert r.Ok?;
    assert |r.value| == 1 && r.value[0] == e.value;
    assert r.value == [e.value];
    assert CalculateTokenProfits([T1]) == r;
  }

  /** The second trade parses "01", "03" and "02" back and appends its own amounts. */
  lemma SecondEntry()
    ensures UpdateEntry(TokenProfit("0xtoken", "01", "03", "02", 1), T2)
      == Ok(TokenProfit("0xtoken", "12", "34", "22", 2))
  {
    SmallTexts();
    FirstEntryParses();
    var e1 := TokenProfit("0xtoken", "01", "03", "02", 1);
    assert TradeAmount(T2, BuyColumn) == Ok(2);
    assert TradeAmount(T2, SellColumn) == Ok(4);
    assert TradeAmount(T2, ProfitColumn) == Ok(2);
    assert FieldsParse(e1);
    assert "1" + "2" == "12" && "3" + "4" == "34" && "2" + "2" == "22";
  }

  /** The texts the first trade leaves behind parse with their leading zero dropped. */
  lemma FirstEntryParses()
    ensures ParseBigInt("01") == Ok(1) && ParseBigInt("03") == Ok(3) && ParseBigInt("02") == Ok(2)
  {
    SmallTexts();
    ConcatNonNegative(0, 1);
    ConcatNonNegative(0, 3);
    ConcatNonNegative(0, 2);
  }

  /** The second trade updates the token's one entry in place. */
  lemma SecondTrade()
    ensures Accumulate([TokenProfit("0xtoken", "01", "03", "02", 1)], T2)
      == Ok([TokenProfit("0xtoken", "12", "34", "22", 2)])
  {
    var e1 := TokenProfit("0xtoken", "01", "03", "02", 1);
    SecondEntry();
    var e2 := TokenProfit("0xtoken", "12", "34", "22", 2);
    assert IndexOf([e1], "0xtoken") == 0;
    assert Prior([e1], "0xtoken") == e1;
    assert Store([e1], "0xtoken", e2) == [e2];
  }

  /** Two sold trades of one token: the fields hold the glued texts "12", "34" and
      "22" where the sums would be 3, 7 and 4, and the total profit reads 22. */
  lemma TwoTradesConcatenate()
    ensures CalculateTokenProfits([T1, T2]) == Ok([TokenProfit("0xtoken", "12", "34", "22", 2)])
    ensures CalculateTotalProfit([TokenProfit("0xtoken", "12", "34", "22", 2)]) == Ok("22")
  {
    assert [T1, T2][..1] == [T1];
    FirstTrade();
    SecondTrade();
    GluedTotal();
  }

  lemma GluedTotal()
    ensures CalculateTotalProfit([TokenProfit("0xtoken", "12", "34", "22", 2)]) == Ok("22")
  {
    SmallTexts();
    ConcatNonNegative(2, 2);
    assert ParseBigInt("22") == Ok(22);
  }
}
