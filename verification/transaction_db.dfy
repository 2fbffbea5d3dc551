/** The trade ledger of src/db/TransactionDB.ts: a key-value store of `Transaction`
    records keyed by `transactionHash`, with put, point lookup, merge-update and a
    status-filtered scan. The store is a map; a scan visits it in key order. */
module TransactionDB {
  import opened Results
  import opened KeyOrder

  datatype Status = Bought | Sold | Failed

  /** One trade. Amounts and times are kept as the text the bot stored. */
  datatype Transaction = Transaction(
    transactionHash: string,
    tokenAddress: string,
    pairAddress: string,
    buyCostVirtualAmount: string,
    buyTime: string,
    purchasedToken: string,
    sellTime: Option<string>,
    soldVirtualAmount: Option<string>,
    profit: Option<string>,
    status: Status)

  /** A `Partial<Transaction>`: `None` is a property the update object does not carry. */
  datatype Patch = Patch(
    transactionHash: Option<string>,
    tokenAddress: Option<string>,
    pairAddress: Option<string>,
    buyCostVirtualAmount: Option<string>,
    buyTime: Option<string>,
    purchasedToken: Option<string>,
    sellTime: Option<string>,
    soldVirtualAmount: Option<string>,
    profit: Option<string>,
    status: Option<Status>)

  /** The update object `{}`. */
  const NoChange := Patch(None, None, None, None, None, None, None, None, None, None)

  /** The stored records, by key. */
  datatype Ledger = Ledger(records: map<string, Transaction>)

  /** `updateTransaction` throws when no record is stored under the hash. */
  datatype DbError = NotFound(hash: string)

  /** The store after an update, and whether the update threw. */
  datatype Updated = Updated(db: Ledger, outcome: Outcome<DbError>)

  /** Every record is stored under its own hash. Save and update keep this true,
      since both write a record under its `transactionHash`. */
  predicate WellKeyed(db: Ledger) {
    forall k :: k in db.records ==> db.records[k].transactionHash == k
  }

  /** Records listed in strictly ascending hash order (so none twice). */
  predicate HashAscending(txs: seq<Transaction>) {
    forall i, j :: 0 <= i < j < |txs| ==> Below(txs[i].transactionHash, txs[j].transactionHash)
  }

  // ---------------------------------------------------------------------------
  // Field view: the properties of a record, by name, as object spread sees them

  datatype Field =
    | HashField | TokenField | PairField | BuyCostField | BuyTimeField
    | PurchasedField | SellTimeField | SoldAmountField | ProfitField | StatusField

  datatype FieldValue = Text(text: string) | OptionalText(optional: Option<string>) | StatusValue(status: Status)

  function FieldOf(t: Transaction, f: Field): FieldValue {
    match f
    case HashField => Text(t.transactionHash)
    case TokenField => Text(t.tokenAddress)
    case PairField => Text(t.pairAddress)
    case BuyCostField => Text(t.buyCostVirtualAmount)
    case BuyTimeField => Text(t.buyTime)
    case PurchasedField => Text(t.purchasedToken)
    case SellTimeField => OptionalText(t.sellTime)
    case SoldAmountField => OptionalText(t.soldVirtualAmount)
    case ProfitField => OptionalText(t.profit)
    case StatusField => StatusValue(t.status)
  }

  /** The value a patch carries for a property, if it carries one. */
  function PatchOf(u: Patch, f: Field): Option<FieldValue> {
    match f
    case HashField => if u.transactionHash.Some? then Some(Text(u.transactionHash.value)) else None
    case TokenField => if u.tokenAddress.Some? then Some(Text(u.tokenAddress.value)) else None
    case PairField => if u.pairAddress.Some? then Some(Text(u.pairAddress.value)) else None
    case BuyCostField => if u.buyCostVirtualAmount.Some? then Some(Text(u.buyCostVirtualAmount.value)) else None
    case BuyTimeField => if u.buyTime.Some? then Some(Text(u.buyTime.value)) else None
    case PurchasedField => if u.purchasedToken.Some? then Some(Text(u.purchasedToken.value)) else None
    case SellTimeField => if u.sellTime.Some? then Some(OptionalText(u.sellTime)) else None
    case SoldAmountField => if u.soldVirtualAmount.Some? then Some(OptionalText(u.soldVirtualAmount)) else None
    case ProfitField => if u.profit.Some? then Some(OptionalText(u.profit)) else None
    case StatusField => if u.status.Some? then Some(StatusValue(u.status.value)) else None
  }

  /** Two records that agree on every property are the same record. */
  lemma FieldsDetermineRecord(a: Transaction, b: Transaction)
    requires forall f :: FieldOf(a, f) == FieldOf(b, f)
    ensures a == b
  {
    assert FieldOf(a, HashField) == FieldOf(b, HashField);
    assert FieldOf(a, TokenField) == FieldOf(b, TokenField);
    assert FieldOf(a, PairField) == FieldOf(b, PairField);
    assert FieldOf(a, BuyCostField) == FieldOf(b, BuyCostField);
    assert FieldOf(a, BuyTimeField) == FieldOf(b, BuyTimeField);
    assert FieldOf(a, PurchasedField) == FieldOf(b, PurchasedField);
    assert FieldOf(a, SellTimeField) == FieldOf(b, SellTimeField);
    assert FieldOf(a, SoldAmountField) == FieldOf(b, SoldAmountField);
    assert FieldOf(a, ProfitField) == FieldOf(b, ProfitField);
    assert FieldOf(a, StatusField) == FieldOf(b, StatusField);
  }

  /** `{ ...t, ...u }`: every property the update carries wins, every other one is kept. */
  function Merge(t: Transaction, u: Patch): (r: Transaction)
    ensures forall f :: FieldOf(r, f) == if PatchOf(u, f).Some? then PatchOf(u, f).value else FieldOf(t, f)
  {
    Transaction(
      u.transactionHash.GetOr(t.transactionHash),
      u.tokenAddress.GetOr(t.tokenAddress),
      u.pairAddress.GetOr(t.pairAddress),
      u.buyCostVirtualAmount.GetOr(t.buyCostVirtualAmount),
      u.buyTime.GetOr(t.buyTime),
      u.purchasedToken.GetOr(t.purchasedToken),
      if u.sellTime.Some? then u.sellTime else t.sellTime,
      if u.soldVirtualAmount.Some? then u.soldVirtualAmount else t.soldVirtualAmount,
      if u.profit.Some? then u.profit else t.profit,
      u.status.GetOr(t.status))
  }

  /** An update object carrying no property leaves the record as it was. */
  lemma MergeNoChange(t: Transaction)
    ensures Merge(t, NoChange) == t
  {
  }

  /** Applying the same update twice is the same as applying it once. */
  lemma MergeIdempotent(t: Transaction, u: Patch)
    ensures Merge(Merge(t, u), u) == Merge(t, u)
  {
    forall f ensures FieldOf(Merge(Merge(t, u), u), f) == FieldOf(Merge(t, u), f) {
    }
    FieldsDetermineRecord(Merge(Merge(t, u), u), Merge(t, u));
  }

  // ---------------------------------------------------------------------------
  // Operations

  /** `getTransaction(hash)`: the stored record, or null when absent. */
  function GetTransaction(db: Ledger, hash: string): (r: Option<Transaction>)
    ensures r.Some? <==> hash in db.records
    ensures r.Some? ==> r.value == db.records[hash]
  {
    if hash in db.records then Some(db.records[hash]) else None
  }

  /** `saveTransaction(t)`: a put under `t.transactionHash`, replacing any earlier record there. */
  function SaveTransaction(db: Ledger, t: Transaction): (r: Ledger)
    ensures GetTransaction(r, t.transactionHash) == Some(t)
    ensures forall h :: h != t.transactionHash ==> GetTransaction(r, h) == GetTransaction(db, h)
    ensures r.records.Keys == db.records.Keys + {t.transactionHash}
    ensures WellKeyed(db) ==> WellKeyed(r)
  {
    Ledger(db.records[t.transactionHash := t])
  }

  /** `updateTransaction(hash, updates)`: look the record up, throw if it is absent,
      otherwise save the merged record, under the merged record's own hash. */
  function UpdateTransaction(db: Ledger, hash: string, updates: Patch): (r: Updated)
    ensures r.outcome.Fail? <==> hash !in db.records
    ensures r.outcome.Fail? ==> r.db == db && r.outcome.error == NotFound(hash)
    ensures r.outcome.Pass? ==>
      var merged := Merge(db.records[hash], updates);
      && GetTransaction(r.db, merged.transactionHash) == Some(merged)
      && forall h :: h != merged.transactionHash ==> GetTransaction(r.db, h) == GetTransaction(db, h)
    ensures WellKeyed(db) ==> WellKeyed(r.db)
    ensures WellKeyed(db) && updates.transactionHash.None? ==> r.db.records.Keys == db.records.Keys
  {
    match GetTransaction(db, hash)
    case None => Updated(db, Fail(NotFound(hash)))
    case Some(t) => Updated(SaveTransaction(db, Merge(t, updates)), Pass)
  }

  /** The records of `txs` whose status is `status`, in their order. */
  function FilterStatus(txs: seq<Transaction>, status: Status): (r: seq<Transaction>)
    ensures |r| <= |txs|
    ensures forall t :: t in r <==> t in txs && t.status == status
    decreases |txs|
  {
    if |txs| == 0 then []
    else if txs[0].status == status then [txs[0]] + FilterStatus(txs[1..], status)
    else FilterStatus(txs[1..], status)
  }

  /** Filtering distributes over concatenation: it keeps the order of the input. */
  lemma {:induction false} FilterAppend(a: seq<Transaction>, b: seq<Transaction>, status: Status)
    ensures FilterStatus(a + b, status) == FilterStatus(a, status) + FilterStatus(b, status)
    decreases |a|
  {
    if |a| == 0 {
      assert a + b == b;
    } else {
      assert (a + b)[1..] == a[1..] + b;
      FilterAppend(a[1..], b, status);
    }
  }

  /** Filtering a hash-ascending list leaves it hash-ascending. */
  lemma {:induction false} FilterKeepsAscending(txs: seq<Transaction>, status: Status)
    requires HashAscending(txs)
    ensures HashAscending(FilterStatus(txs, status))
    decreases |txs|
  {
    if |txs| > 0 {
      var rest := FilterStatus(txs[1..], status);
      FilterKeepsAscending(txs[1..], status);
      if txs[0].status == status {
        forall j | 0 <= j < |rest|
          ensures Below(txs[0].transactionHash, rest[j].transactionHash)
        {
          assert rest[j] in txs[1..];
          var k :| 0 <= k < |txs[1..]| && txs[1..][k] == rest[j];
          assert txs[k + 1] == rest[j];
        }
      }
    }
  }

  /** The full scan: every stored record, visited in ascending key order. The ledger
      code calls it without defining it; this is the scan its store provides. */
  function GetAllTransactions(db: Ledger): (r: seq<Transaction>)
    ensures |r| == |db.records|
    ensures forall t :: t in r <==> t in db.records.Values
    ensures WellKeyed(db) ==> HashAscending(r)
  {
    var keys := Ascending(db.records.Keys);
    ScanFollowsKeys(db, keys);
    Scan(db, keys)
  }

  /** The records stored under `keys`, in the order of `keys`. */
  function Scan(db: Ledger, keys: seq<string>): seq<Transaction>
    requires forall i :: 0 <= i < |keys| ==> keys[i] in db.records
  {
    seq(|keys|, i requires 0 <= i < |keys| => db.records[keys[i]])
  }

  /** A scan along every key, in ascending order, meets the full scan's promises. */
  lemma ScanFollowsKeys(db: Ledger, keys: seq<string>)
    requires |keys| == |db.records.Keys|
    requires forall k :: k in keys <==> k in db.records
    requires forall i, j :: 0 <= i < j < |keys| ==> Below(keys[i], keys[j])
    ensures forall i :: 0 <= i < |keys| ==> keys[i] in db.records
    ensures |Scan(db, keys)| == |db.records|
    ensures forall t :: t in Scan(db, keys) <==> t in db.records.Values
    ensures WellKeyed(db) ==> HashAscending(Scan(db, keys))
  {
    assert forall i :: 0 <= i < |keys| ==> keys[i] in db.records by {
      forall i | 0 <= i < |keys| ensures keys[i] in db.records {
        assert keys[i] in keys;
      }
    }
    var r := Scan(db, keys);
    ScanCovers(db, keys, r);
    if WellKeyed(db) {
      ScanAscending(db, keys, r);
    }
  }

  /** A scan that visits every key lists every stored record. */
  lemma ScanCovers(db: Ledger, keys: seq<string>, r: seq<Transaction>)
    requires forall k :: k in keys <==> k in db.records
    requires |r| == |keys| && forall i :: 0 <= i < |keys| ==> r[i] == db.records[keys[i]]
    ensures forall t :: t in db.records.Values ==> t in r
  {
    forall t | t in db.records.Values
      ensures t in r
    {
      var k :| k in db.records && db.records[k] == t;
      var i :| 0 <= i < |keys| && keys[i] == k;
      assert r[i] == t;
    }
  }

  /** A scan in ascending key order lists well-keyed records in ascending hash order. */
  lemma ScanAscending(db: Ledger, keys: seq<string>, r: seq<Transaction>)
    requires WellKeyed(db)
    requires forall i, j :: 0 <= i < j < |keys| ==> Below(keys[i], keys[j])
    requires |r| == |keys| && forall i :: 0 <= i < |keys| ==> keys[i] in db.records && r[i] == db.records[keys[i]]
    ensures HashAscending(r)
  {
    forall i, j | 0 <= i < j < |r|
      ensures Below(r[i].transactionHash, r[j].transactionHash)
    {
      assert r[i].transactionHash == keys[i] && r[j].transactionHash == keys[j];
    }
  }

  /** `getAllBoughtTransactions()`: the stored records with status BOUGHT, in key order. */
  function GetAllBoughtTransactions(db: Ledger): (r: seq<Transaction>)
    ensures forall t :: t in r <==> t in db.records.Values && t.status == Bought
    ensures WellKeyed(db) ==> HashAscending(r)
  {
    var all := GetAllTransactions(db);
    assert WellKeyed(db) ==> HashAscending(FilterStatus(all, Bought)) by {
      if WellKeyed(db) {
        FilterKeepsAscending(all, Bought);
      }
    }
    FilterStatus(all, Bought)
  }
}
