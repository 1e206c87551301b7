/** The 12-month rolling transaction features per customer and the customer
    segmentation computed from them. */
module RollingFeatures {
  import opened Seqs
  import opened Stats
  import opened Calendar
  import opened Cells
  import opened FeatureTable

  /** The `transaction_type` column, decoded: the four types the features count, and any
      other string as `OtherType`. */
  datatype TxType = Purchase | Withdrawal | Transfer | Deposit | OtherType(name: string)

  /** One row of the transactions table; `status` is kept as the raw string. */
  datatype Transaction = Transaction(customerId: string, transactionType: TxType, amount: real, date: DateTime, status: string)

  /** The string `transaction_type` holds for each type. */
  function TypeName(ty: TxType): string {
    match ty
    case Purchase => "purchase"
    case Withdrawal => "withdrawal"
    case Transfer => "transfer"
    case Deposit => "deposit"
    case OtherType(name) => name
  }

  /** Decoding the `transaction_type` string: the comparisons with the four literals. */
  function DecodeType(s: string): (ty: TxType)
    ensures TypeName(ty) == s
  {
    if s == "purchase" then Purchase
    else if s == "withdrawal" then Withdrawal
    else if s == "transfer" then Transfer
    else if s == "deposit" then Deposit
    else OtherType(s)
  }

  /** A decoded type: `OtherType` never holds one of the four names. */
  predicate CanonicalType(ty: TxType) {
    ty.OtherType? ==> ty.name !in {"purchase", "withdrawal", "transfer", "deposit"}
  }

  /** Decoding gives a canonical type, and a canonical type is the decoding of its name,
      so comparing decoded types is comparing the strings. */
  lemma {:induction false} DecodeTypeCanonical(s: string, ty: TxType)
    ensures CanonicalType(DecodeType(s))
    ensures CanonicalType(ty) ==> DecodeType(TypeName(ty)) == ty
    ensures CanonicalType(ty) ==> (DecodeType(s) == ty <==> s == TypeName(ty))
  {
  }

  /** Rows whose dates are valid and whose types are decoded from their strings. */
  predicate ValidTransactions(txs: seq<Transaction>) {
    forall i :: 0 <= i < |txs| ==> Valid(txs[i].date) && CanonicalType(txs[i].transactionType)
  }

  predicate IsCompleted(t: Transaction) {
    t.status == "completed"
  }

  /** `df[df['status'] == 'completed']`: the completed transactions. */
  function FilterCompleted(txs: seq<Transaction>): (r: seq<Transaction>)
    ensures forall t :: t in r <==> t in txs && t.status == "completed"
    ensures ValidTransactions(txs) ==> ValidTransactions(r)
  {
    var r := Where(txs, IsCompleted);
    assert forall i :: 0 <= i < |r| ==> r[i] in txs;
    r
  }

  /** Filtering keeps the completed transactions in their original order: filtering a
      concatenation filters each part. */
  lemma {:induction false} FilterCompletedKeepsOrder(a: seq<Transaction>, b: seq<Transaction>)
    ensures FilterCompleted(a + b) == FilterCompleted(a) + FilterCompleted(b)
  {
    WhereConcat(a, b, IsCompleted);
  }

  /** Filtering an already filtered table changes nothing. */
  lemma {:induction false} FilterCompletedIdempotent(txs: seq<Transaction>)
    ensures FilterCompleted(FilterCompleted(txs)) == FilterCompleted(txs)
  {
    WhereIdempotent(txs, IsCompleted);
  }

  /** The `customer_id` column. */
  function CustomerIds(txs: seq<Transaction>): (r: seq<string>)
    ensures |r| == |txs| && forall i :: 0 <= i < |txs| ==> r[i] == txs[i].customerId
  {
    if txs == [] then [] else [txs[0].customerId] + CustomerIds(txs[1..])
  }

  /** `transactions_df['customer_id'].unique()`. */
  function Customers(txs: seq<Transaction>): seq<string> {
    Distinct(CustomerIds(txs))
  }

  /** `transactions_df[transactions_df['customer_id'] == id]`. */
  function TransactionsOf(txs: seq<Transaction>, id: string): (r: seq<Transaction>)
    ensures forall t :: t in r <==> t in txs && t.customerId == id
    ensures ValidTransactions(txs) ==> ValidTransactions(r)
    ensures id in CustomerIds(txs) ==> |r| > 0
  {
    var r := Where(txs, (t: Transaction) => t.customerId == id);
    assert forall i :: 0 <= i < |r| ==> r[i] in txs;
    assert id in CustomerIds(txs) ==> exists i :: 0 <= i < |txs| && txs[i] in r;
    r
  }

  /** `Series.max()` of the dates: the latest one. */
  function LatestDate(txs: seq<Transaction>): (r: DateTime)
    requires |txs| > 0 && ValidTransactions(txs)
    ensures Valid(r)
    ensures exists i :: 0 <= i < |txs| && txs[i].date == r
    ensures forall i :: 0 <= i < |txs| ==> AtOrBefore(txs[i].date, r)
  {
    if |txs| == 1 then txs[0].date
    else
      var m := LatestDate(txs[1..]);
      assert forall i :: 1 <= i < |txs| ==> txs[i] == txs[1..][i - 1];
      if AtOrBefore(m, txs[0].date) then txs[0].date else m
  }

  /** `Series.min()` of the dates: the earliest one. */
  function EarliestDate(txs: seq<Transaction>): (r: DateTime)
    requires |txs| > 0 && ValidTransactions(txs)
    ensures Valid(r)
    ensures exists i :: 0 <= i < |txs| && txs[i].date == r
    ensures forall i :: 0 <= i < |txs| ==> AtOrBefore(r, txs[i].date)
  {
    if |txs| == 1 then txs[0].date
    else
      var m := EarliestDate(txs[1..]);
      assert forall i :: 1 <= i < |txs| ==> txs[i] == txs[1..][i - 1];
      if AtOrBefore(txs[0].date, m) then txs[0].date else m
  }

  /** `cust_tx[cust_tx['transaction_date'] >= start]`. */
  function OnOrAfter(txs: seq<Transaction>, start: DateTime): (r: seq<Transaction>)
    ensures forall t :: t in r <==> t in txs && AtOrBefore(start, t.date)
  {
    Where(txs, (t: Transaction) => AtOrBefore(start, t.date))
  }

  /** `recent_tx[recent_tx['transaction_type'] == ty]`. */
  function OfType(txs: seq<Transaction>, ty: TxType): seq<Transaction> {
    Where(txs, (t: Transaction) => t.transactionType == ty)
  }

  /** The `amount` column. */
  function Amounts(txs: seq<Transaction>): (r: seq<real>)
    ensures |r| == |txs| && forall i :: 0 <= i < |txs| ==> r[i] == txs[i].amount
  {
    if txs == [] then [] else [txs[0].amount] + Amounts(txs[1..])
  }

  /** The amount of one transaction type: 0 when there is none. */
  function TypeAmount(txs: seq<Transaction>, ty: TxType): real {
    var sel := OfType(txs, ty);
    if |sel| == 0 then 0.0 else Sum(Amounts(sel))
  }

  /** The aggregates of the window `recent`. */
  function Aggregate(recent: seq<Transaction>): WindowStats {
    var amounts := Amounts(recent);
    var isEmpty := |recent| == 0;
    var q90 := if !isEmpty then Quantile(amounts, 0.9) else 0.0;
    var q10 := if !isEmpty then Quantile(amounts, 0.1) else 0.0;
    WindowStats(
      |recent|, Sum(amounts),
      if isEmpty then Missing else Num(Mean(amounts)),
      if isEmpty then Missing else Num(MaxOf(amounts)),
      if isEmpty then Missing else Num(MinOf(amounts)),
      if |amounts| < 2 then Missing else Root(SampleVariance(amounts)),
      |OfType(recent, Purchase)|, |OfType(recent, Withdrawal)|,
      |OfType(recent, Transfer)|, |OfType(recent, Deposit)|,
      TypeAmount(recent, Purchase), TypeAmount(recent, Withdrawal),
      TypeAmount(recent, Transfer), TypeAmount(recent, Deposit),
      if !isEmpty then CountAbove(amounts, q90) else 0,
      if !isEmpty then CountBelow(amounts, q10) else 0)
  }

  /** The feature row of a customer with transactions `custTx`, after every NaN has been
      replaced by 0. */
  function FeatureRow(id: string, custTx: seq<Transaction>): Row
    requires |custTx| > 0 && ValidTransactions(custTx)
  {
    var latest := LatestDate(custTx);
    Swept(id, latest, WindowStart(latest), Aggregate(Recent(custTx)), DaysBetween(latest, EarliestDate(custTx)))
  }

  /** The transactions of the last twelve months before the latest one, both ends included. */
  function Recent(custTx: seq<Transaction>): (w: seq<Transaction>)
    requires |custTx| > 0 && ValidTransactions(custTx)
    ensures |w| > 0
  {
    var latest := LatestDate(custTx);
    var w := OnOrAfter(custTx, WindowStart(latest));
    assert forall i :: 0 <= i < |custTx| && custTx[i].date == latest ==> custTx[i] in w;
    w
  }

  /** The feature row of customer `id` of the table `txs`. */
  function FeaturesFor(txs: seq<Transaction>, id: string): Row
    requires ValidTransactions(txs) && id in Customers(txs)
  {
    FeatureRow(id, TransactionsOf(txs, id))
  }

  /** The NaN sweep: visit the dictionary's keys in order and overwrite each NaN with 0. */
  method ReplaceNaN(features: Row, keys: seq<Key>) returns (r: Row)
    requires NoDup(keys)
    requires forall k :: k in features <==> k in keys
    ensures r == FillNa(features, features.Keys)
  {
    r := features;
    for i := 0 to |keys|
      invariant r.Keys == features.Keys
      invariant forall j :: 0 <= j < i ==> r[keys[j]] == FillNa(features, features.Keys)[keys[j]]
      invariant forall j :: i <= j < |keys| ==> r[keys[j]] == features[keys[j]]
    {
      var k := keys[i];
      if r[k].Missing? {
        r := r[k := Num(0.0)];
      }
    }
    assert forall k :: k in r ==> exists j :: 0 <= j < |keys| && keys[j] == k;
  }

  /** `generate_12month_features`: one feature row per distinct customer, in order of
      first appearance. */
  method Generate12MonthFeatures(txs: seq<Transaction>) returns (rows: seq<Row>)
    requires ValidTransactions(txs)
    ensures |rows| == |Customers(txs)|
    ensures forall i :: 0 <= i < |rows| ==> rows[i] == FeaturesFor(txs, Customers(txs)[i])
  {
    rows := [];
    var customers := Distinct(CustomerIds(txs));
    for i := 0 to |customers|
      invariant |rows| == i
      invariant forall j :: 0 <= j < i ==> rows[j] == FeaturesFor(txs, customers[j])
    {
      var features := CustomerFeatures(txs, customers[i]);
      rows := rows + [features];
    }
  }

  /** The body of the loop over customers: the window, the feature dictionary and the
      NaN sweep for customer `id`. */
  method CustomerFeatures(txs: seq<Transaction>, id: string) returns (features: Row)
    requires ValidTransactions(txs) && id in Customers(txs)
    ensures features == FeaturesFor(txs, id)
  {
    var custTx := TransactionsOf(txs, id);
    var latestDate := LatestDate(custTx);
    var twelveMonthsAgo := WindowStart(latestDate);
    var recentTx := OnOrAfter(custTx, twelveMonthsAgo);
    features := FeatureDict(id, latestDate, twelveMonthsAgo, Aggregate(recentTx),
                            DaysBetween(latestDate, EarliestDate(custTx)));
    FeatureKeysDistinct();
    features := ReplaceNaN(features, FeatureKeys());
  }

  /** A feature row has exactly the feature columns, and after the sweep none is NaN. */
  lemma {:induction false} RowComplete(id: string, custTx: seq<Transaction>)
    requires |custTx| > 0 && ValidTransactions(custTx)
    ensures FeatureRow(id, custTx).Keys == FeatureKeySet
    ensures forall k :: k in FeatureRow(id, custTx) ==> !FeatureRow(id, custTx)[k].Missing?
  {
  }

  /** The window holds the latest transaction, every transaction of the customer from the
      window start on, and nothing more than 366 days before the latest date. */
  lemma {:induction false} WindowBounds(custTx: seq<Transaction>)
    requires |custTx| > 0 && ValidTransactions(custTx)
    ensures var latest := LatestDate(custTx);
      var start := WindowStart(latest);
      (exists t :: t in Recent(custTx) && t.date == latest) &&
      (forall t :: t in Recent(custTx) <==> t in custTx && AtOrBefore(start, t.date)) &&
      (forall t :: t in Recent(custTx) ==> AtOrBefore(t.date, latest) && 0 <= DaysBetween(latest, t.date) <= 366)
  {
    var latest := LatestDate(custTx);
    var i :| 0 <= i < |custTx| && custTx[i].date == latest;
    assert custTx[i] in Recent(custTx);
    forall t | t in Recent(custTx)
      ensures AtOrBefore(t.date, latest) && 0 <= DaysBetween(latest, t.date) <= 366
    {
      var j :| 0 <= j < |custTx| && custTx[j] == t;
      WithinWindow(latest, t.date);
    }
  }

  /** The identifying cells: the customer, the latest date and the window start. */
  lemma {:induction false} IdentityCells(id: string, custTx: seq<Transaction>)
    requires |custTx| > 0 && ValidTransactions(custTx)
    ensures var r := FeatureRow(id, custTx);
      r[CustomerId] == Text(id) &&
      r[LatestTransactionDate] == Stamp(LatestDate(custTx)) &&
      r[TwelveMonthsAgo] == Stamp(WindowStart(LatestDate(custTx)))
  {
    var latest := LatestDate(custTx);
    SweptIdentity(id, latest, WindowStart(latest), Aggregate(Recent(custTx)), DaysBetween(latest, EarliestDate(custTx)));
  }

  /** The transaction count is the size of the window, at least one, and the monthly rate
      is a twelfth of it. */
  lemma {:induction false} CountCells(id: string, custTx: seq<Transaction>)
    requires |custTx| > 0 && ValidTransactions(custTx)
    ensures var r := FeatureRow(id, custTx);
      var n := |Recent(custTx)|;
      n >= 1 &&
      r[TotalTransactions12m] == Num(n as real) &&
      r[AvgTransactionsPerMonth] == Num(n as real / 12.0) &&
      r[AvgTransactionsPerMonth].x * 12.0 == r[TotalTransactions12m].x
  {
    var latest := LatestDate(custTx);
    SweptCounts(id, latest, WindowStart(latest), Aggregate(Recent(custTx)), DaysBetween(latest, EarliestDate(custTx)));
  }

  /** Days since the first transaction are the whole days from the earliest to the latest
      transaction, never negative; days since the last transaction are always 0. */
  lemma {:induction false} DayCells(id: string, custTx: seq<Transaction>)
    requires |custTx| > 0 && ValidTransactions(custTx)
    ensures var d := DaysBetween(LatestDate(custTx), EarliestDate(custTx));
      d >= 0 &&
      FeatureRow(id, custTx)[DaysSinceFirstTransaction] == Num(d as real) &&
      FeatureRow(id, custTx)[DaysSinceLastTransaction] == Num(0.0)
  {
    var latest, earliest := LatestDate(custTx), EarliestDate(custTx);
    var i :| 0 <= i < |custTx| && custTx[i].date == earliest;
    DaysBetweenNonNegative(latest, earliest);
    SweptIdentity(id, latest, WindowStart(latest), Aggregate(Recent(custTx)), DaysBetween(latest, earliest));
  }

  /** The amount total is the sum of the window's amounts; the mean lies between the
      minimum and the maximum, which are the extrema of the window's amounts. */
  lemma {:induction false} AmountCells(id: string, custTx: seq<Transaction>)
    requires |custTx| > 0 && ValidTransactions(custTx)
    ensures var r := FeatureRow(id, custTx);
      var a := Amounts(Recent(custTx));
      r[TotalAmount12m] == Num(Sum(a)) &&
      r[AvgAmount12m] == Num(Mean(a)) &&
      r[MaxAmount12m] == Num(MaxOf(a)) &&
      r[MinAmount12m] == Num(MinOf(a)) &&
      MinOf(a) <= Mean(a) <= MaxOf(a)
  {
    var latest := LatestDate(custTx);
    var st, d := Aggregate(Recent(custTx)), DaysBetween(latest, EarliestDate(custTx));
    SweptCounts(id, latest, WindowStart(latest), st, d);
    SweptMaybeMissing(id, latest, WindowStart(latest), st, d);
    MeanBetween(Amounts(Recent(custTx)));
  }

  /** The standard deviation: 0 for a single transaction in the window (pandas' NaN
      replaced by the sweep), otherwise the root of the sample variance, which is never
      negative and is 0 when every amount is the same. */
  lemma {:induction false} StdCell(id: string, custTx: seq<Transaction>)
    requires |custTx| > 0 && ValidTransactions(custTx)
    ensures var r := FeatureRow(id, custTx);
      var a := Amounts(Recent(custTx));
      (|a| == 1 ==> r[StdAmount12m] == Num(0.0)) &&
      (|a| >= 2 ==> r[StdAmount12m] == Root(SampleVariance(a)) && SampleVariance(a) >= 0.0) &&
      (|a| >= 2 && (forall i :: 0 <= i < |a| ==> a[i] == a[0]) ==> r[StdAmount12m] == Root(0.0))
  {
    var latest := LatestDate(custTx);
    var a := Amounts(Recent(custTx));
    SweptMaybeMissing(id, latest, WindowStart(latest), Aggregate(Recent(custTx)), DaysBetween(latest, EarliestDate(custTx)));
    if |a| >= 2 && forall i :: 0 <= i < |a| ==> a[i] == a[0] {
      VarianceConstant(a, a[0]);
    }
  }

  /** The outlier counts: amounts strictly above the 90th and strictly below the 10th
      percentile of the window. Together they do not exceed the window, and both are 0
      when every amount is the same. */
  lemma {:induction false} OutlierCells(id: string, custTx: seq<Transaction>)
    requires |custTx| > 0 && ValidTransactions(custTx)
    ensures var r := FeatureRow(id, custTx);
      var a := Amounts(Recent(custTx));
      var high := CountAbove(a, Quantile(a, 0.9));
      var low := CountBelow(a, Quantile(a, 0.1));
      r[HighValueTransactions12m] == Num(high as real) &&
      r[LowValueTransactions12m] == Num(low as real) &&
      high + low <= |Recent(custTx)| &&
      ((forall i :: 0 <= i < |a| ==> a[i] == a[0]) ==> high == 0 && low == 0)
  {
    var latest := LatestDate(custTx);
    var a := Amounts(Recent(custTx));
    SweptCounts(id, latest, WindowStart(latest), Aggregate(Recent(custTx)), DaysBetween(latest, EarliestDate(custTx)));
    OutlierBounds(a);
  }

  /** Outlier counts over a non-empty series of amounts. */
  lemma {:induction false} OutlierBounds(a: seq<real>)
    requires |a| > 0
    ensures CountAbove(a, Quantile(a, 0.9)) + CountBelow(a, Quantile(a, 0.1)) <= |a|
    ensures (forall i :: 0 <= i < |a| ==> a[i] == a[0]) ==>
      CountAbove(a, Quantile(a, 0.9)) == 0 && CountBelow(a, Quantile(a, 0.1)) == 0
  {
    var q90, q10 := Quantile(a, 0.9), Quantile(a, 0.1);
    QuantileMonotone(a, 0.1, 0.9);
    OutliersAtMostAll(a, q10, q90);
    if forall i :: 0 <= i < |a| ==> a[i] == a[0] {
      QuantileConstant(a, a[0], 0.9);
      QuantileConstant(a, a[0], 0.1);
      NoneAbove(a, q90);
      NoneBelow(a, q10);
    }
  }

  /** The per-type counts and amounts are those of the window's transactions of each type. */
  lemma {:induction false} TypeCells(id: string, custTx: seq<Transaction>)
    requires |custTx| > 0 && ValidTransactions(custTx)
    ensures var r := FeatureRow(id, custTx);
      var w := Recent(custTx);
      r[PurchaseCount12m] == Num(|OfType(w, Purchase)| as real) &&
      r[WithdrawalCount12m] == Num(|OfType(w, Withdrawal)| as real) &&
      r[TransferCount12m] == Num(|OfType(w, Transfer)| as real) &&
      r[DepositCount12m] == Num(|OfType(w, Deposit)| as real) &&
      r[PurchaseAmount12m] == Num(TypeAmount(w, Purchase)) &&
      r[WithdrawalAmount12m] == Num(TypeAmount(w, Withdrawal)) &&
      r[TransferAmount12m] == Num(TypeAmount(w, Transfer)) &&
      r[DepositAmount12m] == Num(TypeAmount(w, Deposit))
  {
    var latest := LatestDate(custTx);
    var st, d := Aggregate(Recent(custTx)), DaysBetween(latest, EarliestDate(custTx));
    SweptTypeCounts(id, latest, WindowStart(latest), st, d);
    SweptTypeAmounts(id, latest, WindowStart(latest), st, d);
  }

  /** One of the four transaction types the features count. */
  predicate KnownType(t: Transaction) {
    !t.transactionType.OtherType?
  }

  /** When every transaction has one of the four types, the per-type counts add up to the
      number of transactions and the per-type amounts to their total. */
  lemma {:induction false} TypeSplit(w: seq<Transaction>)
    requires forall i :: 0 <= i < |w| ==> KnownType(w[i])
    ensures |OfType(w, Purchase)| + |OfType(w, Withdrawal)| + |OfType(w, Transfer)|
            + |OfType(w, Deposit)| == |w|
    ensures TypeAmount(w, Purchase) + TypeAmount(w, Withdrawal) + TypeAmount(w, Transfer)
            + TypeAmount(w, Deposit) == Sum(Amounts(w))
  {
    if w != [] {
      TypeSplit(w[1..]);
      TypeStep(w, Purchase);
      TypeStep(w, Withdrawal);
      TypeStep(w, Transfer);
      TypeStep(w, Deposit);
    }
  }

  /** Selecting one type from a non-empty sequence: the head counts when it has that type. */
  lemma {:induction false} TypeStep(w: seq<Transaction>, ty: TxType)
    requires w != []
    ensures |OfType(w, ty)| == (if w[0].transactionType == ty then 1 else 0) + |OfType(w[1..], ty)|
    ensures TypeAmount(w, ty) == (if w[0].transactionType == ty then w[0].amount else 0.0)
                                 + TypeAmount(w[1..], ty)
  {
    var rest := OfType(w[1..], ty);
    assert Sum(Amounts([])) == 0.0;
    if w[0].transactionType == ty {
      var sel := [w[0]] + rest;
      assert OfType(w, ty) == sel;
      assert sel[1..] == rest;
      assert Amounts(sel) == [w[0].amount] + Amounts(rest);
    }
  }
}
