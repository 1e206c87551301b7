/** The feature dictionary of one customer: its keys, the value of each key given the
    window's aggregates, and the dictionary after the NaN sweep. */
module FeatureTable {
  import opened Seqs
  import opened Calendar
  import opened Cells

  /** The columns of a feature row. */
  datatype Key =
    | CustomerId | LatestTransactionDate | TwelveMonthsAgo
    | TotalTransactions12m | AvgTransactionsPerMonth | TotalAmount12m | AvgAmount12m
    | MaxAmount12m | MinAmount12m | StdAmount12m
    | PurchaseCount12m | WithdrawalCount12m | TransferCount12m | DepositCount12m
    | PurchaseAmount12m | WithdrawalAmount12m | TransferAmount12m | DepositAmount12m
    | DaysSinceFirstTransaction | DaysSinceLastTransaction
    | HighValueTransactions12m | LowValueTransactions12m

  type Row = map<Key, Cell>

  /** The key inserted `i`-th into the feature dictionary. */
  function KeyAt(i: nat): Key
    requires i < 22
  {
    if i == 0 then CustomerId
    else if i == 1 then LatestTransactionDate
    else if i == 2 then TwelveMonthsAgo
    else if i == 3 then TotalTransactions12m
    else if i == 4 then AvgTransactionsPerMonth
    else if i == 5 then TotalAmount12m
    else if i == 6 then AvgAmount12m
    else if i == 7 then MaxAmount12m
    else if i == 8 then MinAmount12m
    else if i == 9 then StdAmount12m
    else if i == 10 then PurchaseCount12m
    else if i == 11 then WithdrawalCount12m
    else if i == 12 then TransferCount12m
    else if i == 13 then DepositCount12m
    else if i == 14 then PurchaseAmount12m
    else if i == 15 then WithdrawalAmount12m
    else if i == 16 then TransferAmount12m
    else if i == 17 then DepositAmount12m
    else if i == 18 then DaysSinceFirstTransaction
    else if i == 19 then DaysSinceLastTransaction
    else if i == 20 then HighValueTransactions12m
    else LowValueTransactions12m
  }

  /** The keys of the feature dictionary, in insertion order. */
  function FeatureKeys(): seq<Key> {
    seq(22, i requires 0 <= i < 22 => KeyAt(i))
  }

  /** Every key, as a set. */
  const FeatureKeySet: set<Key> := set k: Key | true

  /** The aggregates of one window that the feature dictionary reports: pandas gives NaN
      for the mean and the extrema of an empty series and for the sample standard
      deviation of fewer than two values, and the outlier counts are 0 for an empty
      window. */
  datatype WindowStats = WindowStats(
    count: nat, total: real, mean: Cell, max: Cell, min: Cell, std: Cell,
    purchases: nat, withdrawals: nat, transfers: nat, deposits: nat,
    purchaseAmount: real, withdrawalAmount: real, transferAmount: real, depositAmount: real,
    high: nat, low: nat)

  /** The feature dictionary of one customer before the NaN sweep. */
  function FeatureDict(id: string, latest: DateTime, start: DateTime, st: WindowStats,
                       sinceFirst: int): (d: Row)
    ensures d.Keys == FeatureKeySet
    ensures forall k :: k in d ==> d[k] == FeatureValue(k, id, latest, start, st, sinceFirst)
  {
    map k: Key | true :: FeatureValue(k, id, latest, start, st, sinceFirst)
  }

  /** The entry for key `k` of the feature dictionary. `sinceFirst` is the number of whole
      days from the customer's first transaction to the latest one. */
  function FeatureValue(k: Key, id: string, latest: DateTime, start: DateTime, st: WindowStats,
                        sinceFirst: int): Cell
  {
    match k
    case CustomerId => Text(id)
    case LatestTransactionDate => Stamp(latest)
    case TwelveMonthsAgo => Stamp(start)
    case TotalTransactions12m => Num(st.count as real)
    case AvgTransactionsPerMonth => Num(st.count as real / 12.0)
    case TotalAmount12m => Num(st.total)
    case AvgAmount12m => st.mean
    case MaxAmount12m => st.max
    case MinAmount12m => st.min
    case StdAmount12m => st.std
    case PurchaseCount12m => Num(st.purchases as real)
    case WithdrawalCount12m => Num(st.withdrawals as real)
    case TransferCount12m => Num(st.transfers as real)
    case DepositCount12m => Num(st.deposits as real)
    case PurchaseAmount12m => Num(st.purchaseAmount)
    case WithdrawalAmount12m => Num(st.withdrawalAmount)
    case TransferAmount12m => Num(st.transferAmount)
    case DepositAmount12m => Num(st.depositAmount)
    case DaysSinceFirstTransaction => Num(sinceFirst as real)
    case DaysSinceLastTransaction => Num(0 as real)
    case HighValueTransactions12m => Num(st.high as real)
    case LowValueTransactions12m => Num(st.low as real)
  }

  /** The feature dictionary of a window after the NaN sweep. */
  function Swept(id: string, latest: DateTime, start: DateTime, st: WindowStats, sinceFirst: int): Row {
    FillNa(FeatureDict(id, latest, start, st, sinceFirst), FeatureKeySet)
  }

  /** Where a key sits in the key list. */
  function Position(k: Key): nat {
    match k
    case CustomerId => 0
    case LatestTransactionDate => 1
    case TwelveMonthsAgo => 2
    case TotalTransactions12m => 3
    case AvgTransactionsPerMonth => 4
    case TotalAmount12m => 5
    case AvgAmount12m => 6
    case MaxAmount12m => 7
    case MinAmount12m => 8
    case StdAmount12m => 9
    case PurchaseCount12m => 10
    case WithdrawalCount12m => 11
    case TransferCount12m => 12
    case DepositCount12m => 13
    case PurchaseAmount12m => 14
    case WithdrawalAmount12m => 15
    case TransferAmount12m => 16
    case DepositAmount12m => 17
    case DaysSinceFirstTransaction => 18
    case DaysSinceLastTransaction => 19
    case HighValueTransactions12m => 20
    case LowValueTransactions12m => 21
  }

  /** The key list has no duplicates and holds exactly the keys of the set. */
  lemma {:induction false} FeatureKeysDistinct()
    ensures NoDup(FeatureKeys())
    ensures forall k :: k in FeatureKeys() <==> k in FeatureKeySet
  {
    var keys := FeatureKeys();
    forall i | 0 <= i < 22
      ensures Position(KeyAt(i)) == i
    {
    }
    forall k: Key
      ensures Position(k) < 22 && KeyAt(Position(k)) == k
    {
    }
    forall i, j | 0 <= i < j < |keys|
      ensures keys[i] != keys[j]
    {
      assert Position(keys[i]) == i && Position(keys[j]) == j;
    }
    forall k: Key
      ensures k in keys
    {
      assert keys[Position(k)] == k;
    }
  }

  /** A cell of the swept dictionary is the dictionary entry, or 0 where that is NaN. */
  lemma {:induction false} SweptValue(k: Key, id: string, latest: DateTime, start: DateTime,
                                      st: WindowStats, d: int)
    ensures var v := FeatureValue(k, id, latest, start, st, d);
      Swept(id, latest, start, st, d)[k] == if v.Missing? then Num(0.0) else v
  {
  }

  /** The identifying cells and the day counts of a swept dictionary. */
  lemma {:induction false} SweptIdentity(id: string, latest: DateTime, start: DateTime,
                                         st: WindowStats, d: int)
    ensures var r := Swept(id, latest, start, st, d);
      r[CustomerId] == Text(id) &&
      r[LatestTransactionDate] == Stamp(latest) &&
      r[TwelveMonthsAgo] == Stamp(start) &&
      r[DaysSinceFirstTransaction] == Num(d as real) &&
      r[DaysSinceLastTransaction] == Num(0.0)
  {
  }

  /** The count and amount cells of a swept dictionary. */
  lemma {:induction false} SweptCounts(id: string, latest: DateTime, start: DateTime,
                                       st: WindowStats, d: int)
    ensures var r := Swept(id, latest, start, st, d);
      r[TotalTransactions12m] == Num(st.count as real) &&
      r[AvgTransactionsPerMonth] == Num(st.count as real / 12.0) &&
      r[TotalAmount12m] == Num(st.total) &&
      r[HighValueTransactions12m] == Num(st.high as real) &&
      r[LowValueTransactions12m] == Num(st.low as real)
  {
  }

  /** The cells pandas may leave NaN: the sweep turns exactly those into 0. */
  lemma {:induction false} SweptMaybeMissing(id: string, latest: DateTime, start: DateTime,
                                             st: WindowStats, d: int)
    ensures var r := Swept(id, latest, start, st, d);
      r[AvgAmount12m] == (if st.mean.Missing? then Num(0.0) else st.mean) &&
      r[MaxAmount12m] == (if st.max.Missing? then Num(0.0) else st.max) &&
      r[MinAmount12m] == (if st.min.Missing? then Num(0.0) else st.min) &&
      r[StdAmount12m] == (if st.std.Missing? then Num(0.0) else st.std)
  {
  }

  /** The per-type count cells of a swept dictionary. */
  lemma {:induction false} SweptTypeCounts(id: string, latest: DateTime, start: DateTime,
                                           st: WindowStats, d: int)
    ensures var r := Swept(id, latest, start, st, d);
      r[PurchaseCount12m] == Num(st.purchases as real) &&
      r[WithdrawalCount12m] == Num(st.withdrawals as real) &&
      r[TransferCount12m] == Num(st.transfers as real) &&
      r[DepositCount12m] == Num(st.deposits as real)
  {
  }

  /** The per-type amount cells of a swept dictionary. */
  lemma {:induction false} SweptTypeAmounts(id: string, latest: DateTime, start: DateTime,
                                            st: WindowStats, d: int)
    ensures var r := Swept(id, latest, start, st, d);
      r[PurchaseAmount12m] == Num(st.purchaseAmount) &&
      r[WithdrawalAmount12m] == Num(st.withdrawalAmount) &&
      r[TransferAmount12m] == Num(st.transferAmount) &&
      r[DepositAmount12m] == Num(st.depositAmount)
  {
  }
}
