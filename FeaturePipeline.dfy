/** The composition step of the feature script: completed transactions, their feature
    rows, a left merge onto the customers table, zero-filling of the numeric columns and
    the segment column. */
module FeaturePipeline {
  import opened Wrappers
  import opened Seqs
  import opened Cells
  import opened FeatureTable
  import opened RollingFeatures
  import opened Segmentation

  /** One row of the customers table: its `customer_id` and its other columns by name. */
  datatype Customer = Customer(id: string, attrs: map<string, Cell>)

  /** One row of the merged table: the customer's own columns, the feature columns (the
      merge key `customer_id` among them) and the `customer_segment` column once it has
      been assigned. */
  datatype Record = Record(id: string, attrs: map<string, Cell>, features: Row, segment: Option<Segment>)

  /** Why the script stops: with no completed transaction the feature frame has no
      columns at all, so merging on `customer_id` raises a `KeyError`. */
  datatype PipelineError = MissingMergeKey

  /** The feature columns pandas stores as numbers; the id and the two timestamps are not. */
  predicate IsNumericKey(k: Key) {
    !(k.CustomerId? || k.LatestTransactionDate? || k.TwelveMonthsAgo?)
  }

  const NumericKeys: set<Key> := set k: Key | IsNumericKey(k)

  /** The feature cells the merge attaches to customer `id`: its own feature row when it
      has completed transactions, otherwise missing features. Either way the merge key
      names the customer. */
  function MergedFeatures(completed: seq<Transaction>, id: string): (r: Row)
    requires ValidTransactions(completed)
    ensures r.Keys == FeatureKeySet
    ensures r[CustomerId] == Text(id)
  {
    if id in Customers(completed) then
      RowComplete(id, TransactionsOf(completed, id));
      IdentityCells(id, TransactionsOf(completed, id));
      FeaturesFor(completed, id)
    else NoFeatures(id)
  }

  /** The feature frame produced by `generate_12month_features`: one row per customer of
      `txs`, in order of first appearance. */
  function FeatureFrame(txs: seq<Transaction>): (rows: seq<Row>)
    requires ValidTransactions(txs)
    ensures |rows| == |Customers(txs)|
  {
    seq(|Customers(txs)|, i requires 0 <= i < |Customers(txs)| => MergedFeatures(txs, Customers(txs)[i]))
  }

  lemma {:induction false} FrameAt(txs: seq<Transaction>, i: nat)
    requires ValidTransactions(txs) && i < |Customers(txs)|
    ensures FeatureFrame(txs)[i] == MergedFeatures(txs, Customers(txs)[i])
  {
  }

  /** The feature rows whose `customer_id` is `id`. */
  function Matching(features: seq<Row>, id: string): seq<Row> {
    Where(features, (f: Row) => CustomerId in f && f[CustomerId] == Text(id))
  }

  /** A feature cell of a customer without a feature row: only the merge key is set. */
  function UnmatchedCell(k: Key, id: string): Cell {
    if k == CustomerId then Text(id) else Missing
  }

  function NoFeatures(id: string): (r: Row)
    ensures r.Keys == FeatureKeySet
    ensures r[CustomerId] == Text(id)
    ensures forall k :: k != CustomerId ==> r[k] == Missing
  {
    map k: Key | true :: UnmatchedCell(k, id)
  }

  /** The merged rows of one customer: one per matching feature row, or a single row with
      missing features when none matches. */
  function MergeOne(c: Customer, features: seq<Row>): seq<Record> {
    var m := Matching(features, c.id);
    if |m| == 0 then [Record(c.id, c.attrs, NoFeatures(c.id), None)]
    else seq(|m|, i requires 0 <= i < |m| => Record(c.id, c.attrs, m[i], None))
  }

  /** `customers_df.merge(features_df, on='customer_id', how='left')`: the customers in
      their order, each followed by its matches. */
  function LeftMerge(customers: seq<Customer>, features: seq<Row>): seq<Record> {
    if customers == [] then []
    else MergeOne(customers[0], features) + LeftMerge(customers[1..], features)
  }

  /** The merged row of a customer when it has at most one feature row. */
  function MergeRow(c: Customer, features: seq<Row>): Record {
    var m := Matching(features, c.id);
    Record(c.id, c.attrs, if |m| == 0 then NoFeatures(c.id) else m[0], None)
  }

  /** With at most one feature row per customer id, the left merge has exactly one row per
      customer, in the customers' order. */
  lemma {:induction false} MergeOneRowPerCustomer(customers: seq<Customer>, features: seq<Row>)
    requires forall id :: |Matching(features, id)| <= 1
    ensures |LeftMerge(customers, features)| == |customers|
    ensures forall i :: 0 <= i < |customers| ==> LeftMerge(customers, features)[i] == MergeRow(customers[i], features)
  {
    if customers != [] {
      MergeOneRowPerCustomer(customers[1..], features);
      var head := MergeOne(customers[0], features);
      assert head == [MergeRow(customers[0], features)];
      forall i | 0 <= i < |customers|
        ensures LeftMerge(customers, features)[i] == MergeRow(customers[i], features)
      {
        if i > 0 {
          assert customers[1..][i - 1] == customers[i];
        }
      }
    }
  }

  /** The rows labelled by pairwise different ids match an id at most once: the row it
      labels, or none when it labels no row. */
  lemma {:induction false} MatchingLabelled(frame: seq<Row>, ids: seq<string>, id: string)
    requires |frame| == |ids| && NoDup(ids)
    requires forall i :: 0 <= i < |frame| ==> CustomerId in frame[i] && frame[i][CustomerId] == Text(ids[i])
    ensures id !in ids ==> Matching(frame, id) == []
    ensures forall i :: 0 <= i < |ids| && ids[i] == id ==> Matching(frame, id) == [frame[i]]
    ensures |Matching(frame, id)| <= 1
  {
    if frame != [] {
      assert NoDup(ids[1..]) by {
        forall i, j | 0 <= i < j < |ids[1..]|
          ensures ids[1..][i] != ids[1..][j]
        {
          assert ids[1..][i] == ids[i + 1] && ids[1..][j] == ids[j + 1];
        }
      }
      MatchingLabelled(frame[1..], ids[1..], id);
      if ids[0] == id {
        assert id !in ids[1..] by {
          forall j | 0 <= j < |ids[1..]|
            ensures ids[1..][j] != id
          {
            assert ids[1..][j] == ids[j + 1];
          }
        }
      }
      forall i | 0 <= i < |ids| && ids[i] == id
        ensures Matching(frame, id) == [frame[i]]
      {
        if i > 0 {
          assert ids[1..][i - 1] == ids[i];
        }
      }
      if id in ids {
        var i :| 0 <= i < |ids| && ids[i] == id;
      }
    }
  }

  /** The `customer_id` cell of each row of the feature frame names its customer. */
  lemma {:induction false} FeatureFrameIds(txs: seq<Transaction>)
    requires ValidTransactions(txs)
    ensures forall i :: 0 <= i < |Customers(txs)| ==>
      CustomerId in FeatureFrame(txs)[i] && FeatureFrame(txs)[i][CustomerId] == Text(Customers(txs)[i])
  {
  }

  /** In the feature frame every customer id matches at most one row. */
  lemma {:induction false} FrameMatchesOnce(completed: seq<Transaction>)
    requires ValidTransactions(completed)
    ensures forall id :: |Matching(FeatureFrame(completed), id)| <= 1
  {
    FeatureFrameIds(completed);
    forall id
      ensures |Matching(FeatureFrame(completed), id)| <= 1
    {
      MatchingLabelled(FeatureFrame(completed), Customers(completed), id);
    }
  }

  /** The merged row of a customer in a frame whose rows are labelled by pairwise
      different ids: the row its id labels, or missing features. */
  lemma {:induction false} MergeRowLabelled(frame: seq<Row>, ids: seq<string>, c: Customer, i: nat)
    requires |frame| == |ids| && NoDup(ids)
    requires forall j :: 0 <= j < |frame| ==> CustomerId in frame[j] && frame[j][CustomerId] == Text(ids[j])
    ensures c.id !in ids ==> MergeRow(c, frame) == Record(c.id, c.attrs, NoFeatures(c.id), None)
    ensures i < |ids| && ids[i] == c.id ==> MergeRow(c, frame) == Record(c.id, c.attrs, frame[i], None)
  {
    MatchingLabelled(frame, ids, c.id);
  }

  lemma {:induction false} NoMergedFeatures(completed: seq<Transaction>, id: string)
    requires ValidTransactions(completed) && id !in Customers(completed)
    ensures MergedFeatures(completed, id) == NoFeatures(id)
  {
  }

  /** A customer's merged row carries the row of features computed for it, or missing
      features when it has no completed transaction. */
  lemma {:induction false} MergeRowInFrame(completed: seq<Transaction>, c: Customer)
    requires ValidTransactions(completed)
    ensures MergeRow(c, FeatureFrame(completed)) == Record(c.id, c.attrs, MergedFeatures(completed, c.id), None)
  {
    var ids := Customers(completed);
    var frame := FeatureFrame(completed);
    FeatureFrameIds(completed);
    if c.id in ids {
      var i :| 0 <= i < |ids| && ids[i] == c.id;
      MergeRowLabelled(frame, ids, c, i);
      FrameAt(completed, i);
    } else {
      MergeRowLabelled(frame, ids, c, 0);
      NoMergedFeatures(completed, c.id);
    }
  }

  /** The left merge of the customers with the feature frame: one row per customer, in
      order, carrying its own columns and the features computed for it. */
  lemma {:induction false} MergedTable(customers: seq<Customer>, completed: seq<Transaction>)
    requires ValidTransactions(completed)
    ensures var t := LeftMerge(customers, FeatureFrame(completed));
      |t| == |customers| &&
      forall i :: 0 <= i < |customers| ==>
        t[i] == Record(customers[i].id, customers[i].attrs, MergedFeatures(completed, customers[i].id), None)
  {
    FrameMatchesOnce(completed);
    MergeOneRowPerCustomer(customers, FeatureFrame(completed));
    forall i | 0 <= i < |customers|
      ensures MergeRow(customers[i], FeatureFrame(completed)) ==
        Record(customers[i].id, customers[i].attrs, MergedFeatures(completed, customers[i].id), None)
    {
      MergeRowInFrame(completed, customers[i]);
    }
  }

  /** `final_features[numeric_columns].fillna(0)` on one row. */
  function FillNumeric(r: Record, numericAttrs: set<string>): Record {
    r.(attrs := FillNa(r.attrs, numericAttrs), features := FillNa(r.features, NumericKeys))
  }

  /** `_segment` on a merged row. */
  function SegmentRecord(r: Record): Segment
    requires FeatureKeySet <= r.features.Keys
  {
    SegmentOf(r.features[TotalAmount12m], r.features[TotalTransactions12m], r.features[AvgAmount12m])
  }

  /** `segment_customers(final_features)`: one segment per row. */
  function SegmentCustomers(table: seq<Record>): (s: seq<Segment>)
    requires forall i :: 0 <= i < |table| ==> FeatureKeySet <= table[i].features.Keys
    ensures |s| == |table|
  {
    seq(|table|, i requires 0 <= i < |table| => SegmentRecord(table[i]))
  }

  /** A customer's row after zero-filling. */
  function FilledRecord(c: Customer, completed: seq<Transaction>, numericAttrs: set<string>): (r: Record)
    requires ValidTransactions(completed)
    ensures r.features.Keys == FeatureKeySet
  {
    FillNumeric(Record(c.id, c.attrs, MergedFeatures(completed, c.id), None), numericAttrs)
  }

  /** What the script produces for one customer from the completed transactions. */
  function FinalRecord(c: Customer, completed: seq<Transaction>, numericAttrs: set<string>): Record
    requires ValidTransactions(completed)
  {
    var filled := FilledRecord(c, completed, numericAttrs);
    filled.(segment := Some(SegmentRecord(filled)))
  }

  /** The table the script builds: an error when no transaction is completed, otherwise
      one final row per customer. */
  function FinalTable(customers: seq<Customer>, txs: seq<Transaction>, numericAttrs: set<string>):
    Result<seq<Record>, PipelineError>
    requires ValidTransactions(txs)
  {
    var completed := FilterCompleted(txs);
    if |completed| == 0 then Err(MissingMergeKey)
    else Ok(FinalRecords(customers, completed, numericAttrs))
  }

  function FinalRecords(customers: seq<Customer>, completed: seq<Transaction>, numericAttrs: set<string>): seq<Record>
    requires ValidTransactions(completed)
  {
    seq(|customers|, i requires 0 <= i < |customers| => FinalRecord(customers[i], completed, numericAttrs))
  }

  /** `final_features[numeric_columns] = final_features[numeric_columns].fillna(0)`. */
  function FillNumericColumns(table: seq<Record>, numericAttrs: set<string>): seq<Record> {
    seq(|table|, i requires 0 <= i < |table| => FillNumeric(table[i], numericAttrs))
  }

  /** `final_features['customer_segment'] = segments`. */
  function WithSegments(table: seq<Record>, segments: seq<Segment>): seq<Record>
    requires |segments| == |table|
  {
    seq(|table|, i requires 0 <= i < |table| => table[i].(segment := Some(segments[i])))
  }

  /** The rows `generate_12month_features` returns form the feature frame. */
  lemma {:induction false} GeneratedFrame(txs: seq<Transaction>, rows: seq<Row>)
    requires ValidTransactions(txs)
    requires |rows| == |Customers(txs)|
    requires forall i :: 0 <= i < |rows| ==> rows[i] == FeaturesFor(txs, Customers(txs)[i])
    ensures rows == FeatureFrame(txs)
  {
    forall i | 0 <= i < |rows|
      ensures rows[i] == FeatureFrame(txs)[i]
    {
      FrameAt(txs, i);
    }
  }

  /** Zero-filling the merged table and assigning the segment column gives the final
      rows. */
  lemma {:induction false} AfterMerge(customers: seq<Customer>, completed: seq<Transaction>, numericAttrs: set<string>)
    requires ValidTransactions(completed)
    ensures var filled := FillNumericColumns(LeftMerge(customers, FeatureFrame(completed)), numericAttrs);
      (forall i :: 0 <= i < |filled| ==> FeatureKeySet <= filled[i].features.Keys) &&
      WithSegments(filled, SegmentCustomers(filled)) == FinalRecords(customers, completed, numericAttrs)
  {
    var merged := LeftMerge(customers, FeatureFrame(completed));
    MergedTable(customers, completed);
    var filled := FillNumericColumns(merged, numericAttrs);
    forall i | 0 <= i < |filled|
      ensures filled[i] == FilledRecord(customers[i], completed, numericAttrs)
    {
      assert filled[i] == FillNumeric(merged[i], numericAttrs);
    }
    var final := WithSegments(filled, SegmentCustomers(filled));
    var expected := FinalRecords(customers, completed, numericAttrs);
    forall i | 0 <= i < |final|
      ensures final[i] == expected[i]
    {
      assert final[i] == filled[i].(segment := Some(SegmentRecord(filled[i])));
    }
  }

  /** Lines 22-40 of the script: filter, generate the features, merge them onto the
      customers, zero-fill the numeric columns and assign the segment column. The
      customer columns that pandas stores as numbers are `numericAttrs`. */
  method GenerateFeatures(customers: seq<Customer>, txs: seq<Transaction>, numericAttrs: set<string>)
    returns (result: Result<seq<Record>, PipelineError>)
    requires ValidTransactions(txs)
    ensures result == FinalTable(customers, txs, numericAttrs)
  {
    var completedTx := FilterCompleted(txs);
    if |completedTx| == 0 {
      return Err(MissingMergeKey);
    }
    var featuresDf := Generate12MonthFeatures(completedTx);
    GeneratedFrame(completedTx, featuresDf);
    AfterMerge(customers, completedTx, numericAttrs);
    var finalFeatures := LeftMerge(customers, featuresDf);
    finalFeatures := FillNumericColumns(finalFeatures, numericAttrs);
    var segments := SegmentCustomers(finalFeatures);
    finalFeatures := WithSegments(finalFeatures, segments);
    return Ok(finalFeatures);
  }

  /** Only completed transactions matter: filtering them first changes nothing. */
  lemma {:induction false} CompletedOnly(customers: seq<Customer>, txs: seq<Transaction>, numericAttrs: set<string>)
    requires ValidTransactions(txs)
    ensures FinalTable(customers, FilterCompleted(txs), numericAttrs) == FinalTable(customers, txs, numericAttrs)
  {
    FilterCompletedIdempotent(txs);
  }

  /** The script fails exactly when no transaction is completed. */
  lemma {:induction false} FailsExactlyWithoutCompleted(customers: seq<Customer>, txs: seq<Transaction>, numericAttrs: set<string>)
    requires ValidTransactions(txs)
    ensures FinalTable(customers, txs, numericAttrs).Err? <==> forall t :: t in txs ==> t.status != "completed"
  {
    var completed := FilterCompleted(txs);
    if |completed| > 0 {
      assert completed[0] in completed;
    }
  }

  /** The final table keeps every customer once, in order, with its own columns
      (zero-filled where numeric), and gives every row a segment. */
  lemma {:induction false} OneRowPerCustomer(customers: seq<Customer>, txs: seq<Transaction>, numericAttrs: set<string>)
    requires ValidTransactions(txs)
    ensures FinalTable(customers, txs, numericAttrs).Ok? ==>
      var t := FinalTable(customers, txs, numericAttrs).value;
      |t| == |customers| &&
      forall i :: 0 <= i < |customers| ==>
        t[i].id == customers[i].id && t[i].attrs == FillNa(customers[i].attrs, numericAttrs) &&
        t[i].segment.Some? && t[i].features[CustomerId] == Text(customers[i].id)
  {
  }

  /** A customer id occurs among the customers of `txs` exactly when some transaction
      of `txs` belongs to it. */
  lemma {:induction false} CustomersExactly(txs: seq<Transaction>, id: string)
    ensures id in Customers(txs) <==> exists t :: t in txs && t.customerId == id
  {
    var ids := CustomerIds(txs);
    if id in ids {
      var i :| 0 <= i < |ids| && ids[i] == id;
      assert txs[i] in txs;
    }
    if exists t :: t in txs && t.customerId == id {
      var t :| t in txs && t.customerId == id;
      var i :| 0 <= i < |txs| && txs[i] == t;
      assert ids[i] == id;
    }
  }

  /** A customer without a completed transaction gets 0 in every numeric feature column,
      keeps the two timestamp columns missing, and is segmented Inactive. */
  lemma {:induction false} UnmatchedCustomer(c: Customer, completed: seq<Transaction>, numericAttrs: set<string>)
    requires ValidTransactions(completed)
    requires forall t :: t in completed ==> t.customerId != c.id
    ensures var r := FinalRecord(c, completed, numericAttrs);
      (forall k :: IsNumericKey(k) ==> r.features[k] == Num(0.0)) &&
      r.features[LatestTransactionDate] == Missing && r.features[TwelveMonthsAgo] == Missing &&
      r.features[CustomerId] == Text(c.id) &&
      r.segment == Some(Inactive)
  {
    CustomersExactly(completed, c.id);
    var r := FilledRecord(c, completed, numericAttrs);
    assert r.features[TotalAmount12m] == Num(0.0);
  }

  /** A customer with completed transactions keeps its feature row unchanged by the
      zero-filling, and its segment is the one that row determines. */
  lemma {:induction false} MatchedCustomer(c: Customer, completed: seq<Transaction>, numericAttrs: set<string>)
    requires ValidTransactions(completed)
    requires exists t :: t in completed && t.customerId == c.id
    ensures c.id in Customers(completed)
    ensures var r := FinalRecord(c, completed, numericAttrs);
      var f := FeaturesFor(completed, c.id);
      (forall k :: r.features[k] == f[k]) &&
      r.segment == Some(SegmentOf(f[TotalAmount12m], f[TotalTransactions12m], f[AvgAmount12m]))
  {
    CustomersExactly(completed, c.id);
    RowComplete(c.id, TransactionsOf(completed, c.id));
  }
}
