/** The per-value rules of the feature-engineering functions: `pd.cut` bucketing, the
    fixed categorical encodings, the major-city test, the lifetime-value estimate and the
    casts applied to single columns. */
module Bucketing {
  import opened Wrappers
  import opened Seqs
  import opened Calendar
  import opened Cells
  import opened Decimal

  /** A `pd.cut` rule: the bin edges and one label per interval. */
  datatype Bins = Bins(edges: seq<real>, labels: seq<string>)

  /** What `pd.cut` accepts: strictly increasing edges, one label fewer than edges. Here the
      labels are also pairwise different, as they are in every rule below. */
  ghost predicate WellFormedBins(b: Bins) {
    |b.labels| + 1 == |b.edges| && NoDup(b.labels) &&
    forall i, j :: 0 <= i < j < |b.edges| ==> b.edges[i] < b.edges[j]
  }

  /** `pd.cut(x, bins=edges, labels=labels)` with its default `right=True`: the label of
      the interval `(edges[i], edges[i + 1]]` holding `x`, and no label when `x` is at or
      below the first edge or above the last. */
  function Cut(x: real, b: Bins): Option<string>
    requires |b.labels| + 1 == |b.edges|
    decreases |b.labels|
  {
    if |b.labels| == 0 then None
    else if b.edges[0] < x <= b.edges[1] then Some(b.labels[0])
    else Cut(x, Bins(b.edges[1..], b.labels[1..]))
  }

  /** The intervals are right-closed and left-open: `x` gets the label of interval `i`
      exactly when `edges[i] < x <= edges[i + 1]`, and no label exactly when it lies
      outside `(edges[0], edges[|edges| - 1]]`. */
  lemma {:induction false} CutExactly(x: real, b: Bins)
    requires WellFormedBins(b)
    ensures forall i :: 0 <= i < |b.labels| ==>
      (Cut(x, b) == Some(b.labels[i]) <==> b.edges[i] < x <= b.edges[i + 1])
    ensures Cut(x, b).None? <==> x <= b.edges[0] || b.edges[|b.edges| - 1] < x
  {
    forall i | 0 <= i < |b.labels| {
      CutAt(x, b, i);
    }
    CutOutside(x, b);
  }

  /** Dropping the first interval of a rule leaves a rule. */
  lemma RestWellFormed(b: Bins)
    requires WellFormedBins(b) && |b.labels| > 0
    ensures WellFormedBins(Bins(b.edges[1..], b.labels[1..]))
  {
    var rest := Bins(b.edges[1..], b.labels[1..]);
    forall i, j | 0 <= i < j < |rest.labels|
      ensures rest.labels[i] != rest.labels[j]
    {
      assert rest.labels[i] == b.labels[i + 1] && rest.labels[j] == b.labels[j + 1];
    }
    forall i, j | 0 <= i < j < |rest.edges|
      ensures rest.edges[i] < rest.edges[j]
    {
      assert rest.edges[i] == b.edges[i + 1] && rest.edges[j] == b.edges[j + 1];
    }
  }

  lemma {:induction false} CutAt(x: real, b: Bins, i: nat)
    requires WellFormedBins(b) && i < |b.labels|
    ensures Cut(x, b) == Some(b.labels[i]) <==> b.edges[i] < x <= b.edges[i + 1]
    decreases i
  {
    var rest := Bins(b.edges[1..], b.labels[1..]);
    RestWellFormed(b);
    if i == 0 {
      if !(b.edges[0] < x <= b.edges[1]) {
        CutLabel(x, rest);
        assert b.labels[0] !in rest.labels by {
          forall j | 0 <= j < |rest.labels|
            ensures rest.labels[j] != b.labels[0]
          {
            assert rest.labels[j] == b.labels[j + 1];
          }
        }
      }
    } else {
      CutAt(x, rest, i - 1);
      assert rest.labels[i - 1] == b.labels[i];
      assert rest.edges[i - 1] == b.edges[i] && rest.edges[i] == b.edges[i + 1];
      assert b.edges[1] <= b.edges[i];
      assert b.labels[0] != b.labels[i];
    }
  }

  lemma {:induction false} CutOutside(x: real, b: Bins)
    requires WellFormedBins(b)
    ensures Cut(x, b).None? <==> x <= b.edges[0] || b.edges[|b.edges| - 1] < x
    decreases |b.labels|
  {
    if |b.labels| > 0 {
      var rest := Bins(b.edges[1..], b.labels[1..]);
      RestWellFormed(b);
      CutOutside(x, rest);
      assert b.edges[|b.edges| - 1] == rest.edges[|rest.edges| - 1];
      assert b.edges[0] < b.edges[1] <= b.edges[|b.edges| - 1];
    }
  }

  /** A label `Cut` returns is one of the rule's labels. */
  lemma {:induction false} CutLabel(x: real, b: Bins)
    requires |b.labels| + 1 == |b.edges|
    ensures Cut(x, b).Some? ==> Cut(x, b).value in b.labels
    decreases |b.labels|
  {
    if |b.labels| > 0 && !(b.edges[0] < x <= b.edges[1]) {
      CutLabel(x, Bins(b.edges[1..], b.labels[1..]));
    }
  }

  const AgeGroups := Bins([0.0, 25.0, 35.0, 45.0, 55.0, 100.0], ["18-25", "26-35", "36-45", "46-55", "55+"])
  const SessionFrequency := Bins([0.0, 5.0, 15.0, 30.0, 1000.0], ["Low", "Medium", "High", "Very High"])
  const SessionDuration := Bins([0.0, 15.0, 30.0, 60.0, 1000.0], ["Short", "Medium", "Long", "Very Long"])
  const EngagementLevel := Bins([0.0, 25.0, 50.0, 75.0, 100.0], ["Low", "Medium", "High", "Very High"])
  const ActivityRecency := Bins([0.0, 1.0, 7.0, 30.0, 1000.0], ["Very Recent", "Recent", "Moderate", "Inactive"])
  const SpendingLevel := Bins([0.0, 100.0, 500.0, 1000.0, 10000.0], ["Low", "Medium", "High", "Very High"])
  const OrderFrequency := Bins([0.0, 2.0, 5.0, 10.0, 1000.0], ["Low", "Medium", "High", "Very High"])
  const PurchaseRecency := Bins([0.0, 7.0, 30.0, 90.0, 1000.0], ["Very Recent", "Recent", "Moderate", "Inactive"])
  const CustomerValue := Bins([0.0, 200.0, 1000.0, 5000.0, 100000.0], ["Bronze", "Silver", "Gold", "Platinum"])
  const PriceCategory := Bins([0.0, 20.0, 50.0, 100.0, 1000.0], ["Budget", "Mid-range", "Premium", "Luxury"])
  const RatingCategory := Bins([0.0, 3.0, 4.0, 4.5, 5.0], ["Poor", "Good", "Very Good", "Excellent"])
  const ReviewVolume := Bins([0.0, 10.0, 50.0, 200.0, 10000.0], ["Low", "Medium", "High", "Very High"])
  const InventoryStatus := Bins([0.0, 10.0, 50.0, 200.0, 10000.0], ["Low Stock", "Medium Stock", "High Stock", "Overstocked"])

  lemma AgeGroupsWellFormed()
    ensures WellFormedBins(AgeGroups)
  {
    var l := AgeGroups.labels;
    assert forall i, j :: 0 <= i < j < 5 ==> l[i][0] != l[j][0] || l[i][1] != l[j][1];
  }

  lemma ActivityRecencyWellFormed()
    ensures WellFormedBins(ActivityRecency)
  {
    var l := ActivityRecency.labels;
    assert forall i, j :: 0 <= i < j < 4 ==> l[i][0] != l[j][0] || |l[i]| != |l[j]|;
  }

  lemma CustomerValueWellFormed()
    ensures WellFormedBins(CustomerValue)
  {
    var l := CustomerValue.labels;
    assert forall i, j :: 0 <= i < j < 4 ==> l[i][0] != l[j][0];
  }

  /** The labels of a rule start with pairwise different letters. */
  ghost predicate DistinctInitials(labels: seq<string>) {
    forall i, j :: 0 <= i < j < |labels| ==> |labels[i]| > 0 && |labels[j]| > 0 && labels[i][0] != labels[j][0]
  }

  lemma {:induction false} InitialsDistinct(labels: seq<string>)
    requires DistinctInitials(labels)
    ensures NoDup(labels)
  {
    forall i, j | 0 <= i < j < |labels|
      ensures labels[i] != labels[j]
    {
      assert labels[i][0] != labels[j][0];
    }
  }

  /** A four-interval rule with increasing edges and labels of different initials is a
      well-formed `pd.cut` rule. */
  lemma {:induction false} FourBinsWellFormed(b: Bins)
    requires |b.edges| == 5 && |b.labels| == 4
    requires b.edges[0] < b.edges[1] < b.edges[2] < b.edges[3] < b.edges[4]
    requires DistinctInitials(b.labels)
    ensures WellFormedBins(b)
  {
    InitialsDistinct(b.labels);
  }

  lemma SessionFrequencyWellFormed()
    ensures WellFormedBins(SessionFrequency)
  {
    FourBinsWellFormed(SessionFrequency);
  }

  lemma SessionDurationWellFormed()
    ensures WellFormedBins(SessionDuration)
  {
    FourBinsWellFormed(SessionDuration);
  }

  lemma EngagementLevelWellFormed()
    ensures WellFormedBins(EngagementLevel)
  {
    FourBinsWellFormed(EngagementLevel);
  }

  lemma SpendingLevelWellFormed()
    ensures WellFormedBins(SpendingLevel)
  {
    FourBinsWellFormed(SpendingLevel);
  }

  lemma OrderFrequencyWellFormed()
    ensures WellFormedBins(OrderFrequency)
  {
    FourBinsWellFormed(OrderFrequency);
  }

  lemma PurchaseRecencyWellFormed()
    ensures WellFormedBins(PurchaseRecency)
  {
    FourBinsWellFormed(PurchaseRecency);
  }

  lemma PriceCategoryWellFormed()
    ensures WellFormedBins(PriceCategory)
  {
    FourBinsWellFormed(PriceCategory);
  }

  lemma RatingCategoryWellFormed()
    ensures WellFormedBins(RatingCategory)
  {
    FourBinsWellFormed(RatingCategory);
  }

  lemma ReviewVolumeWellFormed()
    ensures WellFormedBins(ReviewVolume)
  {
    FourBinsWellFormed(ReviewVolume);
  }

  lemma InventoryStatusWellFormed()
    ensures WellFormedBins(InventoryStatus)
  {
    FourBinsWellFormed(InventoryStatus);
  }

  /** Every other rule of the feature-engineering functions is a well-formed `pd.cut`
      rule as well, so `CutExactly` describes each of them. */
  lemma {:induction false} RulesWellFormed()
    ensures WellFormedBins(SessionFrequency) && WellFormedBins(SessionDuration)
    ensures WellFormedBins(EngagementLevel) && WellFormedBins(SpendingLevel)
    ensures WellFormedBins(OrderFrequency) && WellFormedBins(PurchaseRecency)
    ensures WellFormedBins(PriceCategory) && WellFormedBins(RatingCategory)
    ensures WellFormedBins(ReviewVolume) && WellFormedBins(InventoryStatus)
  {
    SessionFrequencyWellFormed();
    SessionDurationWellFormed();
    EngagementLevelWellFormed();
    SpendingLevelWellFormed();
    OrderFrequencyWellFormed();
    PurchaseRecencyWellFormed();
    PriceCategoryWellFormed();
    RatingCategoryWellFormed();
    ReviewVolumeWellFormed();
    InventoryStatusWellFormed();
  }

  /** Age groups: (0,25] is '18-25', (25,35] '26-35', (35,45] '36-45', (45,55] '46-55' and
      (55,100] '55+'; an age of 0 or less, or above 100, gets no group. */
  lemma {:induction false} AgeGroupRule(x: real)
    ensures Cut(x, AgeGroups) == Some("18-25") <==> 0.0 < x <= 25.0
    ensures Cut(x, AgeGroups) == Some("26-35") <==> 25.0 < x <= 35.0
    ensures Cut(x, AgeGroups) == Some("36-45") <==> 35.0 < x <= 45.0
    ensures Cut(x, AgeGroups) == Some("46-55") <==> 45.0 < x <= 55.0
    ensures Cut(x, AgeGroups) == Some("55+") <==> 55.0 < x <= 100.0
    ensures Cut(x, AgeGroups).None? <==> x <= 0.0 || 100.0 < x
  {
    AgeGroupsWellFormed();
    CutExactly(x, AgeGroups);
    var l := AgeGroups.labels;
    assert l[0] == "18-25" && l[1] == "26-35" && l[2] == "36-45" && l[3] == "46-55" && l[4] == "55+";
  }

  /** Activity recency: a `last_login_days` of 0 gets no label, (0,1] is 'Very Recent',
      (1,7] 'Recent', (7,30] 'Moderate' and (30,1000] 'Inactive'. */
  lemma {:induction false} ActivityRecencyRule(x: real)
    ensures Cut(x, ActivityRecency) == Some("Very Recent") <==> 0.0 < x <= 1.0
    ensures Cut(x, ActivityRecency) == Some("Recent") <==> 1.0 < x <= 7.0
    ensures Cut(x, ActivityRecency) == Some("Moderate") <==> 7.0 < x <= 30.0
    ensures Cut(x, ActivityRecency) == Some("Inactive") <==> 30.0 < x <= 1000.0
    ensures Cut(x, ActivityRecency).None? <==> x <= 0.0 || 1000.0 < x
  {
    ActivityRecencyWellFormed();
    CutExactly(x, ActivityRecency);
    var l := ActivityRecency.labels;
    assert l[0] == "Very Recent" && l[1] == "Recent" && l[2] == "Moderate" && l[3] == "Inactive";
  }

  /** Customer value tiers on the lifetime-value estimate: (0,200] Bronze, (200,1000]
      Silver, (1000,5000] Gold, (5000,100000] Platinum, otherwise no tier. */
  lemma {:induction false} CustomerValueRule(x: real)
    ensures Cut(x, CustomerValue) == Some("Bronze") <==> 0.0 < x <= 200.0
    ensures Cut(x, CustomerValue) == Some("Silver") <==> 200.0 < x <= 1000.0
    ensures Cut(x, CustomerValue) == Some("Gold") <==> 1000.0 < x <= 5000.0
    ensures Cut(x, CustomerValue) == Some("Platinum") <==> 5000.0 < x <= 100000.0
    ensures Cut(x, CustomerValue).None? <==> x <= 0.0 || 100000.0 < x
  {
    CustomerValueWellFormed();
    CutExactly(x, CustomerValue);
    var l := CustomerValue.labels;
    assert l[0] == "Bronze" && l[1] == "Silver" && l[2] == "Gold" && l[3] == "Platinum";
  }

  /** `clv_estimate = total_spent * (1 + total_orders * 0.1)`. */
  function ClvEstimate(spent: real, orders: real): real {
    spent * (1.0 + orders * 0.1)
  }

  /** The estimate grows by a tenth of the amount spent for every order, so for a positive
      amount it is never below the amount itself; 100 over 5 orders is 150, a Bronze
      customer, and 1000 over 10 orders is 2000, a Gold one. */
  lemma {:induction false} ClvRule(spent: real, orders: real)
    ensures ClvEstimate(spent, orders + 1.0) == ClvEstimate(spent, orders) + spent * 0.1
    ensures spent >= 0.0 && orders >= 0.0 ==> ClvEstimate(spent, orders) >= spent
    ensures Cut(ClvEstimate(100.0, 5.0), CustomerValue) == Some("Bronze")
    ensures Cut(ClvEstimate(1000.0, 10.0), CustomerValue) == Some("Gold")
  {
    if spent >= 0.0 && orders >= 0.0 {
      assert spent * (orders * 0.1) >= 0.0;
    }
    CustomerValueRule(ClvEstimate(100.0, 5.0));
    CustomerValueRule(ClvEstimate(1000.0, 10.0));
  }

  /** The cell `pd.cut` produces: a label, or NaN when the value falls outside every bin
      or is itself missing. */
  function CutCell(c: Cell, b: Bins): (r: Cell)
    requires |b.labels| + 1 == |b.edges|
    ensures r.Text? || r.Missing?
  {
    if c.Num? then
      match Cut(c.x, b)
      case Some(l) => Text(l)
      case None => Missing
    else Missing
  }

  function CutColumn(col: seq<Cell>, b: Bins): (r: seq<Cell>)
    requires |b.labels| + 1 == |b.edges|
    ensures |r| == |col|
    ensures forall i :: 0 <= i < |col| ==> r[i] == CutCell(col[i], b)
  {
    if col == [] then [] else [CutCell(col[0], b)] + CutColumn(col[1..], b)
  }

  const GenderCodes: map<string, int> := map["M" := 1, "F" := 2, "Other" := 3]
  const FavoriteCategoryCodes: map<string, int> :=
    map["Electronics" := 1, "Clothing" := 2, "Books" := 3, "Home" := 4, "Sports" := 5]
  const PaymentCodes: map<string, int> :=
    map["Credit Card" := 1, "Debit Card" := 2, "PayPal" := 3, "Apple Pay" := 4, "Google Pay" := 5]
  const ProductCategoryCodes: map<string, int> :=
    map["Electronics" := 1, "Clothing" := 2, "Books" := 3, "Home" := 4, "Sports" := 5,
        "Beauty" := 6, "Toys" := 7, "Automotive" := 8, "Health" := 9, "Garden" := 10]

  /** `Series.map(codes)` on one cell: the code of a listed value, NaN for anything else. */
  function Encode(c: Cell, codes: map<string, int>): Cell {
    if c.Text? && c.s in codes then Num(codes[c.s] as real) else Missing
  }

  function EncodeColumn(col: seq<Cell>, codes: map<string, int>): (r: seq<Cell>)
    ensures |r| == |col|
    ensures forall i :: 0 <= i < |col| ==> r[i] == Encode(col[i], codes)
  {
    if col == [] then [] else [Encode(col[0], codes)] + EncodeColumn(col[1..], codes)
  }

  /** Gender codes: M is 1, F is 2, Other is 3, and every other value (including a
      missing one) maps to NaN. */
  lemma {:induction false} GenderRule(c: Cell)
    ensures Encode(c, GenderCodes) == Num(1.0) <==> c == Text("M")
    ensures Encode(c, GenderCodes) == Num(2.0) <==> c == Text("F")
    ensures Encode(c, GenderCodes) == Num(3.0) <==> c == Text("Other")
    ensures Encode(c, GenderCodes).Missing? <==> !(c.Text? && c.s in {"M", "F", "Other"})
  {
    assert GenderCodes.Keys == {"M", "F", "Other"};
  }

  const MajorCities: seq<string> := ["New York", "Los Angeles", "Chicago", "Houston", "Phoenix"]

  /** `Series.isin(major_cities)` on one cell; a missing value is not in the list. */
  function IsMajorCity(c: Cell): (r: Cell)
    ensures r.Flag?
    ensures r.b <==> c.Text? && c.s in MajorCities
  {
    Flag(c.Text? && c.s in MajorCities)
  }

  function IsMajorCityColumn(col: seq<Cell>): (r: seq<Cell>)
    ensures |r| == |col|
    ensures forall i :: 0 <= i < |col| ==> r[i] == IsMajorCity(col[i])
  {
    if col == [] then [] else [IsMajorCity(col[0])] + IsMajorCityColumn(col[1..])
  }

  /** `total_spent * (1 + total_orders * 0.1)` on one row; NaN when either input is. */
  function ClvCell(spent: Cell, orders: Cell): Cell {
    if spent.Num? && orders.Num? then Num(ClvEstimate(spent.x, orders.x)) else Missing
  }

  function ClvColumn(spent: seq<Cell>, orders: seq<Cell>): (r: seq<Cell>)
    requires |spent| == |orders|
    ensures |r| == |spent|
    ensures forall i :: 0 <= i < |spent| ==> r[i] == ClvCell(spent[i], orders[i])
  {
    if spent == [] then [] else [ClvCell(spent[0], orders[0])] + ClvColumn(spent[1..], orders[1..])
  }

  /** `int(x)` for a float: truncation toward zero. */
  function Truncate(x: real): int {
    if x >= 0.0 then x.Floor else -((-x).Floor)
  }

  /** `astype(int)` on one cell, which applies `int()` to it: booleans become 0 or 1,
      numbers are truncated, a string spelling an integer is read as that integer, and
      anything else (NaN, a timestamp, any other string) cannot be cast. */
  function AsInt(c: Cell): Option<Cell> {
    match c
    case Flag(b) => Some(Num(if b then 1.0 else 0.0))
    case Num(x) => Some(Num(Truncate(x) as real))
    case Text(s) => (if ParseInt(s).Some? then Some(Num(ParseInt(s).value as real)) else None)
    case _ => None
  }

  /** `astype(int)` on a column: it fails when any of its cells cannot be cast. */
  function AsIntColumn(col: seq<Cell>): (r: Option<seq<Cell>>)
    ensures r.None? <==> exists i :: 0 <= i < |col| && AsInt(col[i]).None?
    ensures r.Some? ==> |r.value| == |col| && forall i :: 0 <= i < |col| ==> Some(r.value[i]) == AsInt(col[i])
  {
    if col == [] then Some([])
    else
      match (AsInt(col[0]), AsIntColumn(col[1..]))
      case (Some(c), Some(rest)) =>
        assert forall i :: 1 <= i < |col| ==> col[i] == col[1..][i - 1];
        Some([c] + rest)
      case (None, _) => None
      case (_, None) =>
        var i :| 0 <= i < |col[1..]| && AsInt(col[1..][i]).None?;
        assert col[i + 1] == col[1..][i];
        None
  }

  /** A two-row column casts exactly when both of its cells do. */
  lemma {:induction false} AsIntPair(a: Cell, b: Cell)
    ensures AsIntColumn([a, b]) ==
      if AsInt(a).Some? && AsInt(b).Some? then Some([AsInt(a).value, AsInt(b).value]) else None
  {
    var col := [a, b];
    var r := AsIntColumn(col);
    if AsInt(a).Some? && AsInt(b).Some? {
      assert forall i :: 0 <= i < |col| ==> AsInt(col[i]).Some?;
      assert Some(r.value[0]) == AsInt(a) && Some(r.value[1]) == AsInt(b);
      assert r.value == [AsInt(a).value, AsInt(b).value];
    } else if AsInt(a).None? {
      assert AsInt(col[0]).None?;
    } else {
      assert AsInt(col[1]).None?;
    }
  }

  /** An `is_premium` column of flags or of the strings "1" and "0" casts to 1 and 0. */
  lemma {:induction false} IsPremiumCasts()
    ensures AsIntColumn([Flag(true), Flag(false)]) == Some([Num(1.0), Num(0.0)])
    ensures AsIntColumn([Text("1"), Text("0")]) == Some([Num(1.0), Num(0.0)])
  {
    AsIntPair(Flag(true), Flag(false));
    ParseIntDigit('1');
    ParseIntDigit('0');
    assert "1" == ['1'] && "0" == ['0'];
    AsIntPair(Text("1"), Text("0"));
  }

  /** A word or a NaN in `is_premium` makes the cast fail. */
  lemma {:induction false} IsPremiumRefuses()
    ensures AsIntColumn([Text("yes"), Num(1.0)]) == None
    ensures AsIntColumn([Num(1.0), Missing]) == None
  {
    ParseIntRefusesText();
    AsIntPair(Text("yes"), Num(1.0));
    AsIntPair(Num(1.0), Missing);
  }

  /** The truncated value is the integer next to `x` on the side of 0. */
  lemma {:induction false} TruncateTowardZero(x: real)
    ensures x >= 0.0 ==> Truncate(x) as real <= x < Truncate(x) as real + 1.0
    ensures x < 0.0 ==> Truncate(x) as real - 1.0 < x <= Truncate(x) as real
    ensures Truncate(-x) == -Truncate(x)
  {
    if x < 0.0 {
      assert Truncate(-x) == (-x).Floor;
    } else if x > 0.0 {
      assert Truncate(-x) == -((-(-x)).Floor);
    }
  }

  /** The column holds strings, the `object` dtype `pd.to_datetime` is applied to. */
  predicate IsObject(col: seq<Cell>) {
    exists i :: 0 <= i < |col| && col[i].Text?
  }

  /** `pd.to_datetime` on a column: the string cells are parsed by `parse`, the others
      are kept. */
  function ToDatetime(col: seq<Cell>, parse: string -> Cell): (r: seq<Cell>)
    ensures |r| == |col|
    ensures forall i :: 0 <= i < |col| && col[i].Text? ==> r[i] == parse(col[i].s)
    ensures forall i :: 0 <= i < |col| && !col[i].Text? ==> r[i] == col[i]
  {
    if col == [] then []
    else [if col[0].Text? then parse(col[0].s) else col[0]] + ToDatetime(col[1..], parse)
  }

  /** A column without strings is left as it is, so converting only `object` columns
      and converting every column agree. */
  lemma {:induction false} ToDatetimeKeepsTimestamps(col: seq<Cell>, parse: string -> Cell)
    ensures !IsObject(col) ==> ToDatetime(col, parse) == col
  {
    if !IsObject(col) {
      assert forall i :: 0 <= i < |col| ==> !col[i].Text?;
    }
  }

  /** `Series.dt.month` on one cell. */
  function MonthCell(c: Cell): Cell {
    if c.Stamp? then Num(c.t.month as real) else Missing
  }

  /** `Series.dt.dayofweek` on one cell. */
  function DayOfWeekCell(c: Cell): Cell {
    if c.Stamp? && Valid(c.t) then Num(DayOfWeek(c.t) as real) else Missing
  }

  function MonthColumn(col: seq<Cell>): (r: seq<Cell>)
    ensures |r| == |col|
    ensures forall i :: 0 <= i < |col| ==> r[i] == MonthCell(col[i])
  {
    if col == [] then [] else [MonthCell(col[0])] + MonthColumn(col[1..])
  }

  function DayOfWeekColumn(col: seq<Cell>): (r: seq<Cell>)
    ensures |r| == |col|
    ensures forall i :: 0 <= i < |col| ==> r[i] == DayOfWeekCell(col[i])
  {
    if col == [] then [] else [DayOfWeekCell(col[0])] + DayOfWeekColumn(col[1..])
  }
}
