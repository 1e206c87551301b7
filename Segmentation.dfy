/** `segment_customers`: the six customer segments and the first-match cascade that assigns
    one of them to a row of features. */
module Segmentation {
  import opened Cells

  /** The six segments, in the order the cascade tries them. */
  datatype Segment = Inactive | HighValueActive | Active | HighValueOccasional | Regular | Occasional

  /** The label the segment column holds after `.astype(str)`. */
  function Label(s: Segment): string {
    match s
    case Inactive => "Inactive"
    case HighValueActive => "High-Value Active"
    case Active => "Active"
    case HighValueOccasional => "High-Value Occasional"
    case Regular => "Regular"
    case Occasional => "Occasional"
  }

  /** `_segment(row)` over the row's `total_amount_12m`, `total_transactions_12m` and
      `avg_amount_12m` cells. A comparison with a missing cell is false. */
  function SegmentOf(total: Cell, count: Cell, mean: Cell): Segment {
    if Equals(total, 0.0) then Inactive
    else if Exceeds(total, 10000.0) && Exceeds(count, 20.0) then HighValueActive
    else if Exceeds(total, 5000.0) || Exceeds(count, 10.0) then Active
    else if Exceeds(mean, 500.0) then HighValueOccasional
    else if Exceeds(count, 5.0) then Regular
    else Occasional
  }

  /** The position of a segment's rule in the cascade. */
  function Rank(s: Segment): nat {
    match s
    case Inactive => 0
    case HighValueActive => 1
    case Active => 2
    case HighValueOccasional => 3
    case Regular => 4
    case Occasional => 5
  }

  /** The condition of one rule on its own, regardless of the rules before it. */
  predicate Condition(s: Segment, total: Cell, count: Cell, mean: Cell) {
    match s
    case Inactive => Equals(total, 0.0)
    case HighValueActive => Exceeds(total, 10000.0) && Exceeds(count, 20.0)
    case Active => Exceeds(total, 5000.0) || Exceeds(count, 10.0)
    case HighValueOccasional => Exceeds(mean, 500.0)
    case Regular => Exceeds(count, 5.0)
    case Occasional => true
  }

  /** The cascade picks segment `s` exactly when the condition of `s` holds and the
      condition of no rule before it holds; the last rule always holds, so some rule is
      picked. */
  lemma {:induction false} FirstMatch(total: Cell, count: Cell, mean: Cell, s: Segment)
    ensures SegmentOf(total, count, mean) == s <==>
      Condition(s, total, count, mean) &&
      forall t :: Rank(t) < Rank(s) ==> !Condition(t, total, count, mean)
  {
    match s
    case Inactive => PicksInactive(total, count, mean);
    case HighValueActive => PicksHighValueActive(total, count, mean);
    case Active => PicksActive(total, count, mean);
    case HighValueOccasional => PicksHighValueOccasional(total, count, mean);
    case Regular => PicksRegular(total, count, mean);
    case Occasional => PicksOccasional(total, count, mean);
  }

  lemma {:induction false} PicksInactive(total: Cell, count: Cell, mean: Cell)
    ensures SegmentOf(total, count, mean) == Inactive <==>
      Condition(Inactive, total, count, mean) &&
      forall t :: Rank(t) < 0 ==> !Condition(t, total, count, mean)
  {
  }

  lemma {:induction false} PicksHighValueActive(total: Cell, count: Cell, mean: Cell)
    ensures SegmentOf(total, count, mean) == HighValueActive <==>
      Condition(HighValueActive, total, count, mean) &&
      forall t :: Rank(t) < 1 ==> !Condition(t, total, count, mean)
  {
    var before0 := Condition(Inactive, total, count, mean);
    assert forall t :: Rank(t) < 1 ==> t == Inactive;
  }

  lemma {:induction false} PicksActive(total: Cell, count: Cell, mean: Cell)
    ensures SegmentOf(total, count, mean) == Active <==>
      Condition(Active, total, count, mean) &&
      forall t :: Rank(t) < 2 ==> !Condition(t, total, count, mean)
  {
    var before0 := Condition(Inactive, total, count, mean);
    var before1 := Condition(HighValueActive, total, count, mean);
    assert forall t :: Rank(t) < 2 ==> t == Inactive || t == HighValueActive;
  }

  lemma {:induction false} PicksHighValueOccasional(total: Cell, count: Cell, mean: Cell)
    ensures SegmentOf(total, count, mean) == HighValueOccasional <==>
      Condition(HighValueOccasional, total, count, mean) &&
      forall t :: Rank(t) < 3 ==> !Condition(t, total, count, mean)
  {
    var before0 := Condition(Inactive, total, count, mean);
    var before1 := Condition(HighValueActive, total, count, mean);
    var before2 := Condition(Active, total, count, mean);
    assert forall t :: Rank(t) < 3 ==> t == Inactive || t == HighValueActive || t == Active;
  }

  lemma {:induction false} PicksRegular(total: Cell, count: Cell, mean: Cell)
    ensures SegmentOf(total, count, mean) == Regular <==>
      Condition(Regular, total, count, mean) &&
      forall t :: Rank(t) < 4 ==> !Condition(t, total, count, mean)
  {
    var before0 := Condition(Inactive, total, count, mean);
    var before1 := Condition(HighValueActive, total, count, mean);
    var before2 := Condition(Active, total, count, mean);
    var before3 := Condition(HighValueOccasional, total, count, mean);
    assert forall t :: Rank(t) < 4 ==> t != Regular && t != Occasional;
  }

  lemma {:induction false} PicksOccasional(total: Cell, count: Cell, mean: Cell)
    ensures SegmentOf(total, count, mean) == Occasional <==>
      Condition(Occasional, total, count, mean) &&
      forall t :: Rank(t) < 5 ==> !Condition(t, total, count, mean)
  {
    var before0 := Condition(Inactive, total, count, mean);
    var before1 := Condition(HighValueActive, total, count, mean);
    var before2 := Condition(Active, total, count, mean);
    var before3 := Condition(HighValueOccasional, total, count, mean);
    var before4 := Condition(Regular, total, count, mean);
    assert forall t :: Rank(t) < 5 ==> t != Occasional;
  }

  /** A row is Inactive exactly when its amount total is 0; a missing total is not 0. */
  lemma {:induction false} InactiveExactly(total: Cell, count: Cell, mean: Cell)
    ensures SegmentOf(total, count, mean) == Inactive <==> total == Num(0.0)
  {
  }

  /** A row is High-Value Active only when both thresholds are crossed, and a total of
      exactly 10000 is not enough however many transactions there are. */
  lemma {:induction false} HighValueActiveNeedsBoth(total: real, count: real, mean: Cell)
    ensures SegmentOf(Num(total), Num(count), mean) == HighValueActive <==>
      total > 10000.0 && count > 20.0
  {
  }

  /** Concrete rows: 10000/25 is Active, 12000/25 High-Value Active, 6000/3 Active,
      1200/2 with mean 600 High-Value Occasional, 300/6 Regular, 100/1 Occasional. */
  lemma {:induction false} SegmentExamples()
    ensures SegmentOf(Num(10000.0), Num(25.0), Num(400.0)) == Active
    ensures SegmentOf(Num(12000.0), Num(25.0), Num(480.0)) == HighValueActive
    ensures SegmentOf(Num(6000.0), Num(3.0), Num(2000.0)) == Active
    ensures SegmentOf(Num(1200.0), Num(2.0), Num(600.0)) == HighValueOccasional
    ensures SegmentOf(Num(300.0), Num(6.0), Num(50.0)) == Regular
    ensures SegmentOf(Num(100.0), Num(1.0), Num(100.0)) == Occasional
  {
  }

  /** The labels are pairwise different, so the label column determines the segment. */
  lemma {:induction false} LabelInjective(s: Segment, t: Segment)
    ensures Label(s) == Label(t) <==> s == t
  {
    if s != t {
      assert Label(s)[0] != Label(t)[0] || |Label(s)| != |Label(t)|;
    }
  }
}
