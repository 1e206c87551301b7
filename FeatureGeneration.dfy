/** `src/feature_generation/feature_engineering.py`: the four `engineer_*` functions that
    copy a raw frame, assign derived columns one after another and select the columns the
    feature store serves, `engineer_all_features` and `validate_engineered_features`. */
module FeatureGeneration {
  import opened Wrappers
  import opened Seqs
  import opened Cells
  import opened Columns
  import opened Frames
  import Bucketing

  type Frame = Table
  type Error = FrameError

  /** `frame[name] = pd.to_datetime(frame[name])`. A column without strings is left as it
      is, so converting it whatever its dtype and converting only an `object` column agree. */
  function Converted(t: Frame, name: Col, parse: string -> Cell): (r: Frame)
    requires WellFormed(t) && name in t.columns
    ensures WellFormed(r) && r.rows == t.rows && r.columns == t.columns
    ensures r.data[name] == Bucketing.ToDatetime(t.data[name], parse)
    ensures forall c :: c in t.data && c != name ==> r.data[c] == t.data[c]
  {
    WithColumnPlaces(t.columns, name);
    Assigned(t, name, Bucketing.ToDatetime(t.data[name], parse))
  }

  /** The conversion as the source writes it: only a column of strings is converted. */
  method ConvertDates(features: DataFrame, name: Col, parse: string -> Cell)
    requires features.Valid() && name in features.columns
    modifies features
    ensures features.Valid() && features.Snapshot() == Converted(old(features.Snapshot()), name, parse)
  {
    var dates := features.data[name];
    if Bucketing.IsObject(dates) {
      features.Assign(name, Bucketing.ToDatetime(dates, parse));
    } else {
      Bucketing.ToDatetimeKeepsTimestamps(dates, parse);
      AssignedSame(features.Snapshot(), name);
    }
  }

  /** `frame[name].astype(int)`, raising when a cell cannot be cast. */
  function CastColumn(col: seq<Cell>, name: Col): (r: Result<seq<Cell>, Error>)
    ensures r.Err? <==> Bucketing.AsIntColumn(col).None?
    ensures r.Err? ==> r.error == CannotCastToInt(name)
    ensures r.Ok? ==> r.value == Bucketing.AsIntColumn(col).value && |r.value| == |col|
  {
    match Bucketing.AsIntColumn(col)
    case None => Err(CannotCastToInt(name))
    case Some(v) => Ok(v)
  }

  /** Converting a column that is not listed keeps the frame in agreement with what it was. */
  lemma {:induction false} ConvertedOutside(t: Frame, name: Col, parse: string -> Cell, names: seq<Col>)
    requires WellFormed(t) && name in t.columns && name !in names
    ensures AgreeOn(Converted(t, name, parse), t, names)
  {
    AssignedOutside(t, name, Bucketing.ToDatetime(t.data[name], parse), names);
  }

  /** A step whose derived columns are all dropped again: the `KeyError` of the first
      absent column it reads, otherwise the served columns of the raw frame. */
  function ReadThenSelect(t: Frame, needed: seq<Col>, served: seq<Col>): (r: Result<Frame, Error>)
    requires WellFormed(t)
    ensures r.Ok? <==> (forall n :: n in needed ==> n in t.columns) && (forall n :: n in served ==> n in t.columns)
    ensures r.Err? ==>
      r.error.MissingColumn? && r.error.name !in t.columns && (r.error.name in needed || r.error.name in served)
    ensures r.Ok? ==>
      WellFormed(r.value) && r.value.columns == served && r.value.rows == t.rows &&
      forall c :: c in served ==> r.value.data[c] == t.data[c]
  {
    match FirstMissing(needed, t.columns)
    case Some(n) => Err(MissingColumn(n))
    case None => Selected(t, served)
  }

  // ---------------------------------------------------------------------------------
  // engineer_user_demographic_features

  /** The raw columns the demographic step reads, in the order it reads them. */
  const DemographicReads: seq<Col> := [RegistrationDate, Age, Location, Gender, IsPremium]

  /** The columns of the demographic feature frame, in order. */
  const DemographicColumns: seq<Col> :=
    [UserId, Age, Gender, Location, RegistrationDate, IsPremium, EventTimestamp]

  predicate DemographicReadsPresent(cols: seq<Col>) {
    RegistrationDate in cols && Age in cols && Location in cols && Gender in cols && IsPremium in cols
  }

  /** Lines 38-54: the age groups, the major-city flag, the gender code and the month and
      day of week of registration, on the copy whose dates are already converted. The
      tenure column of lines 33-36 needs the wall clock and is not part of this model. */
  function DemographicDerived(t: Frame): (r: Frame)
    requires WellFormed(t) && DemographicReadsPresent(t.columns)
    ensures WellFormed(r) && r.rows == t.rows
  {
    var t1 := Assigned(t, AgeGroup, Bucketing.CutColumn(t.data[Age], Bucketing.AgeGroups));
    var t2 := Assigned(t1, IsMajorCity, Bucketing.IsMajorCityColumn(t1.data[Location]));
    var t3 := Assigned(t2, GenderEncoded, Bucketing.EncodeColumn(t2.data[Gender], Bucketing.GenderCodes));
    var t4 := Assigned(t3, RegistrationMonth, Bucketing.MonthColumn(t3.data[RegistrationDate]));
    Assigned(t4, RegistrationDayOfWeek, Bucketing.DayOfWeekColumn(t4.data[RegistrationDate]))
  }

  /** Row `i` of the derived demographic columns: the age group of the row's age, whether
      its location is a major city, its gender code and the month and day of week of its
      (converted) registration date. */
  lemma {:induction false} DemographicDerivedCells(t: Frame, i: nat)
    requires WellFormed(t) && DemographicReadsPresent(t.columns) && i < t.rows
    ensures var r := DemographicDerived(t);
      r.data[AgeGroup][i] == Bucketing.CutCell(t.data[Age][i], Bucketing.AgeGroups) &&
      r.data[IsMajorCity][i] == Bucketing.IsMajorCity(t.data[Location][i]) &&
      r.data[GenderEncoded][i] == Bucketing.Encode(t.data[Gender][i], Bucketing.GenderCodes) &&
      r.data[RegistrationMonth][i] == Bucketing.MonthCell(t.data[RegistrationDate][i]) &&
      r.data[RegistrationDayOfWeek][i] == Bucketing.DayOfWeekCell(t.data[RegistrationDate][i])
  {
    var t1 := Assigned(t, AgeGroup, Bucketing.CutColumn(t.data[Age], Bucketing.AgeGroups));
    var t2 := Assigned(t1, IsMajorCity, Bucketing.IsMajorCityColumn(t1.data[Location]));
    var t3 := Assigned(t2, GenderEncoded, Bucketing.EncodeColumn(t2.data[Gender], Bucketing.GenderCodes));
    var t4 := Assigned(t3, RegistrationMonth, Bucketing.MonthColumn(t3.data[RegistrationDate]));
    var r := Assigned(t4, RegistrationDayOfWeek, Bucketing.DayOfWeekColumn(t4.data[RegistrationDate]));
    assert DemographicDerived(t) == r;
    AssignedKeeps(t, AgeGroup, t1.data[AgeGroup], Location);
    AssignedKeeps(t, AgeGroup, t1.data[AgeGroup], Gender);
    AssignedKeeps(t1, IsMajorCity, t2.data[IsMajorCity], Gender);
    AssignedKeeps(t, AgeGroup, t1.data[AgeGroup], RegistrationDate);
    AssignedKeeps(t1, IsMajorCity, t2.data[IsMajorCity], RegistrationDate);
    AssignedKeeps(t2, GenderEncoded, t3.data[GenderEncoded], RegistrationDate);
    AssignedKeeps(t3, RegistrationMonth, t4.data[RegistrationMonth], RegistrationDate);
    AssignedKeeps(t1, IsMajorCity, t2.data[IsMajorCity], AgeGroup);
    AssignedKeeps(t2, GenderEncoded, t3.data[GenderEncoded], AgeGroup);
    AssignedKeeps(t3, RegistrationMonth, t4.data[RegistrationMonth], AgeGroup);
    AssignedKeeps(t4, RegistrationDayOfWeek, r.data[RegistrationDayOfWeek], AgeGroup);
    AssignedKeeps(t2, GenderEncoded, t3.data[GenderEncoded], IsMajorCity);
    AssignedKeeps(t3, RegistrationMonth, t4.data[RegistrationMonth], IsMajorCity);
    AssignedKeeps(t4, RegistrationDayOfWeek, r.data[RegistrationDayOfWeek], IsMajorCity);
    AssignedKeeps(t3, RegistrationMonth, t4.data[RegistrationMonth], GenderEncoded);
    AssignedKeeps(t4, RegistrationDayOfWeek, r.data[RegistrationDayOfWeek], GenderEncoded);
    AssignedKeeps(t4, RegistrationDayOfWeek, r.data[RegistrationDayOfWeek], RegistrationMonth);
  }

  /** None of the derived columns is served, so deriving them leaves the served columns as
      they were: the selection of lines 60-63 drops them again. */
  lemma {:induction false} DemographicDerivedNotServed()
    ensures AgeGroup !in DemographicColumns && IsMajorCity !in DemographicColumns &&
      GenderEncoded !in DemographicColumns && RegistrationMonth !in DemographicColumns &&
      RegistrationDayOfWeek !in DemographicColumns
  {
  }


  lemma {:induction false} DemographicDerivedDropped(t: Frame, names: seq<Col>)
    requires WellFormed(t) && DemographicReadsPresent(t.columns)
    requires AgeGroup !in names && IsMajorCity !in names && GenderEncoded !in names
    requires RegistrationMonth !in names && RegistrationDayOfWeek !in names
    ensures AgreeOn(DemographicDerived(t), t, names)
  {
    var t1 := Assigned(t, AgeGroup, Bucketing.CutColumn(t.data[Age], Bucketing.AgeGroups));
    var t2 := Assigned(t1, IsMajorCity, Bucketing.IsMajorCityColumn(t1.data[Location]));
    var t3 := Assigned(t2, GenderEncoded, Bucketing.EncodeColumn(t2.data[Gender], Bucketing.GenderCodes));
    var t4 := Assigned(t3, RegistrationMonth, Bucketing.MonthColumn(t3.data[RegistrationDate]));
    var t5 := Assigned(t4, RegistrationDayOfWeek, Bucketing.DayOfWeekColumn(t4.data[RegistrationDate]));
    AssignedOutside(t, AgeGroup, t1.data[AgeGroup], names);
    AssignedOutside(t1, IsMajorCity, t2.data[IsMajorCity], names);
    AgreeOnTrans(t2, t1, t, names);
    AssignedOutside(t2, GenderEncoded, t3.data[GenderEncoded], names);
    AgreeOnTrans(t3, t2, t, names);
    AssignedOutside(t3, RegistrationMonth, t4.data[RegistrationMonth], names);
    AgreeOnTrans(t4, t3, t, names);
    AssignedOutside(t4, RegistrationDayOfWeek, t5.data[RegistrationDayOfWeek], names);
    AgreeOnTrans(t5, t4, t, names);
  }

  /** The demographic step on frame contents: the `KeyError` of the first absent column
      it reads, the conversion of the registration dates, the `is_premium` cast and the
      selection of the served columns. The derived columns do not reach the result
      (`DemographicDerivedDropped`), so they are not part of this description. */
  function DemographicFeatures(t: Frame, parse: string -> Cell): (r: Result<Frame, Error>)
    requires WellFormed(t)
    ensures r.Ok? ==> WellFormed(r.value) && r.value.columns == DemographicColumns && r.value.rows == t.rows
  {
    match FirstMissing(DemographicReads, t.columns)
    case Some(n) => Err(MissingColumn(n))
    case None =>
      match CastColumn(t.data[IsPremium], IsPremium)
      case Err(e) => Err(e)
      case Ok(cast) => Selected(DemographicServed(t, parse, cast), DemographicColumns)
  }

  /** The frame the demographic selection is taken from, without the derived columns:
      the raw columns with the registration dates converted and `is_premium` cast. */
  function DemographicServed(t: Frame, parse: string -> Cell, cast: seq<Cell>): (r: Frame)
    requires WellFormed(t) && DemographicReadsPresent(t.columns) && |cast| == t.rows
    ensures WellFormed(r) && r.columns == t.columns && r.rows == t.rows
  {
    WithColumnPlaces(t.columns, IsPremium);
    Assigned(Converted(t, RegistrationDate, parse), IsPremium, cast)
  }

  /** The served frame holds the converted registration dates, the cast `is_premium` and
      every other raw column as it was. */
  lemma {:induction false} DemographicServedData(t: Frame, parse: string -> Cell, cast: seq<Cell>)
    requires WellFormed(t) && DemographicReadsPresent(t.columns) && |cast| == t.rows
    ensures var r := DemographicServed(t, parse, cast);
      r.data[RegistrationDate] == Bucketing.ToDatetime(t.data[RegistrationDate], parse) &&
      r.data[IsPremium] == cast &&
      forall c :: c in t.data && c != RegistrationDate && c != IsPremium ==> r.data[c] == t.data[c]
  {
    var u := Converted(t, RegistrationDate, parse);
    assert DemographicServed(t, parse, cast) == Assigned(u, IsPremium, cast);
  }

  /** Lines 38-54 carried out on the working copy. */
  method DeriveDemographic(features: DataFrame)
    requires features.Valid() && DemographicReadsPresent(features.columns)
    modifies features
    ensures features.Valid() && features.Snapshot() == DemographicDerived(old(features.Snapshot()))
  {
    features.Assign(AgeGroup, Bucketing.CutColumn(features.data[Age], Bucketing.AgeGroups));
    features.Assign(IsMajorCity, Bucketing.IsMajorCityColumn(features.data[Location]));
    features.Assign(GenderEncoded, Bucketing.EncodeColumn(features.data[Gender], Bucketing.GenderCodes));
    features.Assign(RegistrationMonth, Bucketing.MonthColumn(features.data[RegistrationDate]));
    features.Assign(RegistrationDayOfWeek, Bucketing.DayOfWeekColumn(features.data[RegistrationDate]));
  }

  /** `engineer_user_demographic_features(users_df)`: works on a copy, so the input frame
      is left as it was (the method modifies nothing that exists before the call). */
  method EngineerUserDemographicFeatures(users: DataFrame, parse: string -> Cell)
    returns (r: Result<DataFrame, Error>)
    requires users.Valid()
    ensures r.Ok? ==> fresh(r.value) && r.value.Valid()
    ensures Contents(r) == DemographicFeatures(old(users.Snapshot()), parse)
  {
    var features := users.Copy();
    ghost var raw := features.Snapshot();
    var missing := FirstMissing(DemographicReads, features.columns);
    if missing.Some? {
      return Err(MissingColumn(missing.value));
    }
    ConvertDates(features, RegistrationDate, parse);
    ghost var converted := features.Snapshot();
    DeriveDemographic(features);
    DemographicDerivedNotServed();
    DemographicDerivedDropped(converted, DemographicColumns);
    assert IsPremium in DemographicColumns;
    assert features.data[IsPremium] == raw.data[IsPremium];
    var cast := CastColumn(features.data[IsPremium], IsPremium);
    if cast.Err? {
      return Err(cast.error);
    }
    ghost var derived := features.Snapshot();
    features.Assign(IsPremium, cast.value);
    AssignedAgree(derived, converted, IsPremium, cast.value, DemographicColumns);
    SelectedAgree(features.Snapshot(), Assigned(converted, IsPremium, cast.value), DemographicColumns);
    assert Assigned(converted, IsPremium, cast.value) == DemographicServed(raw, parse, cast.value);
    r := features.Select(DemographicColumns);
  }

  /** The reads are checked up front: none is missing exactly when all five are present. */
  lemma {:induction false} DemographicReadsChecked(cols: seq<Col>)
    ensures FirstMissing(DemographicReads, cols).None? <==> DemographicReadsPresent(cols)
  {
    var needed := DemographicReads;
    assert forall n :: n in needed ==> n == RegistrationDate || n == Age || n == Location || n == Gender || n == IsPremium;
  }

  /** The served columns are all present exactly when the reads and the two keys are. */
  lemma {:induction false} DemographicServedChecked(cols: seq<Col>)
    ensures (forall n :: n in DemographicColumns ==> n in cols) <==>
      DemographicReadsPresent(cols) && UserId in cols && EventTimestamp in cols
  {
    var names := DemographicColumns;
    assert UserId in names && Age in names && Gender in names && Location in names;
    assert RegistrationDate in names && IsPremium in names && EventTimestamp in names;
  }

  /** The demographic step succeeds exactly when every column it reads or serves is
      present and `is_premium` can be cast to integers. */
  lemma {:induction false} DemographicSucceeds(t: Frame, parse: string -> Cell)
    requires WellFormed(t)
    ensures DemographicFeatures(t, parse).Ok? <==>
      DemographicReadsPresent(t.columns) && UserId in t.columns && EventTimestamp in t.columns &&
      Bucketing.AsIntColumn(t.data[IsPremium]).Some?
  {
    DemographicReadsChecked(t.columns);
    if !DemographicReadsPresent(t.columns) {
      assert DemographicFeatures(t, parse).Err?;
    } else if Bucketing.AsIntColumn(t.data[IsPremium]).None? {
      assert DemographicFeatures(t, parse).Err?;
    } else {
      var cast := Bucketing.AsIntColumn(t.data[IsPremium]).value;
      var u := DemographicServed(t, parse, cast);
      assert DemographicFeatures(t, parse) == Selected(u, DemographicColumns);
      DemographicServedChecked(u.columns);
    }
  }

  /** The demographic frame as a selection from the served frame. */
  lemma {:induction false} DemographicSelected(t: Frame, parse: string -> Cell)
    requires WellFormed(t) && DemographicFeatures(t, parse).Ok?
    ensures DemographicReadsPresent(t.columns) && Bucketing.AsIntColumn(t.data[IsPremium]).Some?
    ensures DemographicFeatures(t, parse) ==
      Selected(DemographicServed(t, parse, Bucketing.AsIntColumn(t.data[IsPremium]).value), DemographicColumns)
  {
    DemographicReadsChecked(t.columns);
  }

  /** The keys, age, gender and location reach the demographic frame unchanged. */
  lemma {:induction false} DemographicKept(t: Frame, parse: string -> Cell)
    requires WellFormed(t) && DemographicFeatures(t, parse).Ok?
    ensures var r := DemographicFeatures(t, parse).value;
      r.data[UserId] == t.data[UserId] && r.data[Age] == t.data[Age] &&
      r.data[Gender] == t.data[Gender] && r.data[Location] == t.data[Location] &&
      r.data[EventTimestamp] == t.data[EventTimestamp]
  {
    var names := DemographicColumns;
    assert UserId in names && Age in names && Gender in names && Location in names && EventTimestamp in names;
    DemographicColumnKept(t, parse, UserId);
    DemographicColumnKept(t, parse, Age);
    DemographicColumnKept(t, parse, Gender);
    DemographicColumnKept(t, parse, Location);
    DemographicColumnKept(t, parse, EventTimestamp);
  }

  lemma {:induction false} DemographicColumnKept(t: Frame, parse: string -> Cell, c: Col)
    requires WellFormed(t) && DemographicFeatures(t, parse).Ok?
    requires c in DemographicColumns && c != RegistrationDate && c != IsPremium
    ensures c in t.data && DemographicFeatures(t, parse).value.data[c] == t.data[c]
  {
    DemographicSelected(t, parse);
    DemographicServedData(t, parse, Bucketing.AsIntColumn(t.data[IsPremium]).value);
  }

  /** The registration dates reach the demographic frame converted and `is_premium` cast
      to integers. */
  lemma {:induction false} DemographicConvertedValues(t: Frame, parse: string -> Cell)
    requires WellFormed(t) && DemographicFeatures(t, parse).Ok?
    ensures var r := DemographicFeatures(t, parse).value;
      r.data[RegistrationDate] == Bucketing.ToDatetime(t.data[RegistrationDate], parse) &&
      r.data[IsPremium] == Bucketing.AsIntColumn(t.data[IsPremium]).value
  {
    DemographicSelected(t, parse);
    var cast := Bucketing.AsIntColumn(t.data[IsPremium]).value;
    DemographicServedData(t, parse, cast);
    var names := DemographicColumns;
    assert RegistrationDate in names && IsPremium in names;
  }

  /** What the demographic frame holds: the keys, age, gender and location as they were,
      the registration dates converted and `is_premium` cast to integers. */
  lemma {:induction false} DemographicValues(t: Frame, parse: string -> Cell)
    requires WellFormed(t) && DemographicFeatures(t, parse).Ok?
    ensures var r := DemographicFeatures(t, parse).value;
      r.data[UserId] == t.data[UserId] && r.data[Age] == t.data[Age] &&
      r.data[Gender] == t.data[Gender] && r.data[Location] == t.data[Location] &&
      r.data[EventTimestamp] == t.data[EventTimestamp] &&
      r.data[RegistrationDate] == Bucketing.ToDatetime(t.data[RegistrationDate], parse) &&
      r.data[IsPremium] == Bucketing.AsIntColumn(t.data[IsPremium]).value
  {
    DemographicKept(t, parse);
    DemographicConvertedValues(t, parse);
  }

  // ---------------------------------------------------------------------------------
  // engineer_user_behavior_features

  /** The raw columns the behaviour step reads, in the order it reads them. */
  const BehaviorReads: seq<Col> := [TotalSessions, AvgSessionDuration, EngagementScore, LastLoginDays, FavoriteCategory]

  /** The columns of the behaviour feature frame, in order. */
  const BehaviorColumns: seq<Col> :=
    [UserId, AvgSessionDuration, TotalSessions, FavoriteCategory, LastLoginDays, EngagementScore, EventTimestamp]

  predicate BehaviorReadsPresent(cols: seq<Col>) {
    TotalSessions in cols && AvgSessionDuration in cols && EngagementScore in cols &&
    LastLoginDays in cols && FavoriteCategory in cols
  }

  /** Lines 88-119: the session frequency, session duration, engagement level and activity
      recency buckets and the favourite-category code. */
  function BehaviorDerived(t: Frame): (r: Frame)
    requires WellFormed(t) && BehaviorReadsPresent(t.columns)
    ensures WellFormed(r) && r.rows == t.rows
  {
    var t1 := Assigned(t, SessionFrequency, Bucketing.CutColumn(t.data[TotalSessions], Bucketing.SessionFrequency));
    var t2 := Assigned(t1, SessionDurationCategory, Bucketing.CutColumn(t1.data[AvgSessionDuration], Bucketing.SessionDuration));
    var t3 := Assigned(t2, EngagementLevel, Bucketing.CutColumn(t2.data[EngagementScore], Bucketing.EngagementLevel));
    var t4 := Assigned(t3, ActivityRecency, Bucketing.CutColumn(t3.data[LastLoginDays], Bucketing.ActivityRecency));
    Assigned(t4, FavoriteCategoryEncoded, Bucketing.EncodeColumn(t4.data[FavoriteCategory], Bucketing.FavoriteCategoryCodes))
  }

  /** Row `i` of the derived behaviour columns: the session-frequency, session-duration,
      engagement and activity-recency labels of the row's values and its category code. */
  lemma {:induction false} BehaviorDerivedCells(t: Frame, i: nat)
    requires WellFormed(t) && BehaviorReadsPresent(t.columns) && i < t.rows
    ensures var r := BehaviorDerived(t);
      r.data[SessionFrequency][i] == Bucketing.CutCell(t.data[TotalSessions][i], Bucketing.SessionFrequency) &&
      r.data[SessionDurationCategory][i] == Bucketing.CutCell(t.data[AvgSessionDuration][i], Bucketing.SessionDuration) &&
      r.data[EngagementLevel][i] == Bucketing.CutCell(t.data[EngagementScore][i], Bucketing.EngagementLevel) &&
      r.data[ActivityRecency][i] == Bucketing.CutCell(t.data[LastLoginDays][i], Bucketing.ActivityRecency) &&
      r.data[FavoriteCategoryEncoded][i] == Bucketing.Encode(t.data[FavoriteCategory][i], Bucketing.FavoriteCategoryCodes)
  {
    var t0 := t;
    var t1 := Assigned(t0, SessionFrequency, Bucketing.CutColumn(t0.data[TotalSessions], Bucketing.SessionFrequency));
    var t2 := Assigned(t1, SessionDurationCategory, Bucketing.CutColumn(t1.data[AvgSessionDuration], Bucketing.SessionDuration));
    var t3 := Assigned(t2, EngagementLevel, Bucketing.CutColumn(t2.data[EngagementScore], Bucketing.EngagementLevel));
    var t4 := Assigned(t3, ActivityRecency, Bucketing.CutColumn(t3.data[LastLoginDays], Bucketing.ActivityRecency));
    var t5 := Assigned(t4, FavoriteCategoryEncoded, Bucketing.EncodeColumn(t4.data[FavoriteCategory], Bucketing.FavoriteCategoryCodes));
    assert BehaviorDerived(t) == t5;
    AssignedKeeps(t0, SessionFrequency, t1.data[SessionFrequency], AvgSessionDuration);
    AssignedKeeps(t0, SessionFrequency, t1.data[SessionFrequency], EngagementScore);
    AssignedKeeps(t1, SessionDurationCategory, t2.data[SessionDurationCategory], EngagementScore);
    AssignedKeeps(t0, SessionFrequency, t1.data[SessionFrequency], LastLoginDays);
    AssignedKeeps(t1, SessionDurationCategory, t2.data[SessionDurationCategory], LastLoginDays);
    AssignedKeeps(t2, EngagementLevel, t3.data[EngagementLevel], LastLoginDays);
    AssignedKeeps(t0, SessionFrequency, t1.data[SessionFrequency], FavoriteCategory);
    AssignedKeeps(t1, SessionDurationCategory, t2.data[SessionDurationCategory], FavoriteCategory);
    AssignedKeeps(t2, EngagementLevel, t3.data[EngagementLevel], FavoriteCategory);
    AssignedKeeps(t3, ActivityRecency, t4.data[ActivityRecency], FavoriteCategory);
    AssignedKeeps(t1, SessionDurationCategory, t2.data[SessionDurationCategory], SessionFrequency);
    AssignedKeeps(t2, EngagementLevel, t3.data[EngagementLevel], SessionFrequency);
    AssignedKeeps(t3, ActivityRecency, t4.data[ActivityRecency], SessionFrequency);
    AssignedKeeps(t4, FavoriteCategoryEncoded, t5.data[FavoriteCategoryEncoded], SessionFrequency);
    AssignedKeeps(t2, EngagementLevel, t3.data[EngagementLevel], SessionDurationCategory);
    AssignedKeeps(t3, ActivityRecency, t4.data[ActivityRecency], SessionDurationCategory);
    AssignedKeeps(t4, FavoriteCategoryEncoded, t5.data[FavoriteCategoryEncoded], SessionDurationCategory);
    AssignedKeeps(t3, ActivityRecency, t4.data[ActivityRecency], EngagementLevel);
    AssignedKeeps(t4, FavoriteCategoryEncoded, t5.data[FavoriteCategoryEncoded], EngagementLevel);
    AssignedKeeps(t4, FavoriteCategoryEncoded, t5.data[FavoriteCategoryEncoded], ActivityRecency);
  }

  /** Neither the converted session dates nor any derived column is served. */
  lemma {:induction false} BehaviorDerivedNotServed()
    ensures LastSessionDate !in BehaviorColumns
    ensures SessionFrequency !in BehaviorColumns && SessionDurationCategory !in BehaviorColumns &&
      EngagementLevel !in BehaviorColumns && ActivityRecency !in BehaviorColumns &&
      FavoriteCategoryEncoded !in BehaviorColumns
  {
  }

  lemma {:induction false} BehaviorDerivedDropped(t: Frame, names: seq<Col>)
    requires WellFormed(t) && BehaviorReadsPresent(t.columns)
    requires SessionFrequency !in names && SessionDurationCategory !in names && EngagementLevel !in names
    requires ActivityRecency !in names && FavoriteCategoryEncoded !in names
    ensures AgreeOn(BehaviorDerived(t), t, names)
  {
    var t1 := Assigned(t, SessionFrequency, Bucketing.CutColumn(t.data[TotalSessions], Bucketing.SessionFrequency));
    var t2 := Assigned(t1, SessionDurationCategory, Bucketing.CutColumn(t1.data[AvgSessionDuration], Bucketing.SessionDuration));
    var t3 := Assigned(t2, EngagementLevel, Bucketing.CutColumn(t2.data[EngagementScore], Bucketing.EngagementLevel));
    var t4 := Assigned(t3, ActivityRecency, Bucketing.CutColumn(t3.data[LastLoginDays], Bucketing.ActivityRecency));
    var t5 := Assigned(t4, FavoriteCategoryEncoded, Bucketing.EncodeColumn(t4.data[FavoriteCategory], Bucketing.FavoriteCategoryCodes));
    AssignedOutside(t, SessionFrequency, t1.data[SessionFrequency], names);
    AssignedOutside(t1, SessionDurationCategory, t2.data[SessionDurationCategory], names);
    AgreeOnTrans(t2, t1, t, names);
    AssignedOutside(t2, EngagementLevel, t3.data[EngagementLevel], names);
    AgreeOnTrans(t3, t2, t, names);
    AssignedOutside(t3, ActivityRecency, t4.data[ActivityRecency], names);
    AgreeOnTrans(t4, t3, t, names);
    AssignedOutside(t4, FavoriteCategoryEncoded, t5.data[FavoriteCategoryEncoded], names);
    AgreeOnTrans(t5, t4, t, names);
  }

  /** The behaviour step on frame contents: the served columns are the raw ones. */
  function BehaviorFeatures(t: Frame): (r: Result<Frame, Error>)
    requires WellFormed(t)
  {
    ReadThenSelect(t, BehaviorReads, BehaviorColumns)
  }

  /** Lines 88-119 carried out on the working copy. */
  method DeriveBehavior(features: DataFrame)
    requires features.Valid() && BehaviorReadsPresent(features.columns)
    modifies features
    ensures features.Valid() && features.Snapshot() == BehaviorDerived(old(features.Snapshot()))
  {
    features.Assign(SessionFrequency, Bucketing.CutColumn(features.data[TotalSessions], Bucketing.SessionFrequency));
    features.Assign(SessionDurationCategory, Bucketing.CutColumn(features.data[AvgSessionDuration], Bucketing.SessionDuration));
    features.Assign(EngagementLevel, Bucketing.CutColumn(features.data[EngagementScore], Bucketing.EngagementLevel));
    features.Assign(ActivityRecency, Bucketing.CutColumn(features.data[LastLoginDays], Bucketing.ActivityRecency));
    features.Assign(FavoriteCategoryEncoded, Bucketing.EncodeColumn(features.data[FavoriteCategory], Bucketing.FavoriteCategoryCodes));
  }

  /** The reads are checked up front: none is missing exactly when all five are present. */
  lemma {:induction false} BehaviorReadsChecked(cols: seq<Col>)
    ensures FirstMissing(BehaviorReads, cols).None? <==> BehaviorReadsPresent(cols)
  {
    var needed := BehaviorReads;
    assert forall n :: n in needed ==> n == TotalSessions || n == AvgSessionDuration || n == EngagementScore || n == LastLoginDays || n == FavoriteCategory;
  }

  /** `engineer_user_behavior_features(behavior_df)`: works on a copy and converts the
      session dates only when that column is there. */
  method EngineerUserBehaviorFeatures(behavior: DataFrame, parse: string -> Cell)
    returns (r: Result<DataFrame, Error>)
    requires behavior.Valid()
    ensures r.Ok? ==> fresh(r.value) && r.value.Valid()
    ensures Contents(r) == BehaviorFeatures(old(behavior.Snapshot()))
  {
    var features := behavior.Copy();
    ghost var raw := features.Snapshot();
    var missing := FirstMissing(BehaviorReads, features.columns);
    if missing.Some? {
      return Err(MissingColumn(missing.value));
    }
    BehaviorReadsChecked(features.columns);
    BehaviorDerivedNotServed();
    if LastSessionDate in features.columns {
      ConvertDates(features, LastSessionDate, parse);
      ConvertedOutside(raw, LastSessionDate, parse, BehaviorColumns);
    }
    ghost var converted := features.Snapshot();
    DeriveBehavior(features);
    BehaviorDerivedDropped(converted, BehaviorColumns);
    AgreeOnTrans(features.Snapshot(), converted, raw, BehaviorColumns);
    SelectedAgree(features.Snapshot(), raw, BehaviorColumns);
    r := features.Select(BehaviorColumns);
  }

  /** Every column the behaviour step reads is also served, so it succeeds exactly when
      those five and the two keys are present. */
  lemma {:induction false} BehaviorSucceeds(t: Frame)
    requires WellFormed(t)
    ensures BehaviorFeatures(t).Ok? <==>
      BehaviorReadsPresent(t.columns) && UserId in t.columns && EventTimestamp in t.columns
  {
    BehaviorReadsChecked(t.columns);
    var names := BehaviorColumns;
    assert UserId in names && AvgSessionDuration in names && TotalSessions in names && FavoriteCategory in names;
    assert LastLoginDays in names && EngagementScore in names && EventTimestamp in names;
  }

  // ---------------------------------------------------------------------------------
  // engineer_transaction_features

  /** The raw columns the transaction step reads, in the order it reads them. */
  const TransactionReads: seq<Col> := [TotalSpent, TotalOrders, LastPurchaseDays, FavoritePaymentMethod]

  /** The columns of the transaction feature frame, in order. */
  const TransactionColumns: seq<Col> :=
    [UserId, TotalSpent, AvgOrderValue, TotalOrders, LastPurchaseDays, FavoritePaymentMethod, EventTimestamp]

  predicate TransactionReadsPresent(cols: seq<Col>) {
    TotalSpent in cols && TotalOrders in cols && LastPurchaseDays in cols && FavoritePaymentMethod in cols
  }

  /** Lines 151-183: the spending, order-frequency and purchase-recency buckets, the
      payment-method code, the lifetime-value estimate and its customer-value bucket. */
  function TransactionDerived(t: Frame): (r: Frame)
    requires WellFormed(t) && TransactionReadsPresent(t.columns)
    ensures WellFormed(r) && r.rows == t.rows
  {
    var t1 := Assigned(t, SpendingLevel, Bucketing.CutColumn(t.data[TotalSpent], Bucketing.SpendingLevel));
    var t2 := Assigned(t1, OrderFrequency, Bucketing.CutColumn(t1.data[TotalOrders], Bucketing.OrderFrequency));
    var t3 := Assigned(t2, PurchaseRecency, Bucketing.CutColumn(t2.data[LastPurchaseDays], Bucketing.PurchaseRecency));
    var t4 := Assigned(t3, PaymentMethodEncoded, Bucketing.EncodeColumn(t3.data[FavoritePaymentMethod], Bucketing.PaymentCodes));
    var t5 := Assigned(t4, ClvEstimate, Bucketing.ClvColumn(t4.data[TotalSpent], t4.data[TotalOrders]));
    Assigned(t5, CustomerValue, Bucketing.CutColumn(t5.data[ClvEstimate], Bucketing.CustomerValue))
  }

  /** Row `i` of the derived transaction columns: the spending, order-frequency and
      purchase-recency labels, the payment code, the lifetime-value estimate of the row's
      amount and orders, and the customer-value label of that estimate. */
  lemma {:induction false} TransactionDerivedCells(t: Frame, i: nat)
    requires WellFormed(t) && TransactionReadsPresent(t.columns) && i < t.rows
    ensures var r := TransactionDerived(t);
      var clv := Bucketing.ClvCell(t.data[TotalSpent][i], t.data[TotalOrders][i]);
      r.data[SpendingLevel][i] == Bucketing.CutCell(t.data[TotalSpent][i], Bucketing.SpendingLevel) &&
      r.data[OrderFrequency][i] == Bucketing.CutCell(t.data[TotalOrders][i], Bucketing.OrderFrequency) &&
      r.data[PurchaseRecency][i] == Bucketing.CutCell(t.data[LastPurchaseDays][i], Bucketing.PurchaseRecency) &&
      r.data[PaymentMethodEncoded][i] == Bucketing.Encode(t.data[FavoritePaymentMethod][i], Bucketing.PaymentCodes) &&
      r.data[ClvEstimate][i] == clv &&
      r.data[CustomerValue][i] == Bucketing.CutCell(clv, Bucketing.CustomerValue)
  {
    var t0 := t;
    var t1 := Assigned(t0, SpendingLevel, Bucketing.CutColumn(t0.data[TotalSpent], Bucketing.SpendingLevel));
    var t2 := Assigned(t1, OrderFrequency, Bucketing.CutColumn(t1.data[TotalOrders], Bucketing.OrderFrequency));
    var t3 := Assigned(t2, PurchaseRecency, Bucketing.CutColumn(t2.data[LastPurchaseDays], Bucketing.PurchaseRecency));
    var t4 := Assigned(t3, PaymentMethodEncoded, Bucketing.EncodeColumn(t3.data[FavoritePaymentMethod], Bucketing.PaymentCodes));
    var t5 := Assigned(t4, ClvEstimate, Bucketing.ClvColumn(t4.data[TotalSpent], t4.data[TotalOrders]));
    var t6 := Assigned(t5, CustomerValue, Bucketing.CutColumn(t5.data[ClvEstimate], Bucketing.CustomerValue));
    assert TransactionDerived(t) == t6;
    AssignedKeeps(t0, SpendingLevel, t1.data[SpendingLevel], TotalOrders);
    AssignedKeeps(t0, SpendingLevel, t1.data[SpendingLevel], LastPurchaseDays);
    AssignedKeeps(t1, OrderFrequency, t2.data[OrderFrequency], LastPurchaseDays);
    AssignedKeeps(t0, SpendingLevel, t1.data[SpendingLevel], FavoritePaymentMethod);
    AssignedKeeps(t1, OrderFrequency, t2.data[OrderFrequency], FavoritePaymentMethod);
    AssignedKeeps(t2, PurchaseRecency, t3.data[PurchaseRecency], FavoritePaymentMethod);
    AssignedKeeps(t0, SpendingLevel, t1.data[SpendingLevel], TotalSpent);
    AssignedKeeps(t1, OrderFrequency, t2.data[OrderFrequency], TotalSpent);
    AssignedKeeps(t2, PurchaseRecency, t3.data[PurchaseRecency], TotalSpent);
    AssignedKeeps(t3, PaymentMethodEncoded, t4.data[PaymentMethodEncoded], TotalSpent);
    AssignedKeeps(t1, OrderFrequency, t2.data[OrderFrequency], TotalOrders);
    AssignedKeeps(t2, PurchaseRecency, t3.data[PurchaseRecency], TotalOrders);
    AssignedKeeps(t3, PaymentMethodEncoded, t4.data[PaymentMethodEncoded], TotalOrders);
    AssignedKeeps(t1, OrderFrequency, t2.data[OrderFrequency], SpendingLevel);
    AssignedKeeps(t2, PurchaseRecency, t3.data[PurchaseRecency], SpendingLevel);
    AssignedKeeps(t3, PaymentMethodEncoded, t4.data[PaymentMethodEncoded], SpendingLevel);
    AssignedKeeps(t4, ClvEstimate, t5.data[ClvEstimate], SpendingLevel);
    AssignedKeeps(t5, CustomerValue, t6.data[CustomerValue], SpendingLevel);
    AssignedKeeps(t2, PurchaseRecency, t3.data[PurchaseRecency], OrderFrequency);
    AssignedKeeps(t3, PaymentMethodEncoded, t4.data[PaymentMethodEncoded], OrderFrequency);
    AssignedKeeps(t4, ClvEstimate, t5.data[ClvEstimate], OrderFrequency);
    AssignedKeeps(t5, CustomerValue, t6.data[CustomerValue], OrderFrequency);
    AssignedKeeps(t3, PaymentMethodEncoded, t4.data[PaymentMethodEncoded], PurchaseRecency);
    AssignedKeeps(t4, ClvEstimate, t5.data[ClvEstimate], PurchaseRecency);
    AssignedKeeps(t5, CustomerValue, t6.data[CustomerValue], PurchaseRecency);
    AssignedKeeps(t4, ClvEstimate, t5.data[ClvEstimate], PaymentMethodEncoded);
    AssignedKeeps(t5, CustomerValue, t6.data[CustomerValue], PaymentMethodEncoded);
    AssignedKeeps(t5, CustomerValue, t6.data[CustomerValue], ClvEstimate);
  }

  /** Neither the converted purchase dates nor any derived column is served. */
  lemma {:induction false} TransactionDerivedNotServed()
    ensures LastPurchaseDate !in TransactionColumns
    ensures SpendingLevel !in TransactionColumns && OrderFrequency !in TransactionColumns &&
      PurchaseRecency !in TransactionColumns && PaymentMethodEncoded !in TransactionColumns &&
      ClvEstimate !in TransactionColumns && CustomerValue !in TransactionColumns
  {
  }

  lemma {:induction false} TransactionDerivedDropped(t: Frame, names: seq<Col>)
    requires WellFormed(t) && TransactionReadsPresent(t.columns)
    requires SpendingLevel !in names && OrderFrequency !in names && PurchaseRecency !in names
    requires PaymentMethodEncoded !in names && ClvEstimate !in names && CustomerValue !in names
    ensures AgreeOn(TransactionDerived(t), t, names)
  {
    var t1 := Assigned(t, SpendingLevel, Bucketing.CutColumn(t.data[TotalSpent], Bucketing.SpendingLevel));
    var t2 := Assigned(t1, OrderFrequency, Bucketing.CutColumn(t1.data[TotalOrders], Bucketing.OrderFrequency));
    var t3 := Assigned(t2, PurchaseRecency, Bucketing.CutColumn(t2.data[LastPurchaseDays], Bucketing.PurchaseRecency));
    var t4 := Assigned(t3, PaymentMethodEncoded, Bucketing.EncodeColumn(t3.data[FavoritePaymentMethod], Bucketing.PaymentCodes));
    var t5 := Assigned(t4, ClvEstimate, Bucketing.ClvColumn(t4.data[TotalSpent], t4.data[TotalOrders]));
    var t6 := Assigned(t5, CustomerValue, Bucketing.CutColumn(t5.data[ClvEstimate], Bucketing.CustomerValue));
    AssignedOutside(t, SpendingLevel, t1.data[SpendingLevel], names);
    AssignedOutside(t1, OrderFrequency, t2.data[OrderFrequency], names);
    AgreeOnTrans(t2, t1, t, names);
    AssignedOutside(t2, PurchaseRecency, t3.data[PurchaseRecency], names);
    AgreeOnTrans(t3, t2, t, names);
    AssignedOutside(t3, PaymentMethodEncoded, t4.data[PaymentMethodEncoded], names);
    AgreeOnTrans(t4, t3, t, names);
    AssignedOutside(t4, ClvEstimate, t5.data[ClvEstimate], names);
    AgreeOnTrans(t5, t4, t, names);
    AssignedOutside(t5, CustomerValue, t6.data[CustomerValue], names);
    AgreeOnTrans(t6, t5, t, names);
  }

  /** The transaction step on frame contents: the served columns are the raw ones. */
  function TransactionFeatures(t: Frame): (r: Result<Frame, Error>)
    requires WellFormed(t)
  {
    ReadThenSelect(t, TransactionReads, TransactionColumns)
  }

  /** Lines 151-183 carried out on the working copy. */
  method DeriveTransaction(features: DataFrame)
    requires features.Valid() && TransactionReadsPresent(features.columns)
    modifies features
    ensures features.Valid() && features.Snapshot() == TransactionDerived(old(features.Snapshot()))
  {
    features.Assign(SpendingLevel, Bucketing.CutColumn(features.data[TotalSpent], Bucketing.SpendingLevel));
    features.Assign(OrderFrequency, Bucketing.CutColumn(features.data[TotalOrders], Bucketing.OrderFrequency));
    features.Assign(PurchaseRecency, Bucketing.CutColumn(features.data[LastPurchaseDays], Bucketing.PurchaseRecency));
    features.Assign(PaymentMethodEncoded, Bucketing.EncodeColumn(features.data[FavoritePaymentMethod], Bucketing.PaymentCodes));
    features.Assign(ClvEstimate, Bucketing.ClvColumn(features.data[TotalSpent], features.data[TotalOrders]));
    features.Assign(CustomerValue, Bucketing.CutColumn(features.data[ClvEstimate], Bucketing.CustomerValue));
  }

  /** The reads are checked up front: none is missing exactly when all four are present. */
  lemma {:induction false} TransactionReadsChecked(cols: seq<Col>)
    ensures FirstMissing(TransactionReads, cols).None? <==> TransactionReadsPresent(cols)
  {
    var needed := TransactionReads;
    assert forall n :: n in needed ==> n == TotalSpent || n == TotalOrders || n == LastPurchaseDays || n == FavoritePaymentMethod;
  }

  /** `engineer_transaction_features(transactions_df)`: works on a copy and converts the
      purchase dates only when that column is there. */
  method EngineerTransactionFeatures(transactions: DataFrame, parse: string -> Cell)
    returns (r: Result<DataFrame, Error>)
    requires transactions.Valid()
    ensures r.Ok? ==> fresh(r.value) && r.value.Valid()
    ensures Contents(r) == TransactionFeatures(old(transactions.Snapshot()))
  {
    var features := transactions.Copy();
    ghost var raw := features.Snapshot();
    var missing := FirstMissing(TransactionReads, features.columns);
    if missing.Some? {
      return Err(MissingColumn(missing.value));
    }
    TransactionReadsChecked(features.columns);
    TransactionDerivedNotServed();
    if LastPurchaseDate in features.columns {
      ConvertDates(features, LastPurchaseDate, parse);
      ConvertedOutside(raw, LastPurchaseDate, parse, TransactionColumns);
    }
    ghost var converted := features.Snapshot();
    DeriveTransaction(features);
    TransactionDerivedDropped(converted, TransactionColumns);
    AgreeOnTrans(features.Snapshot(), converted, raw, TransactionColumns);
    SelectedAgree(features.Snapshot(), raw, TransactionColumns);
    r := features.Select(TransactionColumns);
  }

  /** The transaction step serves `avg_order_value` without reading it, so it succeeds
      exactly when the four columns it reads, that one and the two keys are present. */
  lemma {:induction false} TransactionSucceeds(t: Frame)
    requires WellFormed(t)
    ensures TransactionFeatures(t).Ok? <==>
      TransactionReadsPresent(t.columns) && AvgOrderValue in t.columns &&
      UserId in t.columns && EventTimestamp in t.columns
  {
    TransactionReadsChecked(t.columns);
    var names := TransactionColumns;
    assert UserId in names && TotalSpent in names && AvgOrderValue in names && TotalOrders in names;
    assert LastPurchaseDays in names && FavoritePaymentMethod in names && EventTimestamp in names;
  }

  // ---------------------------------------------------------------------------------
  // engineer_product_features

  /** The raw columns the product step reads, in the order it reads them. */
  const ProductReads: seq<Col> := [Price, AvgRating, TotalReviews, InventoryLevel, Category]

  /** The columns of the product feature frame, in order. */
  const ProductColumns: seq<Col> :=
    [ProductId, Category, Price, AvgRating, TotalReviews, InventoryLevel, EventTimestamp]

  predicate ProductReadsPresent(cols: seq<Col>) {
    Price in cols && AvgRating in cols && TotalReviews in cols && InventoryLevel in cols && Category in cols
  }

  /** Lines 213-243: the price, rating, review-volume and inventory buckets and the
      category code. */
  function ProductDerived(t: Frame): (r: Frame)
    requires WellFormed(t) && ProductReadsPresent(t.columns)
    ensures WellFormed(r) && r.rows == t.rows
  {
    var t1 := Assigned(t, PriceCategory, Bucketing.CutColumn(t.data[Price], Bucketing.PriceCategory));
    var t2 := Assigned(t1, RatingCategory, Bucketing.CutColumn(t1.data[AvgRating], Bucketing.RatingCategory));
    var t3 := Assigned(t2, ReviewVolume, Bucketing.CutColumn(t2.data[TotalReviews], Bucketing.ReviewVolume));
    var t4 := Assigned(t3, InventoryStatus, Bucketing.CutColumn(t3.data[InventoryLevel], Bucketing.InventoryStatus));
    Assigned(t4, CategoryEncoded, Bucketing.EncodeColumn(t4.data[Category], Bucketing.ProductCategoryCodes))
  }

  /** Row `i` of the derived product columns: the price, rating, review-volume and
      inventory labels of the row's values and its category code. */
  lemma {:induction false} ProductDerivedCells(t: Frame, i: nat)
    requires WellFormed(t) && ProductReadsPresent(t.columns) && i < t.rows
    ensures var r := ProductDerived(t);
      r.data[PriceCategory][i] == Bucketing.CutCell(t.data[Price][i], Bucketing.PriceCategory) &&
      r.data[RatingCategory][i] == Bucketing.CutCell(t.data[AvgRating][i], Bucketing.RatingCategory) &&
      r.data[ReviewVolume][i] == Bucketing.CutCell(t.data[TotalReviews][i], Bucketing.ReviewVolume) &&
      r.data[InventoryStatus][i] == Bucketing.CutCell(t.data[InventoryLevel][i], Bucketing.InventoryStatus) &&
      r.data[CategoryEncoded][i] == Bucketing.Encode(t.data[Category][i], Bucketing.ProductCategoryCodes)
  {
    var t0 := t;
    var t1 := Assigned(t0, PriceCategory, Bucketing.CutColumn(t0.data[Price], Bucketing.PriceCategory));
    var t2 := Assigned(t1, RatingCategory, Bucketing.CutColumn(t1.data[AvgRating], Bucketing.RatingCategory));
    var t3 := Assigned(t2, ReviewVolume, Bucketing.CutColumn(t2.data[TotalReviews], Bucketing.ReviewVolume));
    var t4 := Assigned(t3, InventoryStatus, Bucketing.CutColumn(t3.data[InventoryLevel], Bucketing.InventoryStatus));
    var t5 := Assigned(t4, CategoryEncoded, Bucketing.EncodeColumn(t4.data[Category], Bucketing.ProductCategoryCodes));
    assert ProductDerived(t) == t5;
    AssignedKeeps(t0, PriceCategory, t1.data[PriceCategory], AvgRating);
    AssignedKeeps(t0, PriceCategory, t1.data[PriceCategory], TotalReviews);
    AssignedKeeps(t1, RatingCategory, t2.data[RatingCategory], TotalReviews);
    AssignedKeeps(t0, PriceCategory, t1.data[PriceCategory], InventoryLevel);
    AssignedKeeps(t1, RatingCategory, t2.data[RatingCategory], InventoryLevel);
    AssignedKeeps(t2, ReviewVolume, t3.data[ReviewVolume], InventoryLevel);
    AssignedKeeps(t0, PriceCategory, t1.data[PriceCategory], Category);
    AssignedKeeps(t1, RatingCategory, t2.data[RatingCategory], Category);
    AssignedKeeps(t2, ReviewVolume, t3.data[ReviewVolume], Category);
    AssignedKeeps(t3, InventoryStatus, t4.data[InventoryStatus], Category);
    AssignedKeeps(t1, RatingCategory, t2.data[RatingCategory], PriceCategory);
    AssignedKeeps(t2, ReviewVolume, t3.data[ReviewVolume], PriceCategory);
    AssignedKeeps(t3, InventoryStatus, t4.data[InventoryStatus], PriceCategory);
    AssignedKeeps(t4, CategoryEncoded, t5.data[CategoryEncoded], PriceCategory);
    AssignedKeeps(t2, ReviewVolume, t3.data[ReviewVolume], RatingCategory);
    AssignedKeeps(t3, InventoryStatus, t4.data[InventoryStatus], RatingCategory);
    AssignedKeeps(t4, CategoryEncoded, t5.data[CategoryEncoded], RatingCategory);
    AssignedKeeps(t3, InventoryStatus, t4.data[InventoryStatus], ReviewVolume);
    AssignedKeeps(t4, CategoryEncoded, t5.data[CategoryEncoded], ReviewVolume);
    AssignedKeeps(t4, CategoryEncoded, t5.data[CategoryEncoded], InventoryStatus);
  }

  /** No derived column is served. */
  lemma {:induction false} ProductDerivedNotServed()
    ensures PriceCategory !in ProductColumns && RatingCategory !in ProductColumns &&
      ReviewVolume !in ProductColumns && InventoryStatus !in ProductColumns &&
      CategoryEncoded !in ProductColumns
  {
  }

  lemma {:induction false} ProductDerivedDropped(t: Frame, names: seq<Col>)
    requires WellFormed(t) && ProductReadsPresent(t.columns)
    requires PriceCategory !in names && RatingCategory !in names && ReviewVolume !in names
    requires InventoryStatus !in names && CategoryEncoded !in names
    ensures AgreeOn(ProductDerived(t), t, names)
  {
    var t1 := Assigned(t, PriceCategory, Bucketing.CutColumn(t.data[Price], Bucketing.PriceCategory));
    var t2 := Assigned(t1, RatingCategory, Bucketing.CutColumn(t1.data[AvgRating], Bucketing.RatingCategory));
    var t3 := Assigned(t2, ReviewVolume, Bucketing.CutColumn(t2.data[TotalReviews], Bucketing.ReviewVolume));
    var t4 := Assigned(t3, InventoryStatus, Bucketing.CutColumn(t3.data[InventoryLevel], Bucketing.InventoryStatus));
    var t5 := Assigned(t4, CategoryEncoded, Bucketing.EncodeColumn(t4.data[Category], Bucketing.ProductCategoryCodes));
    AssignedOutside(t, PriceCategory, t1.data[PriceCategory], names);
    AssignedOutside(t1, RatingCategory, t2.data[RatingCategory], names);
    AgreeOnTrans(t2, t1, t, names);
    AssignedOutside(t2, ReviewVolume, t3.data[ReviewVolume], names);
    AgreeOnTrans(t3, t2, t, names);
    AssignedOutside(t3, InventoryStatus, t4.data[InventoryStatus], names);
    AgreeOnTrans(t4, t3, t, names);
    AssignedOutside(t4, CategoryEncoded, t5.data[CategoryEncoded], names);
    AgreeOnTrans(t5, t4, t, names);
  }

  /** The product step on frame contents: the served columns are the raw ones. */
  function ProductFeatures(t: Frame): (r: Result<Frame, Error>)
    requires WellFormed(t)
  {
    ReadThenSelect(t, ProductReads, ProductColumns)
  }

  /** Lines 213-243 carried out on the working copy. */
  method DeriveProduct(features: DataFrame)
    requires features.Valid() && ProductReadsPresent(features.columns)
    modifies features
    ensures features.Valid() && features.Snapshot() == ProductDerived(old(features.Snapshot()))
  {
    features.Assign(PriceCategory, Bucketing.CutColumn(features.data[Price], Bucketing.PriceCategory));
    features.Assign(RatingCategory, Bucketing.CutColumn(features.data[AvgRating], Bucketing.RatingCategory));
    features.Assign(ReviewVolume, Bucketing.CutColumn(features.data[TotalReviews], Bucketing.ReviewVolume));
    features.Assign(InventoryStatus, Bucketing.CutColumn(features.data[InventoryLevel], Bucketing.InventoryStatus));
    features.Assign(CategoryEncoded, Bucketing.EncodeColumn(features.data[Category], Bucketing.ProductCategoryCodes));
  }

  /** The reads are checked up front: none is missing exactly when all five are present. */
  lemma {:induction false} ProductReadsChecked(cols: seq<Col>)
    ensures FirstMissing(ProductReads, cols).None? <==> ProductReadsPresent(cols)
  {
    var needed := ProductReads;
    assert forall n :: n in needed ==> n == Price || n == AvgRating || n == TotalReviews || n == InventoryLevel || n == Category;
  }

  /** `engineer_product_features(products_df)`: works on a copy. */
  method EngineerProductFeatures(products: DataFrame) returns (r: Result<DataFrame, Error>)
    requires products.Valid()
    ensures r.Ok? ==> fresh(r.value) && r.value.Valid()
    ensures Contents(r) == ProductFeatures(old(products.Snapshot()))
  {
    var features := products.Copy();
    ghost var raw := features.Snapshot();
    var missing := FirstMissing(ProductReads, features.columns);
    if missing.Some? {
      return Err(MissingColumn(missing.value));
    }
    ProductReadsChecked(features.columns);
    ProductDerivedNotServed();
    DeriveProduct(features);
    ProductDerivedDropped(raw, ProductColumns);
    SelectedAgree(features.Snapshot(), raw, ProductColumns);
    r := features.Select(ProductColumns);
  }

  /** Every column the product step reads is also served, so it succeeds exactly when
      those five and the two keys are present. */
  lemma {:induction false} ProductSucceeds(t: Frame)
    requires WellFormed(t)
    ensures ProductFeatures(t).Ok? <==>
      ProductReadsPresent(t.columns) && ProductId in t.columns && EventTimestamp in t.columns
  {
    ProductReadsChecked(t.columns);
    var names := ProductColumns;
    assert ProductId in names && Category in names && Price in names && AvgRating in names;
    assert TotalReviews in names && InventoryLevel in names && EventTimestamp in names;
  }
}
