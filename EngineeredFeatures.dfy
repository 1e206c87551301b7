/** `engineer_all_features` and `validate_engineered_features` of
    `src/feature_generation/feature_engineering.py`: the dictionary of feature frames, filled
    one entry per raw frame that is there, and the check of its key columns. */
module EngineeredFeatures {
  import opened Wrappers
  import opened Seqs
  import opened Cells
  import opened Columns
  import opened Frames
  import FeatureGeneration

  /** The keys of the engineered dictionary. */
  datatype FeatureSet = UserDemographic | UserBehavior | TransactionSet | ProductSet

  /** The key as the dictionary spells it. */
  function Name(k: FeatureSet): string {
    match k
    case UserDemographic => "user_demographic"
    case UserBehavior => "user_behavior"
    case TransactionSet => "transaction"
    case ProductSet => "product"
  }

  /** A dictionary of frames as its entries in insertion order. */
  type Entries = seq<(FeatureSet, Table)>

  /** The keys of a dictionary, in insertion order. */
  function Keys(d: Entries): (r: seq<FeatureSet>)
    ensures |r| == |d|
    ensures forall i :: 0 <= i < |d| ==> r[i] == d[i].0
  {
    if d == [] then [] else [d[0].0] + Keys(d[1..])
  }

  /** The frame stored under `key`, if any; the first entry under it wins. */
  function Lookup(d: Entries, key: FeatureSet): (r: Option<Table>)
    ensures r.None? <==> key !in Keys(d)
  {
    if d == [] then None
    else if d[0].0 == key then Some(d[0].1)
    else
      assert Keys(d) == [d[0].0] + Keys(d[1..]);
      Lookup(d[1..], key)
  }

  lemma {:induction false} KeysConcat(d: Entries, e: Entries)
    ensures Keys(d + e) == Keys(d) + Keys(e)
  {
  }

  /** Looking a key up in two dictionaries written one after the other. */
  lemma {:induction false} LookupConcat(d: Entries, e: Entries, key: FeatureSet)
    ensures Lookup(d + e, key) == if key in Keys(d) then Lookup(d, key) else Lookup(e, key)
  {
    if d == [] {
      assert d + e == e;
    } else {
      assert (d + e)[0] == d[0];
      assert (d + e)[1..] == d[1..] + e;
      assert Keys(d) == [d[0].0] + Keys(d[1..]);
      LookupConcat(d[1..], e, key);
    }
  }

  ghost predicate AllWellFormed(raw: map<string, Table>) {
    forall k :: k in raw ==> WellFormed(raw[k])
  }

  /** One optional step of the run: the run so far is kept when the step's raw frame is
      absent, ends with the step's error, or gains the step's entry under `key`. */
  function Added(acc: Result<Entries, FrameError>, key: FeatureSet, step: Option<Result<Table, FrameError>>): Result<Entries, FrameError>
  {
    match acc
    case Err(e) => Err(e)
    case Ok(d) =>
      match step
      case None => Ok(d)
      case Some(Err(e)) => Err(e)
      case Some(Ok(f)) => Ok(d + [(key, f)])
  }

  function DemographicStep(raw: map<string, Table>, parse: string -> Cell): Option<Result<Table, FrameError>>
    requires AllWellFormed(raw)
  {
    if "users" in raw then Some(FeatureGeneration.DemographicFeatures(raw["users"], parse)) else None
  }

  function BehaviorStep(raw: map<string, Table>): Option<Result<Table, FrameError>>
    requires AllWellFormed(raw)
  {
    if "behavior" in raw then Some(FeatureGeneration.BehaviorFeatures(raw["behavior"])) else None
  }

  function TransactionStep(raw: map<string, Table>): Option<Result<Table, FrameError>>
    requires AllWellFormed(raw)
  {
    if "transactions" in raw then Some(FeatureGeneration.TransactionFeatures(raw["transactions"])) else None
  }

  function ProductStep(raw: map<string, Table>): Option<Result<Table, FrameError>>
    requires AllWellFormed(raw)
  {
    if "products" in raw then Some(FeatureGeneration.ProductFeatures(raw["products"])) else None
  }

  /** The dictionary filled from the four optional steps in order, the first error
      ending the run. */
  function Combine(a: Option<Result<Table, FrameError>>, b: Option<Result<Table, FrameError>>,
                   c: Option<Result<Table, FrameError>>, d: Option<Result<Table, FrameError>>): Result<Entries, FrameError>
  {
    Added(Added(Added(Added(Ok([]), UserDemographic, a), UserBehavior, b), TransactionSet, c), ProductSet, d)
  }

  /** `engineer_all_features(raw_data)` on frame contents: the four steps in the order the
      source runs them. */
  function AllFeatures(raw: map<string, Table>, parse: string -> Cell): (r: Result<Entries, FrameError>)
    requires AllWellFormed(raw)
  {
    Combine(DemographicStep(raw, parse), BehaviorStep(raw), TransactionStep(raw), ProductStep(raw))
  }

  /** The key an optional step contributes. */
  function KeyOf(key: FeatureSet, step: Option<Result<Table, FrameError>>): seq<FeatureSet> {
    if step.Some? then [key] else []
  }

  /** The entry of one step: present exactly when the step ran, holding its frame. */
  predicate Holds(all: Entries, key: FeatureSet, step: Option<Result<Table, FrameError>>) {
    (key in Keys(all) <==> step.Some?) &&
    (step.Some? ==> Lookup(all, key).Some? && step.value == Ok(Lookup(all, key).value))
  }

  /** One step appends its key, if it ran, to the keys so far. */
  lemma {:induction false} AddedKeys(acc: Result<Entries, FrameError>, key: FeatureSet, step: Option<Result<Table, FrameError>>)
    requires Added(acc, key, step).Ok?
    ensures acc.Ok? && Keys(Added(acc, key, step).value) == Keys(acc.value) + KeyOf(key, step)
  {
    if step.Some? {
      KeysConcat(acc.value, [(key, step.value.value)]);
    }
  }

  /** One step leaves the entries under the other keys as they were. */
  lemma {:induction false} AddedOthers(acc: Result<Entries, FrameError>, key: FeatureSet, step: Option<Result<Table, FrameError>>, other: FeatureSet)
    requires Added(acc, key, step).Ok? && other != key
    ensures acc.Ok? && Lookup(Added(acc, key, step).value, other) == Lookup(acc.value, other)
  {
    if step.Some? {
      LookupConcat(acc.value, [(key, step.value.value)], other);
    }
  }

  /** A step whose key is new holds its own entry. */
  lemma {:induction false} AddedHolds(acc: Result<Entries, FrameError>, key: FeatureSet, step: Option<Result<Table, FrameError>>)
    requires Added(acc, key, step).Ok?
    ensures acc.Ok?
    ensures key !in Keys(acc.value) ==> Holds(Added(acc, key, step).value, key, step)
  {
    AddedKeys(acc, key, step);
    if step.Some? {
      LookupConcat(acc.value, [(key, step.value.value)], key);
    }
  }

  /** Entries the later steps leave alone. */
  lemma {:induction false} HoldsKept(acc: Result<Entries, FrameError>, key: FeatureSet, step: Option<Result<Table, FrameError>>,
                                     earlier: FeatureSet, earlierStep: Option<Result<Table, FrameError>>)
    requires Added(acc, key, step).Ok? && earlier != key
    requires Holds(acc.value, earlier, earlierStep)
    ensures Holds(Added(acc, key, step).value, earlier, earlierStep)
  {
    AddedKeys(acc, key, step);
    AddedOthers(acc, key, step, earlier);
  }

  /** The keys of the dictionary: one per step that ran, in the order they ran. */
  lemma {:induction false} CombineKeys(a: Option<Result<Table, FrameError>>, b: Option<Result<Table, FrameError>>,
                                       c: Option<Result<Table, FrameError>>, d: Option<Result<Table, FrameError>>)
    requires Combine(a, b, c, d).Ok?
    ensures Keys(Combine(a, b, c, d).value) ==
      KeyOf(UserDemographic, a) + KeyOf(UserBehavior, b) + KeyOf(TransactionSet, c) + KeyOf(ProductSet, d)
  {
    var r0: Result<Entries, FrameError> := Ok([]);
    var r1 := Added(r0, UserDemographic, a);
    var r2 := Added(r1, UserBehavior, b);
    var r3 := Added(r2, TransactionSet, c);
    AddedKeys(r3, ProductSet, d);
    AddedKeys(r2, TransactionSet, c);
    AddedKeys(r1, UserBehavior, b);
    AddedKeys(r0, UserDemographic, a);
    assert Keys(r0.value) == [];
  }

  /** The first two steps hold their entries. */
  lemma {:induction false} TwoHold(a: Option<Result<Table, FrameError>>, b: Option<Result<Table, FrameError>>)
    requires Added(Added(Ok([]), UserDemographic, a), UserBehavior, b).Ok?
    ensures var r2 := Added(Added(Ok([]), UserDemographic, a), UserBehavior, b).value;
      Holds(r2, UserDemographic, a) && Holds(r2, UserBehavior, b)
  {
    var r0: Result<Entries, FrameError> := Ok([]);
    var r1 := Added(r0, UserDemographic, a);
    AddedKeys(r1, UserBehavior, b);
    AddedKeys(r0, UserDemographic, a);
    assert Keys(r0.value) == [];
    AddedHolds(r0, UserDemographic, a);
    AddedHolds(r1, UserBehavior, b);
    HoldsKept(r1, UserBehavior, b, UserDemographic, a);
  }

  /** The first three steps hold their entries. */
  lemma {:induction false} ThreeHold(a: Option<Result<Table, FrameError>>, b: Option<Result<Table, FrameError>>,
                                     c: Option<Result<Table, FrameError>>)
    requires Added(Added(Added(Ok([]), UserDemographic, a), UserBehavior, b), TransactionSet, c).Ok?
    ensures var r3 := Added(Added(Added(Ok([]), UserDemographic, a), UserBehavior, b), TransactionSet, c).value;
      Holds(r3, UserDemographic, a) && Holds(r3, UserBehavior, b) && Holds(r3, TransactionSet, c)
  {
    var r2 := Added(Added(Ok([]), UserDemographic, a), UserBehavior, b);
    AddedKeys(r2, TransactionSet, c);
    TwoHold(a, b);
    AddedHolds(r2, TransactionSet, c);
    HoldsKept(r2, TransactionSet, c, UserDemographic, a);
    HoldsKept(r2, TransactionSet, c, UserBehavior, b);
  }

  /** Every step that ran has its frame in the dictionary. */
  lemma {:induction false} CombineHolds(a: Option<Result<Table, FrameError>>, b: Option<Result<Table, FrameError>>,
                                        c: Option<Result<Table, FrameError>>, d: Option<Result<Table, FrameError>>)
    requires Combine(a, b, c, d).Ok?
    ensures var all := Combine(a, b, c, d).value;
      Holds(all, UserDemographic, a) && Holds(all, UserBehavior, b) &&
      Holds(all, TransactionSet, c) && Holds(all, ProductSet, d)
  {
    var r3 := Added(Added(Added(Ok([]), UserDemographic, a), UserBehavior, b), TransactionSet, c);
    AddedKeys(r3, ProductSet, d);
    ThreeHold(a, b, c);
    AddedHolds(r3, ProductSet, d);
    HoldsKept(r3, ProductSet, d, UserDemographic, a);
    HoldsKept(r3, ProductSet, d, UserBehavior, b);
    HoldsKept(r3, ProductSet, d, TransactionSet, c);
  }

  /** A step that ran without raising, or did not run. */
  predicate StepOk(step: Option<Result<Table, FrameError>>) {
    step.Some? ==> step.value.Ok?
  }

  /** The run succeeds exactly when every step that runs succeeds. */
  lemma {:induction false} CombineSucceeds(a: Option<Result<Table, FrameError>>, b: Option<Result<Table, FrameError>>,
                                           c: Option<Result<Table, FrameError>>, d: Option<Result<Table, FrameError>>)
    ensures Combine(a, b, c, d).Ok? <==> StepOk(a) && StepOk(b) && StepOk(c) && StepOk(d)
  {
  }

  /** A failing run raises the error of the first step that fails. */
  lemma {:induction false} CombineFirstError(a: Option<Result<Table, FrameError>>, b: Option<Result<Table, FrameError>>,
                                             c: Option<Result<Table, FrameError>>, d: Option<Result<Table, FrameError>>)
    requires Combine(a, b, c, d).Err?
    ensures var e := Combine(a, b, c, d).error;
      if !StepOk(a) then a.value == Err(e)
      else if !StepOk(b) then b.value == Err(e)
      else if !StepOk(c) then c.value == Err(e)
      else d.Some? && d.value == Err(e)
  {
  }

  /** `engineer_all_features` succeeds exactly when each step whose raw frame is there does. */
  lemma {:induction false} AllFeaturesSucceeds(raw: map<string, Table>, parse: string -> Cell)
    requires AllWellFormed(raw)
    ensures AllFeatures(raw, parse).Ok? <==>
      ("users" in raw ==> FeatureGeneration.DemographicFeatures(raw["users"], parse).Ok?) &&
      ("behavior" in raw ==> FeatureGeneration.BehaviorFeatures(raw["behavior"]).Ok?) &&
      ("transactions" in raw ==> FeatureGeneration.TransactionFeatures(raw["transactions"]).Ok?) &&
      ("products" in raw ==> FeatureGeneration.ProductFeatures(raw["products"]).Ok?)
  {
    CombineSucceeds(DemographicStep(raw, parse), BehaviorStep(raw), TransactionStep(raw), ProductStep(raw));
  }

  /** A failing `engineer_all_features` raises the error of the first step that fails, in
      the order demographic, behaviour, transaction, product. */
  lemma {:induction false} AllFeaturesFirstError(raw: map<string, Table>, parse: string -> Cell)
    requires AllWellFormed(raw) && AllFeatures(raw, parse).Err?
    ensures var e := AllFeatures(raw, parse).error;
      if "users" in raw && FeatureGeneration.DemographicFeatures(raw["users"], parse).Err? then
        FeatureGeneration.DemographicFeatures(raw["users"], parse) == Err(e)
      else if "behavior" in raw && FeatureGeneration.BehaviorFeatures(raw["behavior"]).Err? then
        FeatureGeneration.BehaviorFeatures(raw["behavior"]) == Err(e)
      else if "transactions" in raw && FeatureGeneration.TransactionFeatures(raw["transactions"]).Err? then
        FeatureGeneration.TransactionFeatures(raw["transactions"]) == Err(e)
      else
        "products" in raw && FeatureGeneration.ProductFeatures(raw["products"]) == Err(e)
  {
    CombineFirstError(DemographicStep(raw, parse), BehaviorStep(raw), TransactionStep(raw), ProductStep(raw));
  }

  /** On success the dictionary has an entry for exactly the raw frames that are there,
      in the order demographic, behaviour, transaction, product. */
  lemma {:induction false} AllFeaturesKeys(raw: map<string, Table>, parse: string -> Cell)
    requires AllWellFormed(raw) && AllFeatures(raw, parse).Ok?
    ensures Keys(AllFeatures(raw, parse).value) ==
      (if "users" in raw then [UserDemographic] else []) +
      (if "behavior" in raw then [UserBehavior] else []) +
      (if "transactions" in raw then [TransactionSet] else []) +
      (if "products" in raw then [ProductSet] else [])
  {
    CombineKeys(DemographicStep(raw, parse), BehaviorStep(raw), TransactionStep(raw), ProductStep(raw));
  }

  /** Each entry holds its step's feature frame for its raw frame. */
  lemma {:induction false} AllFeaturesValues(raw: map<string, Table>, parse: string -> Cell)
    requires AllWellFormed(raw) && AllFeatures(raw, parse).Ok?
    ensures var all := AllFeatures(raw, parse).value;
      ("users" in raw ==>
        Lookup(all, UserDemographic).Some? && FeatureGeneration.DemographicFeatures(raw["users"], parse) == Ok(Lookup(all, UserDemographic).value)) &&
      ("behavior" in raw ==>
        Lookup(all, UserBehavior).Some? && FeatureGeneration.BehaviorFeatures(raw["behavior"]) == Ok(Lookup(all, UserBehavior).value)) &&
      ("transactions" in raw ==>
        Lookup(all, TransactionSet).Some? && FeatureGeneration.TransactionFeatures(raw["transactions"]) == Ok(Lookup(all, TransactionSet).value)) &&
      ("products" in raw ==>
        Lookup(all, ProductSet).Some? && FeatureGeneration.ProductFeatures(raw["products"]) == Ok(Lookup(all, ProductSet).value))
  {
    CombineHolds(DemographicStep(raw, parse), BehaviorStep(raw), TransactionStep(raw), ProductStep(raw));
  }

  // ---------------------------------------------------------------------------------
  // validate_engineered_features

  /** `required_cols`: `event_timestamp`, then `user_id` when the frame has it, otherwise
      `product_id` when the frame has that. */
  function RequiredColumns(cols: seq<Col>): seq<Col> {
    [EventTimestamp] + (if UserId in cols then [UserId] else if ProductId in cols then [ProductId] else [])
  }

  /** `missing_cols`: the required columns the frame does not have. */
  function MissingRequired(cols: seq<Col>): seq<Col> {
    Where(RequiredColumns(cols), c => c !in cols)
  }

  /** An id column is only required when it is there, so the one column that can be
      reported missing is `event_timestamp`. */
  lemma {:induction false} MissingRequiredExactly(cols: seq<Col>)
    ensures MissingRequired(cols) == if EventTimestamp in cols then [] else [EventTimestamp]
  {
    var p := (c: Col) => c !in cols;
    var req := RequiredColumns(cols);
    var ids := req[1..];
    assert req == [EventTimestamp] + ids;
    assert Where(ids, p) == [] by {
      if ids != [] {
        assert ids == [ids[0]] && ids[0] in cols;
        assert ids[1..] == [];
      }
    }
  }

  /** What `validate_engineered_features` returns for the frames of a dictionary: no frame
      misses a required column. */
  predicate Validates(d: Entries) {
    forall i :: 0 <= i < |d| ==> MissingRequired(d[i].1.columns) == []
  }

  /** A dictionary validates exactly when each of its frames has `event_timestamp`. */
  lemma {:induction false} ValidatesExactly(d: Entries)
    ensures Validates(d) <==> forall i :: 0 <= i < |d| ==> EventTimestamp in d[i].1.columns
  {
    forall i | 0 <= i < |d| {
      MissingRequiredExactly(d[i].1.columns);
    }
  }

  /** Every frame of the dictionary is well formed and has `event_timestamp`. */
  ghost predicate Served(d: Entries) {
    forall i :: 0 <= i < |d| ==> WellFormed(d[i].1) && EventTimestamp in d[i].1.columns
  }

  lemma {:induction false} AddedServed(acc: Result<Entries, FrameError>, key: FeatureSet, step: Option<Result<Table, FrameError>>)
    requires Added(acc, key, step).Ok? && acc.Ok? && Served(acc.value)
    requires step.Some? && step.value.Ok? ==> WellFormed(step.value.value) && EventTimestamp in step.value.value.columns
    ensures Served(Added(acc, key, step).value)
  {
  }

  /** Every feature frame `engineer_all_features` returns is well formed and has
      `event_timestamp`: each step serves it. */
  lemma {:induction false} AllFeaturesServed(raw: map<string, Table>, parse: string -> Cell)
    requires AllWellFormed(raw) && AllFeatures(raw, parse).Ok?
    ensures Served(AllFeatures(raw, parse).value)
  {
    var r0: Result<Entries, FrameError> := Ok([]);
    var r1 := Added(r0, UserDemographic, DemographicStep(raw, parse));
    var r2 := Added(r1, UserBehavior, BehaviorStep(raw));
    var r3 := Added(r2, TransactionSet, TransactionStep(raw));
    AddedKeys(r3, ProductSet, ProductStep(raw));
    AddedKeys(r2, TransactionSet, TransactionStep(raw));
    AddedKeys(r1, UserBehavior, BehaviorStep(raw));
    AddedKeys(r0, UserDemographic, DemographicStep(raw, parse));
    assert EventTimestamp in FeatureGeneration.DemographicColumns;
    assert EventTimestamp in FeatureGeneration.BehaviorColumns;
    assert EventTimestamp in FeatureGeneration.TransactionColumns;
    assert EventTimestamp in FeatureGeneration.ProductColumns;
    AddedServed(r0, UserDemographic, DemographicStep(raw, parse));
    AddedServed(r1, UserBehavior, BehaviorStep(raw));
    AddedServed(r2, TransactionSet, TransactionStep(raw));
    AddedServed(r3, ProductSet, ProductStep(raw));
  }

  /** Every feature frame `engineer_all_features` returns passes the validation. */
  lemma {:induction false} AllFeaturesValidate(raw: map<string, Table>, parse: string -> Cell)
    requires AllWellFormed(raw) && AllFeatures(raw, parse).Ok?
    ensures Validates(AllFeatures(raw, parse).value)
  {
    AllFeaturesServed(raw, parse);
    ValidatesExactly(AllFeatures(raw, parse).value);
  }

  // ---------------------------------------------------------------------------------
  // The two functions on data frames

  /** The frames a dictionary holds. */
  function FramesOf(fs: seq<(FeatureSet, DataFrame)>): set<DataFrame> {
    set i | 0 <= i < |fs| :: fs[i].1
  }

  /** A dictionary of data frames read as a dictionary of frame contents. */
  function Snapshots(fs: seq<(FeatureSet, DataFrame)>): (r: Entries)
    reads FramesOf(fs)
    ensures |r| == |fs|
    ensures forall i :: 0 <= i < |fs| ==> r[i] == (fs[i].0, fs[i].1.Snapshot())
  {
    if fs == [] then [] else [(fs[0].0, fs[0].1.Snapshot())] + Snapshots(fs[1..])
  }

  /** The outcome of `engineer_all_features` with its frames read as values. */
  function AllContents(r: Result<seq<(FeatureSet, DataFrame)>, FrameError>): Result<Entries, FrameError>
    reads if r.Ok? then FramesOf(r.value) else {}
  {
    match r
    case Ok(fs) => Ok(Snapshots(fs))
    case Err(e) => Err(e)
  }

  /** The raw data frames by name, read as values. */
  function RawContents(raw: map<string, DataFrame>): (r: map<string, Table>)
    reads raw.Values
    ensures r.Keys == raw.Keys
    ensures (forall k :: k in raw ==> raw[k].Valid()) ==> AllWellFormed(r)
  {
    map k | k in raw :: raw[k].Snapshot()
  }

  /** `validate_engineered_features(engineered_features)`: stops at the first frame that
      misses a required column. */
  method ValidateEngineeredFeatures(features: seq<(FeatureSet, DataFrame)>) returns (ok: bool)
    ensures ok == Validates(Snapshots(features))
  {
    var i := 0;
    while i < |features|
      invariant 0 <= i <= |features|
      invariant forall j :: 0 <= j < i ==> MissingRequired(features[j].1.columns) == []
    {
      var cols := features[i].1.columns;
      var required := [EventTimestamp];
      if UserId in cols {
        required := required + [UserId];
      } else if ProductId in cols {
        required := required + [ProductId];
      }
      var missing := Where(required, c => c !in cols);
      assert missing == MissingRequired(cols);
      if missing != [] {
        return false;
      }
      i := i + 1;
    }
    return true;
  }

  /** Appending an entry to a dictionary of data frames. */
  lemma {:induction false} SnapshotsSnoc(fs: seq<(FeatureSet, DataFrame)>, key: FeatureSet, f: DataFrame)
    ensures Snapshots(fs + [(key, f)]) == Snapshots(fs) + [(key, f.Snapshot())]
  {
  }

  /** The demographic entry, when `users` is among the raw frames. */
  method RunDemographic(raw: map<string, DataFrame>, parse: string -> Cell, engineered: seq<(FeatureSet, DataFrame)>)
    returns (next: Result<seq<(FeatureSet, DataFrame)>, FrameError>)
    requires forall k :: k in raw ==> raw[k].Valid()
    ensures next.Ok? ==> |engineered| <= |next.value| && forall i :: 0 <= i < |engineered| ==> next.value[i] == engineered[i]
    ensures next.Ok? ==> forall i :: |engineered| <= i < |next.value| ==> fresh(next.value[i].1)
    ensures RawContents(raw) == old(RawContents(raw)) && Snapshots(engineered) == old(Snapshots(engineered))
    ensures AllContents(next) == Added(Ok(Snapshots(engineered)), UserDemographic, DemographicStep(RawContents(raw), parse))
  {
    if "users" !in raw {
      return Ok(engineered);
    }
    var f := FeatureGeneration.EngineerUserDemographicFeatures(raw["users"], parse);
    if f.Err? {
      return Err(f.error);
    }
    SnapshotsSnoc(engineered, UserDemographic, f.value);
    next := Ok(engineered + [(UserDemographic, f.value)]);
  }

  /** The behaviour entry, when `behavior` is among the raw frames. */
  method RunBehavior(raw: map<string, DataFrame>, parse: string -> Cell, engineered: seq<(FeatureSet, DataFrame)>)
    returns (next: Result<seq<(FeatureSet, DataFrame)>, FrameError>)
    requires forall k :: k in raw ==> raw[k].Valid()
    ensures next.Ok? ==> |engineered| <= |next.value| && forall i :: 0 <= i < |engineered| ==> next.value[i] == engineered[i]
    ensures next.Ok? ==> forall i :: |engineered| <= i < |next.value| ==> fresh(next.value[i].1)
    ensures RawContents(raw) == old(RawContents(raw)) && Snapshots(engineered) == old(Snapshots(engineered))
    ensures AllContents(next) == Added(Ok(Snapshots(engineered)), UserBehavior, BehaviorStep(RawContents(raw)))
  {
    if "behavior" !in raw {
      return Ok(engineered);
    }
    var f := FeatureGeneration.EngineerUserBehaviorFeatures(raw["behavior"], parse);
    if f.Err? {
      return Err(f.error);
    }
    SnapshotsSnoc(engineered, UserBehavior, f.value);
    next := Ok(engineered + [(UserBehavior, f.value)]);
  }

  /** The transaction entry, when `transactions` is among the raw frames. */
  method RunTransaction(raw: map<string, DataFrame>, parse: string -> Cell, engineered: seq<(FeatureSet, DataFrame)>)
    returns (next: Result<seq<(FeatureSet, DataFrame)>, FrameError>)
    requires forall k :: k in raw ==> raw[k].Valid()
    ensures next.Ok? ==> |engineered| <= |next.value| && forall i :: 0 <= i < |engineered| ==> next.value[i] == engineered[i]
    ensures next.Ok? ==> forall i :: |engineered| <= i < |next.value| ==> fresh(next.value[i].1)
    ensures RawContents(raw) == old(RawContents(raw)) && Snapshots(engineered) == old(Snapshots(engineered))
    ensures AllContents(next) == Added(Ok(Snapshots(engineered)), TransactionSet, TransactionStep(RawContents(raw)))
  {
    if "transactions" !in raw {
      return Ok(engineered);
    }
    var f := FeatureGeneration.EngineerTransactionFeatures(raw["transactions"], parse);
    if f.Err? {
      return Err(f.error);
    }
    SnapshotsSnoc(engineered, TransactionSet, f.value);
    next := Ok(engineered + [(TransactionSet, f.value)]);
  }

  /** The product entry, when `products` is among the raw frames. */
  method RunProduct(raw: map<string, DataFrame>, parse: string -> Cell, engineered: seq<(FeatureSet, DataFrame)>)
    returns (next: Result<seq<(FeatureSet, DataFrame)>, FrameError>)
    requires forall k :: k in raw ==> raw[k].Valid()
    ensures next.Ok? ==> |engineered| <= |next.value| && forall i :: 0 <= i < |engineered| ==> next.value[i] == engineered[i]
    ensures next.Ok? ==> forall i :: |engineered| <= i < |next.value| ==> fresh(next.value[i].1)
    ensures RawContents(raw) == old(RawContents(raw)) && Snapshots(engineered) == old(Snapshots(engineered))
    ensures AllContents(next) == Added(Ok(Snapshots(engineered)), ProductSet, ProductStep(RawContents(raw)))
  {
    if "products" !in raw {
      return Ok(engineered);
    }
    var f := FeatureGeneration.EngineerProductFeatures(raw["products"]);
    if f.Err? {
      return Err(f.error);
    }
    SnapshotsSnoc(engineered, ProductSet, f.value);
    next := Ok(engineered + [(ProductSet, f.value)]);
  }

  /** `engineer_all_features(raw_data)`: runs each step whose raw frame is there, in the
      source's order, and enters its feature frame under the step's key. */
  method EngineerAllFeatures(raw: map<string, DataFrame>, parse: string -> Cell)
    returns (r: Result<seq<(FeatureSet, DataFrame)>, FrameError>)
    requires forall k :: k in raw ==> raw[k].Valid()
    ensures r.Ok? ==> forall i :: 0 <= i < |r.value| ==> fresh(r.value[i].1) && r.value[i].1.Valid()
    ensures AllContents(r) == AllFeatures(old(RawContents(raw)), parse)
  {
    ghost var contents := RawContents(raw);
    var engineered: seq<(FeatureSet, DataFrame)> := [];
    r := RunDemographic(raw, parse, engineered);
    if r.Err? {
      return;
    }
    engineered := r.value;
    assert forall i :: 0 <= i < |engineered| ==> fresh(engineered[i].1);
    r := RunBehavior(raw, parse, engineered);
    if r.Err? {
      return;
    }
    engineered := r.value;
    assert forall i :: 0 <= i < |engineered| ==> fresh(engineered[i].1);
    r := RunTransaction(raw, parse, engineered);
    if r.Err? {
      return;
    }
    engineered := r.value;
    assert forall i :: 0 <= i < |engineered| ==> fresh(engineered[i].1);
    r := RunProduct(raw, parse, engineered);
    if r.Ok? {
      AllFeaturesServed(contents, parse);
    }
  }
}
