/** A pandas data frame as the feature-engineering functions use it: named columns in
    order, one sequence of cells per column, all of the same length. */
module Frames {
  import opened Wrappers
  import opened Cells
  import opened Columns

  /** Why an engineering step stops: a column it reads is absent (`KeyError`), or
      `astype(int)` meets a value that is neither a number nor a boolean. */
  datatype FrameError = MissingColumn(name: Col) | CannotCastToInt(name: Col)

  /** The contents of a frame as a value, over the column names of `Columns`. */
  datatype Table = Table(columns: seq<Col>, data: map<Col, seq<Cell>>, rows: nat)

  /** Every listed column has data and every column with data is listed, all of the
      frame's length. */
  ghost predicate WellFormed(t: Table) {
    (forall c :: c in t.data <==> c in t.columns) &&
    (forall c :: c in t.data ==> |t.data[c]| == t.rows)
  }

  /** The first of `names` that is not among `present`, if any. */
  function FirstMissing(names: seq<Col>, present: seq<Col>): (r: Option<Col>)
    ensures r.None? <==> forall n :: n in names ==> n in present
    ensures r.Some? ==>
      exists i :: 0 <= i < |names| && names[i] == r.value && r.value !in present &&
        forall j :: 0 <= j < i ==> names[j] in present
  {
    if names == [] then None
    else if names[0] !in present then Some(names[0])
    else
      var rest := FirstMissing(names[1..], present);
      assert forall n :: n in names ==> n == names[0] || n in names[1..];
      if rest.Some? then
        var i :| 0 <= i < |names[1..]| && names[1..][i] == rest.value && rest.value !in present &&
          forall j :: 0 <= j < i ==> names[1..][j] in present;
        assert names[i + 1] == rest.value;
        assert forall j :: 1 <= j < i + 1 ==> names[j] == names[1..][j - 1];
        rest
      else rest
  }

  /** The column list after assigning `name`: a new column goes last, an existing one
      keeps its place. */
  function WithColumn(cols: seq<Col>, name: Col): (r: seq<Col>)
    ensures forall c :: c in r <==> c in cols || c == name
  {
    if cols == [] then [name]
    else if cols[0] == name then cols
    else [cols[0]] + WithColumn(cols[1..], name)
  }

  /** Assigning a column that is already listed leaves the list as it is; a new one is
      appended. */
  lemma {:induction false} WithColumnPlaces(cols: seq<Col>, name: Col)
    ensures name in cols ==> WithColumn(cols, name) == cols
    ensures name !in cols ==> WithColumn(cols, name) == cols + [name]
  {
    if cols != [] && cols[0] != name {
      WithColumnPlaces(cols[1..], name);
      assert cols == [cols[0]] + cols[1..];
    }
  }

  /** `frame[name] = col`. */
  function Assigned(t: Table, name: Col, col: seq<Cell>): (r: Table)
    requires |col| == t.rows
    ensures WellFormed(t) ==> WellFormed(r)
    ensures name in r.columns && name in r.data && r.data[name] == col && r.rows == t.rows
  {
    Table(WithColumn(t.columns, name), t.data[name := col], t.rows)
  }

  /** Assigning one column leaves every other column's contents as they were. */
  lemma {:induction false} AssignedKeeps(t: Table, name: Col, col: seq<Cell>, c: Col)
    requires |col| == t.rows && c != name && c in t.data
    ensures c in Assigned(t, name, col).data && Assigned(t, name, col).data[c] == t.data[c]
  {
  }

  /** Assigning a column its own contents changes nothing. */
  lemma {:induction false} AssignedSame(t: Table, name: Col)
    requires WellFormed(t) && name in t.columns
    ensures Assigned(t, name, t.data[name]) == t
  {
    WithColumnPlaces(t.columns, name);
    assert t.data[name := t.data[name]] == t.data;
  }

  /** `frame[names]`: the listed columns in the listed order, or a `KeyError` naming the
      first absent one. */
  function Selected(t: Table, names: seq<Col>): (r: Result<Table, FrameError>)
    requires WellFormed(t)
    ensures r.Err? <==> exists n :: n in names && n !in t.columns
    ensures r.Err? ==> r.error.MissingColumn? && r.error.name in names && r.error.name !in t.columns
    ensures r.Ok? ==>
      r.value.columns == names && r.value.rows == t.rows &&
      forall c :: c in names ==> c in r.value.data && r.value.data[c] == t.data[c]
    ensures r.Ok? ==> WellFormed(r.value)
  {
    match FirstMissing(names, t.columns)
    case Some(n) => Err(MissingColumn(n))
    case None => Ok(Table(names, map c | c in names :: t.data[c], t.rows))
  }

  /** The two frames have the same rows and the same listed columns with the same
      contents; any other columns may differ. */
  ghost predicate AgreeOn(t: Table, u: Table, names: seq<Col>) {
    t.rows == u.rows &&
    forall c :: c in names ==>
      (c in t.columns <==> c in u.columns) &&
      (c in t.data && c in u.data ==> t.data[c] == u.data[c])
  }

  lemma {:induction false} AgreeOnTrans(t: Table, u: Table, v: Table, names: seq<Col>)
    requires WellFormed(u) && AgreeOn(t, u, names) && AgreeOn(u, v, names)
    requires WellFormed(t) && WellFormed(v)
    ensures AgreeOn(t, v, names)
  {
  }

  /** Assigning a column that is not listed keeps the frame in agreement with what it was. */
  lemma {:induction false} AssignedOutside(t: Table, name: Col, col: seq<Cell>, names: seq<Col>)
    requires |col| == t.rows && name !in names
    ensures AgreeOn(Assigned(t, name, col), t, names)
  {
  }

  /** Assigning the same column to two agreeing frames keeps them in agreement. */
  lemma {:induction false} AssignedAgree(t: Table, u: Table, name: Col, col: seq<Cell>, names: seq<Col>)
    requires AgreeOn(t, u, names) && |col| == t.rows
    ensures AgreeOn(Assigned(t, name, col), Assigned(u, name, col), names)
  {
  }

  /** The first absent name depends only on which of the names are present. */
  lemma {:induction false} FirstMissingAgree(names: seq<Col>, a: seq<Col>, b: seq<Col>)
    requires forall c :: c in names ==> (c in a <==> c in b)
    ensures FirstMissing(names, a) == FirstMissing(names, b)
  {
    if names != [] {
      assert forall c :: c in names[1..] ==> c in names;
      FirstMissingAgree(names[1..], a, b);
    }
  }

  /** Selecting the listed columns from two agreeing frames gives the same result, so
      columns outside the list cannot change it. */
  lemma {:induction false} SelectedAgree(t: Table, u: Table, names: seq<Col>)
    requires WellFormed(t) && WellFormed(u) && AgreeOn(t, u, names)
    ensures Selected(t, names) == Selected(u, names)
  {
    FirstMissingAgree(names, t.columns, u.columns);
    if FirstMissing(names, t.columns).None? {
      assert (map c | c in names :: t.data[c]) == (map c | c in names :: u.data[c]);
    }
  }

  /** A frame whose columns are replaced by assignment. */
  class DataFrame {
    var columns: seq<Col>
    var data: map<Col, seq<Cell>>
    var rows: nat

    function Snapshot(): Table
      reads this
    {
      Table(columns, data, rows)
    }

    ghost predicate Valid()
      reads this
    {
      WellFormed(Snapshot())
    }

    constructor (t: Table)
      requires WellFormed(t)
      ensures Valid() && Snapshot() == t
    {
      columns := t.columns;
      data := t.data;
      rows := t.rows;
    }

    /** `frame.copy()`: a new frame with the same contents. */
    method Copy() returns (f: DataFrame)
      requires Valid()
      ensures fresh(f) && f.Valid() && f.Snapshot() == Snapshot()
    {
      f := new DataFrame(Snapshot());
    }

    /** `frame[name] = col`. */
    method Assign(name: Col, col: seq<Cell>)
      requires Valid() && |col| == rows
      modifies this
      ensures Valid() && Snapshot() == Assigned(old(Snapshot()), name, col)
    {
      WithColumnPlaces(columns, name);
      if name !in columns {
        columns := columns + [name];
      }
      data := data[name := col];
    }

    /** `frame[names]` as a new frame. */
    method Select(names: seq<Col>) returns (r: Result<DataFrame, FrameError>)
      requires Valid()
      ensures r.Ok? ==> fresh(r.value) && r.value.Valid()
      ensures Contents(r) == Selected(Snapshot(), names)
    {
      var s := Selected(Snapshot(), names);
      if s.Err? {
        return Err(s.error);
      }
      var f := new DataFrame(s.value);
      return Ok(f);
    }
  }

  /** The outcome of an engineering step with the frame it returns read as a value. */
  function Contents(r: Result<DataFrame, FrameError>): Result<Table, FrameError>
    reads if r.Ok? then {r.value} else {}
  {
    match r
    case Ok(f) => Ok(f.Snapshot())
    case Err(e) => Err(e)
  }
}
