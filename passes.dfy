/**
 * One iteration of `flatten_json`'s `while` loop in the JSON-to-CSV job. A
 * pass walks the column list taken at its start, skips scalar columns, and
 * handles at most two nested ones: a struct column is expanded into one
 * `<col>_<field>` column per field (and dropped when the pass ends), an
 * array column is exploded in place. `Pass` is the pass as a function of
 * the frame, `FlattenPass` the loop that computes it; `PassResult` says what
 * a pass makes of the schema and of every row.
 */
module Passes {
  import opened Text
  import opened Dataset

  /** `columns_to_process`: the most nested columns one pass handles. */
  const ColumnsPerPass: nat := 2

  /** Column `n` of `types` is a struct, an array or a map. */
  predicate IsNested(types: map<string, Ty>, n: string) {
    n in types && !types[n].Scalar?
  }

  /** The names of the nested columns among the first `i` names of `o`, in order. */
  function NestedUpTo(o: seq<string>, types: map<string, Ty>, i: nat): seq<string>
    requires i <= |o|
  {
    if i == 0 then [] else NestedUpTo(o, types, i - 1) + (if IsNested(types, o[i - 1]) then [o[i - 1]] else [])
  }

  /** The nested names among a shorter prefix start the list for a longer one. */
  lemma {:induction false} NestedUpToPrefix(o: seq<string>, types: map<string, Ty>, i: nat, j: nat)
    requires i <= j <= |o|
    ensures |NestedUpTo(o, types, i)| <= |NestedUpTo(o, types, j)|
    ensures NestedUpTo(o, types, j)[..|NestedUpTo(o, types, i)|] == NestedUpTo(o, types, i)
    decreases j
  {
    if i < j {
      NestedUpToPrefix(o, types, i, j - 1);
      var a, b := NestedUpTo(o, types, i), NestedUpTo(o, types, j - 1);
      assert NestedUpTo(o, types, j)[..|b|] == b;
      assert b[..|a|] == a;
    }
  }

  /** Exactly the nested names of the prefix are listed. */
  lemma {:induction false} NestedUpToMembers(o: seq<string>, types: map<string, Ty>, i: nat)
    requires i <= |o|
    ensures forall n :: n in NestedUpTo(o, types, i) <==> n in o[..i] && IsNested(types, n)
  {
    if i > 0 {
      NestedUpToMembers(o, types, i - 1);
      assert o[..i] == o[..i - 1] + [o[i - 1]];
    }
  }

  /** A schema that is not flat lists at least one nested column. */
  lemma NestedNonEmpty(s: Schema)
    requires ValidSchema(s) && !IsFlat(s)
    ensures NestedUpTo(s.order, s.types, |s.order|) != []
  {
    var n :| n in s.types && !s.types[n].Scalar?;
    NestedUpToMembers(s.order, s.types, |s.order|);
    assert s.order[..|s.order|] == s.order;
    assert n in NestedUpTo(s.order, s.types, |s.order|);
  }

  /** The nested columns a pass handles when no generated name clashes: the first `ColumnsPerPass` of them. */
  function FirstNested(s: Schema): seq<string> {
    var ns := NestedUpTo(s.order, s.types, |s.order|);
    if |ns| <= ColumnsPerPass then ns else ns[..ColumnsPerPass]
  }

  /** The names the first `j` fields of struct column `c` generate. */
  function Generated(c: string, fs: seq<Field>, j: nat): set<string>
    requires j <= |fs|
  {
    set jj | 0 <= jj < j :: FieldColumnName(c, fs[jj].name)
  }

  /** The names of a field prefix grow by one name per field. */
  lemma GeneratedStep(c: string, fs: seq<Field>, j: nat)
    requires j < |fs|
    ensures Generated(c, fs, j + 1) == Generated(c, fs, j) + {FieldColumnName(c, fs[j].name)}
  {
    assert FieldColumnName(c, fs[j].name) in Generated(c, fs, j + 1);
  }

  /** A struct column never generates its own name. */
  lemma GeneratedNotSelf(c: string, fs: seq<Field>, j: nat)
    requires j <= |fs|
    ensures c !in Generated(c, fs, j)
  {
    forall jj | 0 <= jj < j ensures FieldColumnName(c, fs[jj].name) != c { }
  }

  /**
   * No `<col>_<field>` name that a struct column of `s` generates is already
   * a column of `s`. Under this condition `withColumn` never overwrites a
   * column of the pass's column list.
   */
  ghost predicate NoClash(s: Schema) {
    forall c, j :: c in s.types && s.types[c].Struct? && 0 <= j < |s.types[c].fields| ==>
      FieldColumnName(c, s.types[c].fields[j].name) !in s.types
  }

  /** No two struct columns of `s` generate the same `<col>_<field>` name. */
  ghost predicate NamesApart(s: Schema) {
    forall c, j, c', j' ::
      c in s.types && s.types[c].Struct? && 0 <= j < |s.types[c].fields| &&
      c' in s.types && s.types[c'].Struct? && 0 <= j' < |s.types[c'].fields| && c != c' ==>
      FieldColumnName(c, s.types[c].fields[j].name) != FieldColumnName(c', s.types[c'].fields[j'].name)
  }

  /** A pass over `s` overwrites nothing: no generated name is a column or another struct's generated name. */
  ghost predicate Unclashed(s: Schema) {
    NoClash(s) && NamesApart(s)
  }

  /**
   * Schema `s` is schema `s0` after the first `j` field columns of struct
   * column `c` were added: its columns are the old ones plus the generated
   * ones, and no other column changed type.
   */
  ghost predicate SchemaExpanded(s0: Schema, c: string, fs: seq<Field>, j: nat, s: Schema)
    requires j <= |fs|
  {
    && (forall m :: m in s.types <==> m in s0.types || m in Generated(c, fs, j))
    && (forall m :: m in s0.types && m !in Generated(c, fs, j) ==> s.types[m] == s0.types[m])
  }

  /**
   * Rows `rows` are rows `rows0` after the first `j` field columns of struct
   * column `c` were added: each generated cell holds that field of `c`, and
   * every other cell is unchanged.
   */
  ghost predicate RowsExpanded(rows0: seq<Row>, c: string, fs: seq<Field>, j: nat, rows: seq<Row>)
    requires j <= |fs| && forall k :: 0 <= k < |rows0| ==> c in rows0[k]
  {
    && |rows| == |rows0|
    && (forall k, jj :: 0 <= k < |rows0| && 0 <= jj < j ==>
          FieldColumnName(c, fs[jj].name) in rows[k] &&
          rows[k][FieldColumnName(c, fs[jj].name)] == FieldValue(rows0[k][c], fs[jj].name))
    && (forall k, m :: 0 <= k < |rows0| && m in rows0[k] && m !in Generated(c, fs, j) ==>
          m in rows[k] && rows[k][m] == rows0[k][m])
  }

  /** Adding the next field column extends the schema by its generated name. */
  lemma SchemaExpandedStep(s0: Schema, c: string, fs: seq<Field>, j: nat, s: Schema)
    requires j < |fs| && SchemaExpanded(s0, c, fs, j, s)
    ensures SchemaExpanded(s0, c, fs, j + 1, SetColumn(s, FieldColumnName(c, fs[j].name), fs[j].ty))
  {
    GeneratedStep(c, fs, j);
  }

  /** Adding the next field column fills its cell in every row and leaves the other cells alone. */
  lemma RowsExpandedStep(df: Frame, c: string, fs: seq<Field>, j: nat, r: Frame)
    requires j < |fs| && forall k :: 0 <= k < |df.rows| ==> c in df.rows[k]
    requires RowsExpanded(df.rows, c, fs, j, r.rows)
    ensures forall k :: 0 <= k < |r.rows| ==> c in r.rows[k]
    ensures RowsExpanded(df.rows, c, fs, j + 1, AddFieldColumn(r, c, fs[j]).rows)
  {
    GeneratedStep(c, fs, j);
    GeneratedNotSelf(c, fs, j + 1);
    var n := FieldColumnName(c, fs[j].name);
    var rows := AddFieldColumn(r, c, fs[j]).rows;
    forall k, jj | 0 <= k < |df.rows| && 0 <= jj < j + 1
      ensures FieldColumnName(c, fs[jj].name) in rows[k] &&
        rows[k][FieldColumnName(c, fs[jj].name)] == FieldValue(df.rows[k][c], fs[jj].name)
    {
      assert r.rows[k][c] == df.rows[k][c];
      if FieldColumnName(c, fs[jj].name) == n {
        FieldColumnNameInjective(c, fs[jj].name, fs[j].name);
      }
    }
  }

  /** What holds after the first `j` `withColumn` steps of expanding struct column `c` of `df` into `r`. */
  ghost predicate ExpandInv(df: Frame, c: string, fs: seq<Field>, dropped: set<string>, j: nat, r: Frame)
    requires j <= |fs| && forall k :: 0 <= k < |df.rows| ==> c in df.rows[k]
  {
    && WellTyped(r) && SchemaMapFree(r.schema) && c in r.schema.types && r.schema.types[c] == Struct(fs)
    && SchemaExpanded(df.schema, c, fs, j, r.schema)
    && RowsExpanded(df.rows, c, fs, j, r.rows)
    && Pending(r.schema, dropped) <= Pending(df.schema, dropped) + FieldsWeight(fs[..j])
  }

  /** One `withColumn` step of struct expansion keeps `ExpandInv`. */
  lemma ExpandInvStep(df: Frame, c: string, fs: seq<Field>, dropped: set<string>, j: nat, r: Frame)
    requires j < |fs| && forall k :: 0 <= k < |df.rows| ==> c in df.rows[k]
    requires MapFree(Struct(fs)) && ExpandInv(df, c, fs, dropped, j, r)
    ensures forall k :: 0 <= k < |r.rows| ==> c in r.rows[k]
    ensures ExpandInv(df, c, fs, dropped, j + 1, AddFieldColumn(r, c, fs[j]))
  {
    var n := FieldColumnName(c, fs[j].name);
    SchemaExpandedStep(df.schema, c, fs, j, r.schema);
    RowsExpandedStep(df, c, fs, j, r);
    AddFieldColumnWellTyped(r, c, fs, j);
    SetColumnMapFree(r.schema, n, fs[j].ty);
    ExpandPendingStep(df.schema, fs, j, r.schema, n, dropped);
  }

  /** A field column adds at most the field's weight to what is pending. */
  lemma ExpandPendingStep(s0: Schema, fs: seq<Field>, j: nat, s: Schema, n: string, dropped: set<string>)
    requires j < |fs| && ValidSchema(s)
    requires Pending(s, dropped) <= Pending(s0, dropped) + FieldsWeight(fs[..j])
    ensures Pending(SetColumn(s, n, fs[j].ty), dropped) <= Pending(s0, dropped) + FieldsWeight(fs[..j + 1])
  {
    PendingSetColumn(s, n, fs[j].ty, dropped);
    assert fs[..j + 1][..j] == fs[..j];
    assert FieldsWeight(fs[..j + 1]) == FieldsWeight(fs[..j]) + Weight(fs[j].ty);
  }

  /** Before any step, `ExpandInv` holds of the frame itself. */
  lemma ExpandInvStart(df: Frame, c: string, fs: seq<Field>, dropped: set<string>)
    requires WellTyped(df) && SchemaMapFree(df.schema) && c in df.schema.types && df.schema.types[c] == Struct(fs)
    ensures forall k :: 0 <= k < |df.rows| ==> c in df.rows[k]
    ensures ExpandInv(df, c, fs, dropped, 0, df)
  {
    forall k | 0 <= k < |df.rows| ensures c in df.rows[k] { assert RowFits(df.schema, df.rows[k]); }
    assert fs[..0] == [];
  }

  /** The frame after the first `j` `withColumn(f"{c}_{field.name}", ...)` steps of expanding struct column `c`. */
  function ExpandFields(df: Frame, c: string, fs: seq<Field>, j: nat): (r: Frame)
    requires j <= |fs| && forall k :: 0 <= k < |df.rows| ==> c in df.rows[k]
    ensures forall k :: 0 <= k < |r.rows| ==> c in r.rows[k]
    decreases j
  {
    if j == 0 then df else AddFieldColumn(ExpandFields(df, c, fs, j - 1), c, fs[j - 1])
  }

  /** Every prefix of the field steps meets `ExpandInv`. */
  lemma {:induction false} ExpandFieldsInv(df: Frame, c: string, fs: seq<Field>, dropped: set<string>, j: nat)
    requires WellTyped(df) && SchemaMapFree(df.schema) && c in df.schema.types && df.schema.types[c] == Struct(fs)
    requires j <= |fs|
    ensures forall k :: 0 <= k < |df.rows| ==> c in df.rows[k]
    ensures ExpandInv(df, c, fs, dropped, j, ExpandFields(df, c, fs, j))
  {
    if j == 0 {
      ExpandInvStart(df, c, fs, dropped);
    } else {
      ExpandFieldsInv(df, c, fs, dropped, j - 1);
      var r := ExpandFields(df, c, fs, j - 1);
      assert MapFree(df.schema.types[c]);
      ExpandInvStep(df, c, fs, dropped, j - 1, r);
    }
  }

  /**
   * Struct expansion of column `c`: the columns are the old ones plus the
   * generated ones; every generated cell holds that field of `c`, null where
   * `c` is null; every other column and cell is unchanged, `c` included. The
   * pending measure, with `c` now marked for dropping, falls by at least one.
   */
  lemma ExpandStructFacts(df: Frame, c: string, fs: seq<Field>, dropped: set<string>)
    requires WellTyped(df) && SchemaMapFree(df.schema)
    requires c in df.schema.types && df.schema.types[c] == Struct(fs) && c !in dropped
    ensures forall k :: 0 <= k < |df.rows| ==> c in df.rows[k]
    ensures WellTyped(ExpandFields(df, c, fs, |fs|)) && SchemaMapFree(ExpandFields(df, c, fs, |fs|).schema)
    ensures SchemaExpanded(df.schema, c, fs, |fs|, ExpandFields(df, c, fs, |fs|).schema)
    ensures RowsExpanded(df.rows, c, fs, |fs|, ExpandFields(df, c, fs, |fs|).rows)
    ensures Pending(ExpandFields(df, c, fs, |fs|).schema, dropped + {c}) + 1 <= Pending(df.schema, dropped)
  {
    ExpandFieldsInv(df, c, fs, dropped, |fs|);
    assert fs[..|fs|] == fs;
    PendingMark(ExpandFields(df, c, fs, |fs|).schema, c, dropped);
  }

  /**
   * The inner loop of struct expansion: one `withColumn(f"{c}_{field.name}", ...)`
   * per field of `c`, in field order, with the effect `ExpandStructFacts` states.
   */
  method ExpandStruct(df: Frame, c: string, fs: seq<Field>, ghost dropped: set<string>) returns (r: Frame)
    requires WellTyped(df) && SchemaMapFree(df.schema)
    requires c in df.schema.types && df.schema.types[c] == Struct(fs) && c !in dropped
    ensures forall k :: 0 <= k < |df.rows| ==> c in df.rows[k]
    ensures r == ExpandFields(df, c, fs, |fs|)
    ensures WellTyped(r) && SchemaMapFree(r.schema)
    ensures SchemaExpanded(df.schema, c, fs, |fs|, r.schema)
    ensures RowsExpanded(df.rows, c, fs, |fs|, r.rows)
    ensures Pending(r.schema, dropped + {c}) + 1 <= Pending(df.schema, dropped)
  {
    ExpandStructFacts(df, c, fs, dropped);
    r := df;
    for j := 0 to |fs|
      invariant r == ExpandFields(df, c, fs, j)
    {
      r := AddFieldColumn(r, c, fs[j]);
    }
  }

  /**
   * What holds after a pass starting from `d` has visited the first `i`
   * columns of its column list, with the frame now `df`, the columns in
   * `dropped` marked for dropping and the columns in `processed` handled.
   */
  ghost predicate PassInv(d: Frame, i: nat, df: Frame, dropped: set<string>, processed: seq<string>)
    requires i <= |d.schema.order|
  {
    var cols := d.schema;
    && ValidSchema(cols) && WellTyped(df) && SchemaMapFree(df.schema)
    && |processed| <= ColumnsPerPass
    && (forall n :: n in cols.types ==> n in df.schema.types)
    && (forall k :: i <= k < |cols.order| ==> cols.order[k] !in dropped)
    && Pending(df.schema, dropped) + |processed| <= SchemaWeight(cols)
    && (|processed| == 0 ==> df == d && NestedUpTo(cols.order, cols.types, i) == [])
    && (NoClash(cols) ==> processed == NestedUpTo(cols.order, cols.types, i))
    && (NoClash(cols) ==> forall k :: i <= k < |cols.order| ==> df.schema.types[cols.order[k]] == cols.types[cols.order[k]])
  }

  /** A pass starts with nothing handled. */
  lemma PassInvStart(d: Frame)
    requires WellTyped(d) && SchemaMapFree(d.schema)
    ensures PassInv(d, 0, d, {}, [])
  {
  }

  /** Skipping a scalar column keeps `PassInv`. */
  lemma PassScalarStep(d: Frame, i: nat, df: Frame, dropped: set<string>, processed: seq<string>)
    requires i < |d.schema.order| && PassInv(d, i, df, dropped, processed)
    requires df.schema.types[d.schema.order[i]].Scalar?
    ensures PassInv(d, i + 1, df, dropped, processed)
  {
  }

  /** Expanding struct column `cols.order[i]` of type `Struct(fs)` into `df'` keeps `PassInv`. */
  lemma PassStructStep(d: Frame, i: nat, df: Frame, dropped: set<string>, processed: seq<string>, fs: seq<Field>, df': Frame)
    requires i < |d.schema.order| && PassInv(d, i, df, dropped, processed) && |processed| < ColumnsPerPass
    requires df.schema.types[d.schema.order[i]] == Struct(fs)
    requires WellTyped(df') && SchemaMapFree(df'.schema)
    requires SchemaExpanded(df.schema, d.schema.order[i], fs, |fs|, df'.schema)
    requires Pending(df'.schema, dropped + {d.schema.order[i]}) + 1 <= Pending(df.schema, dropped)
    ensures PassInv(d, i + 1, df', dropped + {d.schema.order[i]}, processed + [d.schema.order[i]])
  {
    var cols := d.schema;
    var c := cols.order[i];
    forall k | i + 1 <= k < |cols.order| ensures cols.order[k] != c { }
    if NoClash(cols) {
      assert cols.types[c] == Struct(fs);
      forall k | i + 1 <= k < |cols.order|
        ensures df'.schema.types[cols.order[k]] == cols.types[cols.order[k]]
      {
        assert cols.order[k] !in Generated(c, fs, |fs|);
      }
    }
  }

  /** Exploding array column `cols.order[i]` of element type `e` keeps `PassInv`. */
  lemma PassArrayStep(d: Frame, i: nat, df: Frame, dropped: set<string>, processed: seq<string>, e: Ty)
    requires i < |d.schema.order| && PassInv(d, i, df, dropped, processed) && |processed| < ColumnsPerPass
    requires df.schema.types[d.schema.order[i]] == Array(e)
    ensures forall k :: 0 <= k < |df.rows| ==> d.schema.order[i] in df.rows[k]
    ensures PassInv(d, i + 1, Explode(df, d.schema.order[i], e), dropped, processed + [d.schema.order[i]])
  {
    var cols := d.schema;
    var c := cols.order[i];
    ExplodeWellTyped(df, c, e);
    PendingSetColumn(df.schema, c, e, dropped);
    assert MapFree(df.schema.types[c]);
    SetColumnMapFree(df.schema, c, e);
    forall k | i + 1 <= k < |cols.order| ensures cols.order[k] != c { }
  }

  /**
   * When a pass stops, at least one column was handled, and when no
   * generated name clashes the handled ones are the first nested ones.
   */
  lemma PassEnd(d: Frame, i: nat, df: Frame, dropped: set<string>, processed: seq<string>)
    requires i <= |d.schema.order| && PassInv(d, i, df, dropped, processed)
    requires i == |d.schema.order| || |processed| >= ColumnsPerPass
    requires !IsFlat(d.schema)
    ensures 1 <= |processed|
    ensures NoClash(d.schema) ==> processed == FirstNested(d.schema)
  {
    NestedNonEmpty(d.schema);
    NestedUpToPrefix(d.schema.order, d.schema.types, i, |d.schema.order|);
  }

  /**
   * The loop body for column `d.schema.order[i]`, as a function of the
   * state: a struct column gets one new column per field and is marked for
   * dropping, an array column is exploded into one row per element, and a
   * scalar column is left alone; a handled column is added to `processed`.
   */
  ghost function ColumnStep(d: Frame, i: nat, df: Frame, dropped: set<string>, processed: seq<string>)
    : (r: (Frame, set<string>, seq<string>))
    requires i < |d.schema.order| && PassInv(d, i, df, dropped, processed) && |processed| < ColumnsPerPass
    ensures PassInv(d, i + 1, r.0, r.1, r.2)
  {
    var name := d.schema.order[i];
    assert MapFree(df.schema.types[name]);
    match df.schema.types[name]
    case Struct(fs) =>
      ExpandStructFacts(df, name, fs, dropped);
      PassStructStep(d, i, df, dropped, processed, fs, ExpandFields(df, name, fs, |fs|));
      (ExpandFields(df, name, fs, |fs|), dropped + {name}, processed + [name])
    case Array(e) =>
      PassArrayStep(d, i, df, dropped, processed, e);
      (Explode(df, name, e), dropped, processed + [name])
    case Scalar =>
      PassScalarStep(d, i, df, dropped, processed);
      (df, dropped, processed)
  }

  /**
   * The rest of a pass from column `i` on: the loop stops after the last
   * column or once `ColumnsPerPass` columns are handled, and then drops the
   * marked columns.
   */
  ghost function PassFrom(d: Frame, i: nat, df: Frame, dropped: set<string>, processed: seq<string>): (r: Frame)
    requires i <= |d.schema.order| && PassInv(d, i, df, dropped, processed)
    ensures WellTyped(r) && SchemaMapFree(r.schema)
    decreases |d.schema.order| - i
  {
    if i == |d.schema.order| || |processed| >= ColumnsPerPass then
      DropWellTyped(df, dropped);
      Drop(df, dropped)
    else
      var next := ColumnStep(d, i, df, dropped, processed);
      PassFrom(d, i + 1, next.0, next.1, next.2)
  }

  /** A pass that goes on at column `i` continues from the state `ColumnStep` gives. */
  lemma PassFromNext(d: Frame, i: nat, df: Frame, dropped: set<string>, processed: seq<string>)
    requires i < |d.schema.order| && PassInv(d, i, df, dropped, processed) && |processed| < ColumnsPerPass
    ensures var next := ColumnStep(d, i, df, dropped, processed);
      PassFrom(d, i, df, dropped, processed) == PassFrom(d, i + 1, next.0, next.1, next.2)
  {
  }

  /** One pass of `flatten_json`'s loop over `d`. */
  ghost function Pass(d: Frame): (r: Frame)
    requires WellTyped(d) && SchemaMapFree(d.schema)
    ensures WellTyped(r) && SchemaMapFree(r.schema)
  {
    PassInvStart(d);
    PassFrom(d, 0, d, {}, [])
  }

  /** A pass is the rest of a pass from the start state. */
  lemma PassStart(d: Frame)
    requires WellTyped(d) && SchemaMapFree(d.schema)
    ensures PassInv(d, 0, d, {}, []) && Pass(d) == PassFrom(d, 0, d, {}, [])
  {
    PassInvStart(d);
  }

  /**
   * The body of a pass's column loop for column `d.schema.order[i]`, reached
   * while fewer than `ColumnsPerPass` columns are handled: the step
   * `ColumnStep` describes. `handled` tells whether the column counts towards
   * the pass's limit.
   */
  method ProcessColumn(d: Frame, i: nat, df: Frame, columnsToDrop: seq<string>, ghost dropped: set<string>, ghost processed: seq<string>)
    returns (df': Frame, columnsToDrop': seq<string>, handled: bool, ghost dropped': set<string>, ghost processed': seq<string>)
    requires i < |d.schema.order| && PassInv(d, i, df, dropped, processed) && |processed| < ColumnsPerPass
    requires forall n :: n in dropped <==> n in columnsToDrop
    ensures (df', dropped', processed') == ColumnStep(d, i, df, dropped, processed)
    ensures PassInv(d, i + 1, df', dropped', processed')
    ensures PassFrom(d, i + 1, df', dropped', processed') == PassFrom(d, i, df, dropped, processed)
    ensures forall n :: n in dropped' <==> n in columnsToDrop'
    ensures handled <==> !df.schema.types[d.schema.order[i]].Scalar?
    ensures |processed'| == |processed| + (if handled then 1 else 0)
  {
    PassFromNext(d, i, df, dropped, processed);
    var name := d.schema.order[i];
    assert MapFree(df.schema.types[name]);
    match df.schema.types[name] {
      case Struct(fs) =>
        df' := ExpandStruct(df, name, fs, dropped);
        columnsToDrop' := columnsToDrop + [name];
        dropped' := dropped + {name};
        processed' := processed + [name];
        handled := true;
      case Array(e) =>
        PassArrayStep(d, i, df, dropped, processed, e);
        df' := Explode(df, name, e);
        columnsToDrop', dropped' := columnsToDrop, dropped;
        processed' := processed + [name];
        handled := true;
      case Scalar =>
        df', columnsToDrop', dropped', processed' := df, columnsToDrop, dropped, processed;
        handled := false;
    }
  }

  /** The set of a list of names that has exactly the members of `s` is `s`. */
  lemma NamesOf(names: seq<string>, s: set<string>)
    requires forall n :: n in s <==> n in names
    ensures (set n | n in names) == s
  {
  }

  /**
   * One pass of `flatten_json`'s loop: walks the column list taken at the
   * start, stops once `ColumnsPerPass` columns are handled, then drops the
   * expanded struct columns. It computes `Pass(d)`; it handles at least one
   * column and lowers the schema's weight by at least one per handled column.
   */
  method FlattenPass(d: Frame) returns (r: Frame, ghost processed: seq<string>)
    requires WellTyped(d) && SchemaMapFree(d.schema) && !IsFlat(d.schema)
    ensures r == Pass(d)
    ensures 1 <= |processed| <= ColumnsPerPass
    ensures SchemaWeight(r.schema) + |processed| <= SchemaWeight(d.schema)
    ensures NoClash(d.schema) ==> processed == FirstNested(d.schema)
  {
    var columns := d.schema.order;
    var df := d;
    var columnsToDrop: seq<string> := [];
    var processedColumns := 0;
    processed := [];
    ghost var dropped: set<string> := {};
    PassStart(d);
    var i := 0;
    while i < |columns|
      invariant columns == d.schema.order && i <= |columns|
      invariant PassInv(d, i, df, dropped, processed)
      invariant PassFrom(d, i, df, dropped, processed) == Pass(d)
      invariant processedColumns == |processed| && forall n :: n in dropped <==> n in columnsToDrop
      decreases |columns| - i
    {
      if processedColumns >= ColumnsPerPass {
        break;
      }
      var handled;
      df, columnsToDrop, handled, dropped, processed := ProcessColumn(d, i, df, columnsToDrop, dropped, processed);
      processedColumns := processedColumns + if handled then 1 else 0;
      i := i + 1;
    }
    PassEnd(d, i, df, dropped, processed);
    NamesOf(columnsToDrop, dropped);
    r := Drop(df, set n | n in columnsToDrop);
    DropWellTyped(df, dropped);
    DropPending(df.schema, dropped);
  }

  /** `n` is the `<col>_<field>` name of a field of a handled struct column. */
  ghost predicate Generates(s: Schema, processed: seq<string>, n: string) {
    exists c, j :: c in processed && c in s.types && s.types[c].Struct? && 0 <= j < |s.types[c].fields| &&
      n == FieldColumnName(c, s.types[c].fields[j].name)
  }

  /**
   * Row `o` is what the pass made of input row `row` of a frame with schema
   * `s`, the columns `processed` handled: a column not handled keeps its
   * cell, a handled array column holds one of the array's elements (null for
   * a null array), and each field column of a handled struct column holds
   * that field of the struct, null where the struct is null.
   */
  ghost predicate Descends(s: Schema, processed: seq<string>, row: Row, o: Row) {
    && (forall n :: n in s.types && n !in processed && n in row ==> n in o && o[n] == row[n])
    && (forall c :: c in processed && c in s.types && s.types[c].Array? && c in row ==> c in o && o[c] in Elements(row[c]))
    && (forall c, j :: c in processed && c in s.types && s.types[c].Struct? && c in row && 0 <= j < |s.types[c].fields| ==>
          FieldColumnName(c, s.types[c].fields[j].name) in o &&
          o[FieldColumnName(c, s.types[c].fields[j].name)] == FieldValue(row[c], s.types[c].fields[j].name))
  }

  /** Row `o` descends from some row of `d`. */
  ghost predicate FromSome(d: Frame, processed: seq<string>, o: Row) {
    exists k :: 0 <= k < |d.rows| && Descends(d.schema, processed, d.rows[k], o)
  }

  /** Some row of `rows` descends from `row`. */
  ghost predicate Reaches(s: Schema, processed: seq<string>, row: Row, rows: seq<Row>) {
    exists x :: 0 <= x < |rows| && Descends(s, processed, row, rows[x])
  }

  /** No handled column of `row` holds an empty array (`explode` drops such a row). */
  predicate NoEmptyArray(processed: seq<string>, row: Row) {
    forall c :: c in processed && c in row ==> |Elements(row[c])| > 0
  }

  /**
   * Schema `t` is what the pass made of schema `s`, the columns `processed`
   * handled: a column not handled keeps its type, a handled array column
   * has its element type, a handled struct column's field columns are
   * there, and there is no other new column.
   */
  ghost predicate Shaped(s: Schema, processed: seq<string>, t: Schema) {
    && (forall n :: n in s.types && n !in processed ==> n in t.types && t.types[n] == s.types[n])
    && (forall c :: c in processed && c in s.types && s.types[c].Array? ==> c in t.types && t.types[c] == s.types[c].elem)
    && (forall c, j :: c in processed && c in s.types && s.types[c].Struct? && 0 <= j < |s.types[c].fields| ==>
          FieldColumnName(c, s.types[c].fields[j].name) in t.types)
    && (forall n :: n in t.types ==> n in s.types || Generates(s, processed, n))
  }

  /**
   * What holds of the frame `df` while a pass over `d` is at column `i`
   * with the columns `processed` handled and `dropped` marked: its schema
   * and rows are what the handled columns made of `d`'s, the marked columns
   * are the handled structs, and the columns still to visit are not handled.
   */
  ghost predicate PassContent(d: Frame, i: nat, df: Frame, dropped: set<string>, processed: seq<string>)
    requires i <= |d.schema.order|
  {
    && Shaped(d.schema, processed, df.schema)
    && (forall x :: 0 <= x < |df.rows| ==> FromSome(d, processed, df.rows[x]))
    && (forall k :: 0 <= k < |d.rows| && NoEmptyArray(processed, d.rows[k]) ==> Reaches(d.schema, processed, d.rows[k], df.rows))
    && (forall n :: n in dropped <==> n in processed && n in d.schema.types && d.schema.types[n].Struct?)
    && (forall n :: n in processed ==> n in d.schema.types && !d.schema.types[n].Scalar?)
    && (forall k :: i <= k < |d.schema.order| ==> d.schema.order[k] !in processed)
  }

  /**
   * The result `r` of a pass over `d` that handled `processed`: its schema
   * is `Shaped` with the handled structs gone; every row descends from a row
   * of `d`, and every row of `d` without an empty handled array has a
   * descendant.
   */
  ghost predicate PassResult(d: Frame, processed: seq<string>, r: Frame) {
    && Shaped(d.schema, processed, r.schema)
    && (forall c :: c in processed && c in d.schema.types && d.schema.types[c].Struct? ==> c !in r.schema.types)
    && (forall x :: 0 <= x < |r.rows| ==> FromSome(d, processed, r.rows[x]))
    && (forall k :: 0 <= k < |d.rows| && NoEmptyArray(processed, d.rows[k]) ==> Reaches(d.schema, processed, d.rows[k], r.rows))
  }

  /** Before the first column, the frame is `d` itself. */
  lemma ContentStart(d: Frame)
    ensures PassContent(d, 0, d, {}, [])
  {
    forall x | 0 <= x < |d.rows| ensures FromSome(d, [], d.rows[x]) {
      assert Descends(d.schema, [], d.rows[x], d.rows[x]);
    }
    forall k | 0 <= k < |d.rows| ensures Reaches(d.schema, [], d.rows[k], d.rows) {
      assert Descends(d.schema, [], d.rows[k], d.rows[k]);
    }
  }

  /** No generated name of a struct column of an unclashed schema is a column of it. */
  lemma GeneratedNotColumn(s: Schema, c: string, fs: seq<Field>, n: string)
    requires NoClash(s) && c in s.types && s.types[c] == Struct(fs) && n in s.types
    ensures n !in Generated(c, fs, |fs|)
  {
    forall jj | 0 <= jj < |fs| ensures n != FieldColumnName(c, fs[jj].name) {
      assert s.types[c].fields[jj] == fs[jj];
    }
  }

  /** Exploding the array column `c` into one of its elements keeps a row descended. */
  lemma DescendsExplode(s: Schema, processed: seq<string>, row: Row, p: Row, c: string, v: Value)
    requires NoClash(s) && c in s.types && s.types[c].Array? && c !in processed && c in row
    requires Descends(s, processed, row, p) && v in Elements(row[c])
    ensures Descends(s, processed + [c], row, p[c := v])
  {
    forall c', j | c' in processed && c' in s.types && s.types[c'].Struct? && c' in row && 0 <= j < |s.types[c'].fields|
      ensures FieldColumnName(c', s.types[c'].fields[j].name) != c
    {
    }
  }

  /** Adding the field columns of the struct column `c` keeps a row descended. */
  lemma DescendsExpand(s: Schema, processed: seq<string>, row: Row, p: Row, o: Row, c: string, fs: seq<Field>)
    requires Unclashed(s) && c in s.types && s.types[c] == Struct(fs) && c !in processed && c in row && c in p
    requires Descends(s, processed, row, p)
    requires forall jj :: 0 <= jj < |fs| ==>
      FieldColumnName(c, fs[jj].name) in o && o[FieldColumnName(c, fs[jj].name)] == FieldValue(p[c], fs[jj].name)
    requires forall m :: m in p && m !in Generated(c, fs, |fs|) ==> m in o && o[m] == p[m]
    ensures Descends(s, processed + [c], row, o)
  {
    forall n | n in s.types ensures n !in Generated(c, fs, |fs|) {
      GeneratedNotColumn(s, c, fs, n);
    }
    forall c', j | c' in processed && c' in s.types && s.types[c'].Struct? && c' in row && 0 <= j < |s.types[c'].fields|
      ensures FieldColumnName(c', s.types[c'].fields[j].name) !in Generated(c, fs, |fs|)
    {
      forall jj | 0 <= jj < |fs| ensures FieldColumnName(c', s.types[c'].fields[j].name) != FieldColumnName(c, fs[jj].name) {
        assert s.types[c].fields[jj] == fs[jj];
      }
    }
  }

  /** Skipping a scalar column keeps `PassContent`. */
  lemma ContentSkip(d: Frame, i: nat, df: Frame, dropped: set<string>, processed: seq<string>)
    requires i < |d.schema.order| && PassContent(d, i, df, dropped, processed)
    ensures PassContent(d, i + 1, df, dropped, processed)
  {
  }

  /** After exploding array column `c`, every row still descends from a row of `d`. */
  lemma ExplodeFrom(d: Frame, df: Frame, processed: seq<string>, c: string)
    requires WellTyped(d) && NoClash(d.schema) && c in d.schema.types && d.schema.types[c].Array? && c !in processed
    requires forall k :: 0 <= k < |df.rows| ==> c in df.rows[k]
    requires forall x :: 0 <= x < |df.rows| ==> FromSome(d, processed, df.rows[x])
    ensures forall o :: o in ExplodeRows(df.rows, c) ==> FromSome(d, processed + [c], o)
  {
    ExplodeRowsFrom(df.rows, c);
    forall o | o in ExplodeRows(df.rows, c) ensures FromSome(d, processed + [c], o) {
      var y, j :| 0 <= y < |df.rows| && 0 <= j < |Elements(df.rows[y][c])| && o == df.rows[y][c := Elements(df.rows[y][c])[j]];
      assert FromSome(d, processed, df.rows[y]);
      var k :| 0 <= k < |d.rows| && Descends(d.schema, processed, d.rows[k], df.rows[y]);
      assert RowFits(d.schema, d.rows[k]);
      DescendsExplode(d.schema, processed, d.rows[k], df.rows[y], c, Elements(df.rows[y][c])[j]);
    }
  }

  /** After exploding array column `c`, every row of `d` without an empty handled array still has a descendant. */
  lemma ExplodeCover(d: Frame, df: Frame, processed: seq<string>, c: string)
    requires WellTyped(d) && NoClash(d.schema) && c in d.schema.types && d.schema.types[c].Array? && c !in processed
    requires forall k :: 0 <= k < |df.rows| ==> c in df.rows[k]
    requires forall k :: 0 <= k < |d.rows| && NoEmptyArray(processed, d.rows[k]) ==> Reaches(d.schema, processed, d.rows[k], df.rows)
    ensures forall k :: 0 <= k < |d.rows| && NoEmptyArray(processed + [c], d.rows[k]) ==>
      Reaches(d.schema, processed + [c], d.rows[k], ExplodeRows(df.rows, c))
  {
    forall k | 0 <= k < |d.rows| && NoEmptyArray(processed + [c], d.rows[k])
      ensures Reaches(d.schema, processed + [c], d.rows[k], ExplodeRows(df.rows, c))
    {
      assert NoEmptyArray(processed, d.rows[k]);
      var y :| 0 <= y < |df.rows| && Descends(d.schema, processed, d.rows[k], df.rows[y]);
      assert RowFits(d.schema, d.rows[k]);
      ExplodeRowsTo(df.rows, c, y, 0);
      DescendsExplode(d.schema, processed, d.rows[k], df.rows[y], c, Elements(df.rows[y][c])[0]);
      var rows := ExplodeRows(df.rows, c);
      var x :| 0 <= x < |rows| && rows[x] == df.rows[y][c := Elements(df.rows[y][c])[0]];
    }
  }

  /** Exploding the array column `d.schema.order[i]` keeps `PassContent`. */
  lemma ContentArray(d: Frame, i: nat, df: Frame, dropped: set<string>, processed: seq<string>, e: Ty)
    requires i < |d.schema.order| && WellTyped(d) && NoClash(d.schema) && PassContent(d, i, df, dropped, processed)
    requires d.schema.types[d.schema.order[i]] == Array(e)
    requires d.schema.order[i] in df.schema.types && forall k :: 0 <= k < |df.rows| ==> d.schema.order[i] in df.rows[k]
    ensures PassContent(d, i + 1, Explode(df, d.schema.order[i], e), dropped, processed + [d.schema.order[i]])
  {
    var s, c := d.schema, d.schema.order[i];
    var r := Explode(df, c, e);
    assert c !in processed;
    forall k | i + 1 <= k < |s.order| ensures s.order[k] != c { }
    ShapedRetype(s, processed, df.schema, c, e);
    ExplodeFrom(d, df, processed, c);
    forall x | 0 <= x < |r.rows| ensures FromSome(d, processed + [c], r.rows[x]) {
      assert r.rows[x] in ExplodeRows(df.rows, c);
    }
    ExplodeCover(d, df, processed, c);
  }

  /** Retyping a column that is an array of `e` in `s` to `e` makes it a handled array for `Shaped`. */
  lemma ShapedRetype(s: Schema, processed: seq<string>, t: Schema, c: string, e: Ty)
    requires NoClash(s) && Shaped(s, processed, t) && c in s.types && s.types[c] == Array(e) && c !in processed
    ensures Shaped(s, processed + [c], SetColumn(t, c, e))
  {
    forall c', j | c' in processed && c' in s.types && s.types[c'].Struct? && 0 <= j < |s.types[c'].fields|
      ensures FieldColumnName(c', s.types[c'].fields[j].name) != c
    {
    }
    forall n | n in SetColumn(t, c, e).types ensures n in s.types || Generates(s, processed + [c], n) {
      if n !in s.types {
        assert Generates(s, processed, n);
        var c', j :| c' in processed && c' in s.types && s.types[c'].Struct? && 0 <= j < |s.types[c'].fields| &&
          n == FieldColumnName(c', s.types[c'].fields[j].name);
        assert c' in processed + [c];
      }
    }
  }

  /** Adding the field columns of struct column `c` keeps the type of every column not handled, and of every handled array. */
  lemma ShapedExpandKeeps(s: Schema, processed: seq<string>, t: Schema, c: string, fs: seq<Field>, t': Schema)
    requires NoClash(s) && Shaped(s, processed, t) && c in s.types && s.types[c] == Struct(fs) && c !in processed
    requires SchemaExpanded(t, c, fs, |fs|, t')
    ensures forall n :: n in s.types && n !in processed + [c] ==> n in t'.types && t'.types[n] == s.types[n]
    ensures forall c' :: c' in processed + [c] && c' in s.types && s.types[c'].Array? ==> c' in t'.types && t'.types[c'] == s.types[c'].elem
  {
    forall n | n in s.types ensures n !in Generated(c, fs, |fs|) {
      GeneratedNotColumn(s, c, fs, n);
    }
  }

  /** After adding the field columns of struct column `c`, the field columns of every handled struct are there. */
  lemma ShapedExpandFields(s: Schema, processed: seq<string>, t: Schema, c: string, fs: seq<Field>, t': Schema)
    requires Shaped(s, processed, t) && c in s.types && s.types[c] == Struct(fs)
    requires SchemaExpanded(t, c, fs, |fs|, t')
    ensures forall c', j :: c' in processed + [c] && c' in s.types && s.types[c'].Struct? && 0 <= j < |s.types[c'].fields| ==>
      FieldColumnName(c', s.types[c'].fields[j].name) in t'.types
  {
    forall c', j | c' in processed + [c] && c' in s.types && s.types[c'].Struct? && 0 <= j < |s.types[c'].fields|
      ensures FieldColumnName(c', s.types[c'].fields[j].name) in t'.types
    {
      if c' == c {
        assert FieldColumnName(c, fs[j].name) in Generated(c, fs, |fs|);
      }
    }
  }

  /** After adding the field columns of struct column `c`, every column is an old one or a generated one. */
  lemma ShapedExpandOnly(s: Schema, processed: seq<string>, t: Schema, c: string, fs: seq<Field>, t': Schema)
    requires Shaped(s, processed, t) && c in s.types && s.types[c] == Struct(fs)
    requires SchemaExpanded(t, c, fs, |fs|, t')
    ensures forall n :: n in t'.types ==> n in s.types || Generates(s, processed + [c], n)
  {
    forall n | n in t'.types ensures n in s.types || Generates(s, processed + [c], n) {
      if n in t.types && n !in s.types {
        assert Generates(s, processed, n);
        var c', j :| c' in processed && c' in s.types && s.types[c'].Struct? && 0 <= j < |s.types[c'].fields| &&
          n == FieldColumnName(c', s.types[c'].fields[j].name);
        assert c' in processed + [c];
      } else if n !in t.types {
        var jj :| 0 <= jj < |fs| && n == FieldColumnName(c, fs[jj].name);
        assert s.types[c].fields[jj] == fs[jj] && c in processed + [c];
      }
    }
  }

  /** Adding the field columns of a struct column `c` not yet handled makes it a handled struct for `Shaped`. */
  lemma ShapedExpand(s: Schema, processed: seq<string>, t: Schema, c: string, fs: seq<Field>, t': Schema)
    requires Unclashed(s) && Shaped(s, processed, t) && c in s.types && s.types[c] == Struct(fs) && c !in processed
    requires SchemaExpanded(t, c, fs, |fs|, t')
    ensures Shaped(s, processed + [c], t')
  {
    ShapedExpandKeeps(s, processed, t, c, fs, t');
    ShapedExpandFields(s, processed, t, c, fs, t');
    ShapedExpandOnly(s, processed, t, c, fs, t');
  }

  /** After adding the field columns of struct column `c`, every row still descends from a row of `d`. */
  lemma ExpandFrom(d: Frame, df: Frame, processed: seq<string>, c: string, fs: seq<Field>, rows: seq<Row>)
    requires WellTyped(d) && Unclashed(d.schema) && c in d.schema.types && d.schema.types[c] == Struct(fs) && c !in processed
    requires forall k :: 0 <= k < |df.rows| ==> c in df.rows[k]
    requires RowsExpanded(df.rows, c, fs, |fs|, rows)
    requires forall x :: 0 <= x < |df.rows| ==> FromSome(d, processed, df.rows[x])
    ensures forall x :: 0 <= x < |rows| ==> FromSome(d, processed + [c], rows[x])
  {
    forall x | 0 <= x < |rows| ensures FromSome(d, processed + [c], rows[x]) {
      assert FromSome(d, processed, df.rows[x]);
      var k :| 0 <= k < |d.rows| && Descends(d.schema, processed, d.rows[k], df.rows[x]);
      assert RowFits(d.schema, d.rows[k]);
      DescendsExpand(d.schema, processed, d.rows[k], df.rows[x], rows[x], c, fs);
    }
  }

  /** After adding the field columns of struct column `c`, every row of `d` without an empty handled array still has a descendant. */
  lemma ExpandCover(d: Frame, df: Frame, processed: seq<string>, c: string, fs: seq<Field>, rows: seq<Row>)
    requires WellTyped(d) && Unclashed(d.schema) && c in d.schema.types && d.schema.types[c] == Struct(fs) && c !in processed
    requires forall k :: 0 <= k < |df.rows| ==> c in df.rows[k]
    requires RowsExpanded(df.rows, c, fs, |fs|, rows)
    requires forall k :: 0 <= k < |d.rows| && NoEmptyArray(processed, d.rows[k]) ==> Reaches(d.schema, processed, d.rows[k], df.rows)
    ensures forall k :: 0 <= k < |d.rows| && NoEmptyArray(processed + [c], d.rows[k]) ==>
      Reaches(d.schema, processed + [c], d.rows[k], rows)
  {
    forall k | 0 <= k < |d.rows| && NoEmptyArray(processed + [c], d.rows[k])
      ensures Reaches(d.schema, processed + [c], d.rows[k], rows)
    {
      assert NoEmptyArray(processed, d.rows[k]);
      var x :| 0 <= x < |df.rows| && Descends(d.schema, processed, d.rows[k], df.rows[x]);
      assert RowFits(d.schema, d.rows[k]);
      DescendsExpand(d.schema, processed, d.rows[k], df.rows[x], rows[x], c, fs);
    }
  }

  /** Expanding the struct column `d.schema.order[i]` into `df'` keeps `PassContent`. */
  lemma ContentStruct(d: Frame, i: nat, df: Frame, dropped: set<string>, processed: seq<string>, fs: seq<Field>, df': Frame)
    requires i < |d.schema.order| && WellTyped(d) && Unclashed(d.schema) && PassContent(d, i, df, dropped, processed)
    requires d.schema.types[d.schema.order[i]] == Struct(fs)
    requires forall k :: 0 <= k < |df.rows| ==> d.schema.order[i] in df.rows[k]
    requires SchemaExpanded(df.schema, d.schema.order[i], fs, |fs|, df'.schema)
    requires RowsExpanded(df.rows, d.schema.order[i], fs, |fs|, df'.rows)
    ensures PassContent(d, i + 1, df', dropped + {d.schema.order[i]}, processed + [d.schema.order[i]])
  {
    var s, c := d.schema, d.schema.order[i];
    assert c !in processed;
    forall k | i + 1 <= k < |s.order| ensures s.order[k] != c { }
    ShapedExpand(s, processed, df.schema, c, fs, df'.schema);
    ExpandFrom(d, df, processed, c, fs, df'.rows);
    ExpandCover(d, df, processed, c, fs, df'.rows);
  }

  /** Dropping only handled struct columns keeps a row descended. */
  lemma DescendsDrop(s: Schema, processed: seq<string>, row: Row, p: Row, dropped: set<string>)
    requires NoClash(s) && Descends(s, processed, row, p)
    requires forall n :: n in dropped ==> n in processed && n in s.types && s.types[n].Struct?
    ensures Descends(s, processed, row, p - dropped)
  {
  }

  /** Dropping the marked columns at the end of the pass gives a `PassResult`. */
  lemma ContentDrop(d: Frame, i: nat, df: Frame, dropped: set<string>, processed: seq<string>)
    requires i <= |d.schema.order| && NoClash(d.schema) && PassContent(d, i, df, dropped, processed)
    ensures PassResult(d, processed, Drop(df, dropped))
  {
    var s, r := d.schema, Drop(df, dropped);
    forall x | 0 <= x < |r.rows| ensures FromSome(d, processed, r.rows[x]) {
      assert FromSome(d, processed, df.rows[x]);
      var k :| 0 <= k < |d.rows| && Descends(s, processed, d.rows[k], df.rows[x]);
      DescendsDrop(s, processed, d.rows[k], df.rows[x], dropped);
    }
    forall k | 0 <= k < |d.rows| && NoEmptyArray(processed, d.rows[k]) ensures Reaches(s, processed, d.rows[k], r.rows) {
      var x :| 0 <= x < |df.rows| && Descends(s, processed, d.rows[k], df.rows[x]);
      DescendsDrop(s, processed, d.rows[k], df.rows[x], dropped);
      assert r.rows[x] == df.rows[x] - dropped;
    }
  }

  /** A pass that stops at column `i` ends in a `PassResult` for the first nested columns. */
  lemma PassStop(d: Frame, i: nat, df: Frame, dropped: set<string>, processed: seq<string>)
    requires i <= |d.schema.order| && PassInv(d, i, df, dropped, processed) && PassContent(d, i, df, dropped, processed)
    requires WellTyped(d) && Unclashed(d.schema) && !IsFlat(d.schema)
    requires i == |d.schema.order| || |processed| >= ColumnsPerPass
    ensures PassResult(d, FirstNested(d.schema), PassFrom(d, i, df, dropped, processed))
  {
    PassEnd(d, i, df, dropped, processed);
    ContentDrop(d, i, df, dropped, processed);
  }

  /** The state after column `i` keeps both `PassInv` and `PassContent`. */
  lemma NextState(d: Frame, i: nat, df: Frame, dropped: set<string>, processed: seq<string>)
      returns (df': Frame, dropped': set<string>, processed': seq<string>)
    requires i < |d.schema.order| && PassInv(d, i, df, dropped, processed) && |processed| < ColumnsPerPass
    requires PassContent(d, i, df, dropped, processed) && WellTyped(d) && Unclashed(d.schema)
    ensures (df', dropped', processed') == ColumnStep(d, i, df, dropped, processed)
    ensures PassInv(d, i + 1, df', dropped', processed')
    ensures PassContent(d, i + 1, df', dropped', processed')
  {
    ContentStep(d, i, df, dropped, processed);
    var next := ColumnStep(d, i, df, dropped, processed);
    df', dropped', processed' := next.0, next.1, next.2;
  }

  /** One column step keeps `PassContent`. */
  lemma ContentStep(d: Frame, i: nat, df: Frame, dropped: set<string>, processed: seq<string>)
    requires i < |d.schema.order| && PassInv(d, i, df, dropped, processed) && |processed| < ColumnsPerPass
    requires PassContent(d, i, df, dropped, processed) && WellTyped(d) && Unclashed(d.schema)
    ensures PassContent(d, i + 1, ColumnStep(d, i, df, dropped, processed).0,
                        ColumnStep(d, i, df, dropped, processed).1, ColumnStep(d, i, df, dropped, processed).2)
  {
    var name := d.schema.order[i];
    assert MapFree(df.schema.types[name]) && df.schema.types[name] == d.schema.types[name];
    match df.schema.types[name] {
      case Struct(fs) =>
        ExpandStructFacts(df, name, fs, dropped);
        ContentStruct(d, i, df, dropped, processed, fs, ExpandFields(df, name, fs, |fs|));
      case Array(e) =>
        PassArrayStep(d, i, df, dropped, processed, e);
        ContentArray(d, i, df, dropped, processed, e);
      case Scalar =>
        ContentSkip(d, i, df, dropped, processed);
    }
  }
}
