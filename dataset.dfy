/**
 * The data frame the flattening job works on, with the engine operations it
 * uses. A schema is the list of column names in column order together with
 * each column's type; a row maps column names to values. `withColumn`
 * replaces a column of the same name in place and otherwise appends the new
 * column; `explode` turns a row into one row per element of an array column;
 * `drop` removes the named columns; `select` keeps the named columns in the
 * order given.
 */
module Dataset {
  import opened Text

  /** A column's data type: a scalar, a struct with ordered fields, an array or a map. */
  datatype Ty = Scalar | Struct(fields: seq<Field>) | Array(elem: Ty) | Map(valueTy: Ty)

  datatype Field = Field(name: string, ty: Ty)

  /** A cell value: null, a scalar, a struct value, an array value or a map value. */
  datatype Value =
    | Null
    | Atom(text: string)
    | Record(members: map<string, Value>)
    | List(items: seq<Value>)
    | Dict(entries: map<string, Value>)

  /** Column names in column order, and the type of each column. */
  datatype Schema = Schema(order: seq<string>, types: map<string, Ty>)

  type Row = map<string, Value>

  datatype Frame = Frame(schema: Schema, rows: seq<Row>)

  /** A value fits a type: null fits every type; otherwise the shapes agree all the way down. */
  predicate HasType(v: Value, t: Ty)
    decreases t
  {
    v.Null? ||
    match t
    case Scalar => v.Atom?
    case Struct(fs) =>
      v.Record? && forall i :: 0 <= i < |fs| ==> fs[i].name in v.members && HasType(v.members[fs[i].name], fs[i].ty)
    case Array(e) => v.List? && forall i :: 0 <= i < |v.items| ==> HasType(v.items[i], e)
    case Map(vt) => v.Dict? && forall k :: k in v.entries ==> HasType(v.entries[k], vt)
  }

  /** A type with no map anywhere inside it. */
  predicate MapFree(t: Ty)
    decreases t
  {
    match t
    case Scalar => true
    case Struct(fs) => forall i :: 0 <= i < |fs| ==> MapFree(fs[i].ty)
    case Array(e) => MapFree(e)
    case Map(_) => false
  }

  /** Column names are unique, and the typed names are exactly the listed ones. */
  ghost predicate ValidSchema(s: Schema) {
    Distinct(s.order) && forall n :: n in s.types <==> n in s.order
  }

  predicate SchemaMapFree(s: Schema) {
    forall n :: n in s.types ==> MapFree(s.types[n])
  }

  /** A row fits a schema: it has exactly the schema's columns, each holding a value of the column's type. */
  ghost predicate RowFits(s: Schema, r: Row) {
    (forall n :: n in r <==> n in s.types) && forall n :: n in r ==> HasType(r[n], s.types[n])
  }

  /** The frame invariant: a valid schema, and every row fits it. */
  ghost predicate WellTyped(fr: Frame) {
    ValidSchema(fr.schema) && forall k :: 0 <= k < |fr.rows| ==> RowFits(fr.schema, fr.rows[k])
  }

  /** Every column is scalar. */
  predicate IsFlat(s: Schema) {
    forall n :: n in s.types ==> s.types[n].Scalar?
  }

  /** The nesting weight of a type: a struct, array or map counts one plus its parts. */
  function Weight(t: Ty): nat
    decreases t, 1
  {
    match t
    case Scalar => 0
    case Struct(fs) => 1 + FieldsWeight(fs)
    case Array(e) => 1 + Weight(e)
    case Map(v) => 1 + Weight(v)
  }

  function FieldsWeight(fs: seq<Field>): nat
    decreases fs, 0
  {
    if |fs| == 0 then 0 else FieldsWeight(fs[..|fs| - 1]) + Weight(fs[|fs| - 1].ty)
  }

  /** The weight column `n` contributes to the measure: nothing once it is marked `dropped`. */
  function ColumnWeight(types: map<string, Ty>, n: string, dropped: set<string>): nat {
    if n in types && n !in dropped then Weight(types[n]) else 0
  }

  function OrderWeight(order: seq<string>, types: map<string, Ty>, dropped: set<string>): nat {
    if |order| == 0 then 0
    else OrderWeight(order[..|order| - 1], types, dropped) + ColumnWeight(types, order[|order| - 1], dropped)
  }

  /** The total weight of the columns not marked `dropped`: what is left to flatten. */
  function Pending(s: Schema, dropped: set<string>): nat {
    OrderWeight(s.order, s.types, dropped)
  }

  /** The nesting measure of a schema: the weight of all its columns. */
  function SchemaWeight(s: Schema): nat {
    Pending(s, {})
  }

  lemma {:induction false} OrderWeightZero(order: seq<string>, types: map<string, Ty>)
    ensures OrderWeight(order, types, {}) == 0 <==>
      forall i :: 0 <= i < |order| && order[i] in types ==> types[order[i]].Scalar?
  {
    if |order| > 0 {
      var p := order[..|order| - 1];
      OrderWeightZero(p, types);
      assert forall i :: 0 <= i < |p| ==> p[i] == order[i];
      assert Weight(Scalar) == 0;
    }
  }

  /** A schema is flat exactly when its nesting measure is zero. */
  lemma FlatIffWeightless(s: Schema)
    requires ValidSchema(s)
    ensures IsFlat(s) <==> SchemaWeight(s) == 0
  {
    OrderWeightZero(s.order, s.types);
    if IsFlat(s) {
      assert forall i :: 0 <= i < |s.order| && s.order[i] in s.types ==> s.types[s.order[i]].Scalar?;
    } else {
      var n :| n in s.types && !s.types[n].Scalar?;
      var i :| 0 <= i < |s.order| && s.order[i] == n;
    }
  }

  /**
   * Retyping column `n` changes the measure by the difference of its old and
   * new contributions; retyping a name that is not listed changes nothing.
   */
  lemma {:induction false} OrderWeightRetype(o: seq<string>, types: map<string, Ty>, n: string, t: Ty, d: set<string>)
    requires Distinct(o)
    ensures n in o ==>
      OrderWeight(o, types[n := t], d) + ColumnWeight(types, n, d) == OrderWeight(o, types, d) + ColumnWeight(types[n := t], n, d)
    ensures n !in o ==> OrderWeight(o, types[n := t], d) == OrderWeight(o, types, d)
  {
    if |o| > 0 {
      var p := o[..|o| - 1];
      assert o == p + [o[|o| - 1]];
      assert Distinct(p);
      OrderWeightRetype(p, types, n, t, d);
    }
  }

  /** Marking a listed column dropped removes exactly its contribution from the measure. */
  lemma {:induction false} OrderWeightMark(o: seq<string>, types: map<string, Ty>, n: string, d: set<string>)
    requires Distinct(o)
    ensures n in o ==> OrderWeight(o, types, d + {n}) + ColumnWeight(types, n, d) == OrderWeight(o, types, d)
    ensures n !in o ==> OrderWeight(o, types, d + {n}) == OrderWeight(o, types, d)
  {
    if |o| > 0 {
      var p := o[..|o| - 1];
      assert o == p + [o[|o| - 1]];
      assert Distinct(p);
      OrderWeightMark(p, types, n, d);
    }
  }

  /** `withColumn(n, ...)` of type `t`: retypes column `n` in place, or appends it when there is none. */
  function SetColumn(s: Schema, n: string, t: Ty): (r: Schema)
    ensures ValidSchema(s) ==> ValidSchema(r)
  {
    if n in s.types then Schema(s.order, s.types[n := t])
    else
      assert ValidSchema(s) ==> Distinct(s.order + [n]) by {
        if ValidSchema(s) {
          forall i, j | 0 <= i < j < |s.order| + 1 ensures (s.order + [n])[i] != (s.order + [n])[j] {
            if j == |s.order| { assert s.order[i] in s.order; }
          }
        }
      }
      Schema(s.order + [n], s.types[n := t])
  }

  /** `withColumn` with a map-free type keeps the schema map-free. */
  lemma SetColumnMapFree(s: Schema, n: string, t: Ty)
    requires SchemaMapFree(s) && MapFree(t)
    ensures SchemaMapFree(SetColumn(s, n, t))
  {
  }

  /** `withColumn` changes the measure by the difference of the column's old and new contributions. */
  lemma PendingSetColumn(s: Schema, n: string, t: Ty, d: set<string>)
    requires ValidSchema(s)
    ensures Pending(SetColumn(s, n, t), d) + ColumnWeight(s.types, n, d) == Pending(s, d) + ColumnWeight(s.types[n := t], n, d)
  {
    OrderWeightRetype(s.order, s.types, n, t, d);
    if n !in s.types {
      assert (s.order + [n])[..|s.order|] == s.order;
    }
  }

  /** Marking a column dropped removes its weight from what is pending. */
  lemma PendingMark(s: Schema, n: string, d: set<string>)
    requires ValidSchema(s) && n in s.types
    ensures Pending(s, d + {n}) + ColumnWeight(s.types, n, d) == Pending(s, d)
  {
    OrderWeightMark(s.order, s.types, n, d);
  }

  /** The names of `o`, in order, that are in `names` (`keep`) or that are not (`!keep`). */
  function Filter(o: seq<string>, names: set<string>, keep: bool): (r: seq<string>)
    ensures forall n :: n in r <==> n in o && (n in names <==> keep)
    ensures Distinct(o) ==> Distinct(r)
  {
    if |o| == 0 then []
    else
      var p, x := o[..|o| - 1], o[|o| - 1];
      assert o == p + [x];
      var rp := Filter(p, names, keep);
      assert Distinct(o) ==> Distinct(p) && x !in rp;
      rp + (if (x in names) == keep then [x] else [])
  }

  /** `x` occurs in `o` before an occurrence of `y`. */
  ghost predicate OrderedIn(x: string, y: string, o: seq<string>) {
    exists a, b :: 0 <= a < b < |o| && o[a] == x && o[b] == y
  }

  /** Any two names of `r` appear in `o` in the same order (with distinct names: `r` lists part of `o` in `o`'s order). */
  ghost predicate KeepsOrder(r: seq<string>, o: seq<string>) {
    forall i, j :: 0 <= i < j < |r| ==> OrderedIn(r[i], r[j], o)
  }

  /** `Filter` keeps the relative order of the names it keeps. */
  lemma {:induction false} FilterKeepsOrder(o: seq<string>, names: set<string>, keep: bool)
    ensures KeepsOrder(Filter(o, names, keep), o)
  {
    if |o| > 0 {
      var init, x := o[..|o| - 1], o[|o| - 1];
      assert o == init + [x];
      FilterKeepsOrder(init, names, keep);
      var ri := Filter(init, names, keep);
      var r := Filter(o, names, keep);
      assert r == ri || r == ri + [x];
      KeepsOrderAppend(r, ri, o, init, x);
    }
  }

  /** A list `r` kept in order within `init`, then at most the name `x` appended to both, is still kept in order. */
  lemma KeepsOrderAppend(r: seq<string>, ri: seq<string>, o: seq<string>, init: seq<string>, x: string)
    requires KeepsOrder(ri, init) && (r == ri || r == ri + [x]) && o == init + [x]
    requires forall n :: n in ri ==> n in init
    ensures KeepsOrder(r, o)
  {
    forall i, j | 0 <= i < j < |r|
      ensures OrderedIn(r[i], r[j], o)
    {
      assert r[i] == ri[i];
      if j < |ri| {
        assert r[j] == ri[j];
        assert OrderedIn(ri[i], ri[j], init);
        var a, b :| 0 <= a < b < |init| && init[a] == ri[i] && init[b] == ri[j];
        assert o[a] == init[a] && o[b] == init[b];
      } else {
        assert r[j] == x && ri[i] in init;
        var a :| 0 <= a < |init| && init[a] == ri[i];
        assert o[a] == r[i] && o[|o| - 1] == r[j];
      }
    }
  }

  lemma {:induction false} FilterWeight(o: seq<string>, types: map<string, Ty>, names: set<string>)
    ensures OrderWeight(Filter(o, names, false), types - names, {}) == OrderWeight(o, types, names)
  {
    if |o| > 0 {
      var p, x := o[..|o| - 1], o[|o| - 1];
      FilterWeight(p, types, names);
      var rp := Filter(p, names, false);
      if x in names {
        assert Filter(o, names, false) == rp + [];
        assert rp + [] == rp;
      } else {
        assert (rp + [x])[..|rp|] == rp;
      }
    }
  }

  /** `drop(*names)` on the schema: the named columns leave, the rest keep their order. */
  function DropSchema(s: Schema, names: set<string>): (r: Schema)
    ensures ValidSchema(s) ==> ValidSchema(r)
  {
    Schema(Filter(s.order, names, false), s.types - names)
  }

  /** Dropping the marked columns leaves exactly the measure that was pending. */
  lemma DropPending(s: Schema, names: set<string>)
    ensures SchemaWeight(DropSchema(s, names)) == Pending(s, names)
  {
    FilterWeight(s.order, s.types, names);
  }

  /** `select(*names)` on the schema: exactly the named columns, in the order named. */
  function SelectSchema(s: Schema, names: seq<string>): (r: Schema)
    requires forall n :: n in names ==> n in s.types
    ensures Distinct(names) ==> ValidSchema(r)
  {
    Schema(names, map n | n in names :: s.types[n])
  }

  /** The value of field `f` of a struct cell, or null when the cell is null (`when(col.isNotNull(), col.getItem(f)).otherwise(None)`). */
  function FieldValue(v: Value, f: string): Value {
    if v.Record? && f in v.members then v.members[f] else Null
  }

  /** The name `withColumn` gives to field `f` of struct column `c`. */
  function FieldColumnName(c: string, f: string): (n: string)
    ensures |n| > |c| && n != c
  {
    c + "_" + f
  }

  /** Distinct fields of one struct column generate distinct column names. */
  lemma FieldColumnNameInjective(c: string, f: string, g: string)
    requires FieldColumnName(c, f) == FieldColumnName(c, g)
    ensures f == g
  {
    assert f == FieldColumnName(c, f)[|c| + 1..];
    assert g == FieldColumnName(c, g)[|c| + 1..];
  }

  /** One row after `withColumn(f"{c}_{f.name}", ...)`: the new cell holds field `f` of `c`, null where `c` is null. */
  function FieldCell(row: Row, c: string, f: Field): Row
    requires c in row
  {
    row[FieldColumnName(c, f.name) := FieldValue(row[c], f.name)]
  }

  /** One `withColumn(f"{c}_{f.name}", ...)` step of struct expansion, on the schema and on every row. */
  function AddFieldColumn(fr: Frame, c: string, f: Field): Frame
    requires forall k :: 0 <= k < |fr.rows| ==> c in fr.rows[k]
  {
    Frame(SetColumn(fr.schema, FieldColumnName(c, f.name), f.ty),
          seq(|fr.rows|, k requires 0 <= k < |fr.rows| => FieldCell(fr.rows[k], c, f)))
  }

  /** A row given a value of type `t` in column `n` fits the schema after `withColumn(n, ...)` of type `t`. */
  lemma SetRowFits(s: Schema, row: Row, n: string, t: Ty, x: Value)
    requires RowFits(s, row) && HasType(x, t)
    ensures RowFits(SetColumn(s, n, t), row[n := x])
  {
  }

  /** Adding a field column of a struct column keeps the frame well typed. */
  lemma AddFieldColumnWellTyped(fr: Frame, c: string, fs: seq<Field>, j: nat)
    requires WellTyped(fr) && c in fr.schema.types && fr.schema.types[c] == Struct(fs) && j < |fs|
    ensures forall k :: 0 <= k < |fr.rows| ==> c in fr.rows[k]
    ensures WellTyped(AddFieldColumn(fr, c, fs[j]))
  {
    var s := fr.schema;
    forall k | 0 <= k < |fr.rows|
      ensures c in fr.rows[k] && RowFits(SetColumn(s, FieldColumnName(c, fs[j].name), fs[j].ty), FieldCell(fr.rows[k], c, fs[j]))
    {
      var row := fr.rows[k];
      assert RowFits(s, row);
      assert HasType(row[c], Struct(fs));
      SetRowFits(s, row, FieldColumnName(c, fs[j].name), fs[j].ty, FieldValue(row[c], fs[j].name));
    }
  }

  /** The cells one row's array cell explodes into: its elements, or a single null for a null array. */
  function Elements(v: Value): seq<Value> {
    if v.List? then v.items else [Null]
  }

  /**
   * The rows one row explodes into on column `c`, one per element, in element
   * order, each equal to the input row but for column `c`; a null array gives
   * back the row itself.
   */
  function ExplodeRow(r: Row, c: string): (out: seq<Row>)
    requires c in r
    ensures r[c].Null? ==> out == [r]
    ensures |out| == |Elements(r[c])|
    ensures forall j :: 0 <= j < |out| ==>
      out[j].Keys == r.Keys && out[j][c] == Elements(r[c])[j] && (forall m :: m in r && m != c ==> out[j][m] == r[m])
  {
    var out := seq(|Elements(r[c])|, j requires 0 <= j < |Elements(r[c])| => r[c := Elements(r[c])[j]]);
    assert r[c].Null? ==> out[0] == r;
    out
  }

  function ExplodeRows(rows: seq<Row>, c: string): seq<Row>
    requires forall k :: 0 <= k < |rows| ==> c in rows[k]
  {
    if |rows| == 0 then [] else ExplodeRow(rows[0], c) + ExplodeRows(rows[1..], c)
  }

  /** `df.withColumn(c, explode(coalesce(col(c), array(lit(None)))))` for an array column `c` of element type `e`. */
  function Explode(fr: Frame, c: string, e: Ty): Frame
    requires forall k :: 0 <= k < |fr.rows| ==> c in fr.rows[k]
  {
    Frame(SetColumn(fr.schema, c, e), ExplodeRows(fr.rows, c))
  }

  /** Exploding a concatenation of rows explodes each part in place: row order is kept. */
  lemma {:induction false} ExplodeRowsAppend(a: seq<Row>, b: seq<Row>, c: string)
    requires forall k :: 0 <= k < |a| ==> c in a[k]
    requires forall k :: 0 <= k < |b| ==> c in b[k]
    ensures ExplodeRows(a + b, c) == ExplodeRows(a, c) + ExplodeRows(b, c)
  {
    if |a| > 0 {
      assert (a + b)[0] == a[0] && (a + b)[1..] == a[1..] + b;
      ExplodeRowsAppend(a[1..], b, c);
    } else {
      assert a + b == b;
    }
  }

  /** The number of rows an explode yields: one per element, and exactly one for a null array. */
  function RowsOut(rows: seq<Row>, c: string): nat
    requires forall k :: 0 <= k < |rows| ==> c in rows[k]
  {
    if |rows| == 0 then 0
    else (match rows[0][c] case List(xs) => |xs| case _ => 1) + RowsOut(rows[1..], c)
  }

  lemma {:induction false} ExplodeRowsCount(rows: seq<Row>, c: string)
    requires forall k :: 0 <= k < |rows| ==> c in rows[k]
    ensures |ExplodeRows(rows, c)| == RowsOut(rows, c)
  {
    if |rows| > 0 { ExplodeRowsCount(rows[1..], c); }
  }

  /** Every exploded row is some input row with column `c` set to one of that row's elements. */
  lemma {:induction false} ExplodeRowsFrom(rows: seq<Row>, c: string)
    requires forall k :: 0 <= k < |rows| ==> c in rows[k]
    ensures forall o :: o in ExplodeRows(rows, c) ==>
      exists k, j :: 0 <= k < |rows| && 0 <= j < |Elements(rows[k][c])| && o == rows[k][c := Elements(rows[k][c])[j]]
  {
    if |rows| > 0 {
      ExplodeRowsFrom(rows[1..], c);
      forall o | o in ExplodeRows(rows, c)
        ensures exists k, j :: 0 <= k < |rows| && 0 <= j < |Elements(rows[k][c])| && o == rows[k][c := Elements(rows[k][c])[j]]
      {
        if o in ExplodeRow(rows[0], c) {
          var j :| 0 <= j < |ExplodeRow(rows[0], c)| && ExplodeRow(rows[0], c)[j] == o;
          assert o == rows[0][c := Elements(rows[0][c])[j]];
        } else {
          assert o in ExplodeRows(rows[1..], c);
          var k, j :| 0 <= k < |rows[1..]| && 0 <= j < |Elements(rows[1..][k][c])| &&
                      o == rows[1..][k][c := Elements(rows[1..][k][c])[j]];
          assert rows[1..][k] == rows[k + 1];
        }
      }
    }
  }

  /** Every element of every row's array cell gives an exploded row: no element is lost. */
  lemma {:induction false} ExplodeRowsTo(rows: seq<Row>, c: string, x: nat, j: nat)
    requires forall k :: 0 <= k < |rows| ==> c in rows[k]
    requires x < |rows| && j < |Elements(rows[x][c])|
    ensures rows[x][c := Elements(rows[x][c])[j]] in ExplodeRows(rows, c)
  {
    if x == 0 {
      assert ExplodeRow(rows[0], c)[j] == rows[0][c := Elements(rows[0][c])[j]];
    } else {
      assert rows[1..][x - 1] == rows[x];
      ExplodeRowsTo(rows[1..], c, x - 1, j);
    }
  }

  /** Each element of an array cell has the array's element type. */
  lemma ElementsHaveType(v: Value, e: Ty, j: nat)
    requires HasType(v, Array(e)) && j < |Elements(v)|
    ensures HasType(Elements(v)[j], e)
  {
  }

  /**
   * Exploding an array column keeps the frame well typed; the column keeps
   * its place and now has the element type.
   */
  lemma ExplodeWellTyped(fr: Frame, c: string, e: Ty)
    requires WellTyped(fr) && c in fr.schema.types && fr.schema.types[c] == Array(e)
    ensures forall k :: 0 <= k < |fr.rows| ==> c in fr.rows[k]
    ensures Explode(fr, c, e).schema == Schema(fr.schema.order, fr.schema.types[c := e])
    ensures WellTyped(Explode(fr, c, e))
  {
    assert forall k :: 0 <= k < |fr.rows| ==> c in fr.rows[k] && HasType(fr.rows[k][c], Array(e)) by {
      forall k | 0 <= k < |fr.rows| ensures c in fr.rows[k] && HasType(fr.rows[k][c], Array(e)) {
        assert RowFits(fr.schema, fr.rows[k]);
      }
    }
    var r := Explode(fr, c, e);
    ExplodeRowsFrom(fr.rows, c);
    forall x | 0 <= x < |r.rows| ensures RowFits(r.schema, r.rows[x]) {
      var o := r.rows[x];
      assert o in ExplodeRows(fr.rows, c);
      var k, j :| 0 <= k < |fr.rows| && 0 <= j < |Elements(fr.rows[k][c])| && o == fr.rows[k][c := Elements(fr.rows[k][c])[j]];
      ExplodedRowFits(fr.schema, fr.rows[k], c, e, j);
    }
  }

  /** A row with its array cell replaced by one of its elements fits the exploded schema. */
  lemma ExplodedRowFits(s: Schema, row: Row, c: string, e: Ty, j: nat)
    requires RowFits(s, row) && c in s.types && s.types[c] == Array(e)
    requires c in row && HasType(row[c], Array(e)) && j < |Elements(row[c])|
    ensures RowFits(Schema(s.order, s.types[c := e]), row[c := Elements(row[c])[j]])
  {
    ElementsHaveType(row[c], e, j);
    SetRowFits(s, row, c, e, Elements(row[c])[j]);
  }

  /** `df.drop(*names)`: the named columns leave the schema and every row. */
  function Drop(fr: Frame, names: set<string>): Frame {
    Frame(DropSchema(fr.schema, names), seq(|fr.rows|, k requires 0 <= k < |fr.rows| => fr.rows[k] - names))
  }

  /** Dropping columns keeps the frame well typed, and no dropped name is left. */
  lemma DropWellTyped(fr: Frame, names: set<string>)
    requires WellTyped(fr)
    ensures WellTyped(Drop(fr, names))
    ensures forall n :: n in Drop(fr, names).schema.types <==> n in fr.schema.types && n !in names
  {
    var r := Drop(fr, names);
    forall k | 0 <= k < |r.rows| ensures RowFits(r.schema, r.rows[k]) {
      assert RowFits(fr.schema, fr.rows[k]);
    }
  }

  /** `df.select(*names)`: the named columns of every row, in the order named. */
  function Select(fr: Frame, names: seq<string>): Frame
    requires forall n :: n in names ==> n in fr.schema.types
  {
    Frame(SelectSchema(fr.schema, names),
          seq(|fr.rows|, k requires 0 <= k < |fr.rows| => map n | n in names && n in fr.rows[k] :: fr.rows[k][n]))
  }

  /** Selecting distinct existing columns keeps the frame well typed and every selected cell unchanged. */
  lemma SelectWellTyped(fr: Frame, names: seq<string>)
    requires WellTyped(fr) && Distinct(names) && forall n :: n in names ==> n in fr.schema.types
    ensures WellTyped(Select(fr, names))
    ensures forall k, n :: 0 <= k < |fr.rows| && n in names ==> Select(fr, names).rows[k][n] == fr.rows[k][n]
  {
    var r := Select(fr, names);
    forall k | 0 <= k < |fr.rows| ensures RowFits(r.schema, r.rows[k]) {
      assert RowFits(fr.schema, fr.rows[k]);
    }
  }
}
