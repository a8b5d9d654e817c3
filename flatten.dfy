/**
 * The flattening loop of the JSON-to-CSV job: `is_flattened`, and
 * `flatten_json`, whose passes repeat until every column is scalar; what
 * the passes do to the data.
 */
module Flatten {
  import opened Text
  import opened Dataset
  import opened Passes

  /** `is_flattened(df)`: scans the columns in order and answers false at the first struct, array or map. */
  method IsFlattened(s: Schema) returns (flat: bool)
    requires ValidSchema(s)
    ensures flat <==> IsFlat(s)
  {
    for i := 0 to |s.order|
      invariant forall k :: 0 <= k < i ==> s.types[s.order[k]].Scalar?
    {
      var t := s.types[s.order[i]];
      if t.Struct? || t.Array? || t.Map? {
        return false;
      }
    }
    assert forall n :: n in s.types ==> exists k :: 0 <= k < |s.order| && s.order[k] == n;
    return true;
  }

  /**
   * What one pass over unclashed data does: the first nested columns are
   * handled, every other column keeps its type and its cells, each handled
   * array holds one of its elements, each handled struct is replaced by its
   * field columns holding its fields; every row comes from an input row and
   * every input row without an empty handled array gives a row.
   */
  lemma PassContents(d: Frame)
    requires WellTyped(d) && SchemaMapFree(d.schema) && !IsFlat(d.schema) && Unclashed(d.schema)
    ensures PassResult(d, FirstNested(d.schema), Pass(d))
  {
    PassStart(d);
    ContentStart(d);
    var i, df, dropped, processed := 0, d, {}, [];
    while i < |d.schema.order| && |processed| < ColumnsPerPass
      invariant i <= |d.schema.order| && PassInv(d, i, df, dropped, processed)
      invariant PassContent(d, i, df, dropped, processed)
      invariant PassFrom(d, i, df, dropped, processed) == Pass(d)
      decreases |d.schema.order| - i
    {
      PassFromNext(d, i, df, dropped, processed);
      df, dropped, processed := NextState(d, i, df, dropped, processed);
      i := i + 1;
    }
    PassStop(d, i, df, dropped, processed);
  }

  /** The nested columns a pass handles are nested columns of its input. */
  lemma FirstNestedNested(s: Schema)
    ensures forall n :: n in FirstNested(s) ==> n in s.types && !s.types[n].Scalar?
  {
    var ns := NestedUpTo(s.order, s.types, |s.order|);
    NestedUpToMembers(s.order, s.types, |s.order|);
    assert forall n :: n in FirstNested(s) ==> n in ns;
  }

  /** Row `o` holds the cell of `row` in every scalar column of `s` that `row` has. */
  ghost predicate Agrees(s: Schema, row: Row, o: Row) {
    forall n :: n in s.types && s.types[n].Scalar? && n in row ==> n in o && o[n] == row[n]
  }

  /** Row `o` agrees with some row of `d` on `d`'s scalar columns. */
  ghost predicate AgreesWithSome(d: Frame, o: Row) {
    exists k :: 0 <= k < |d.rows| && Agrees(d.schema, d.rows[k], o)
  }

  /** Every scalar column of `s` is a scalar column of `t`. */
  ghost predicate KeptIn(s: Schema, t: Schema) {
    forall n :: n in s.types && s.types[n].Scalar? ==> n in t.types && t.types[n].Scalar?
  }

  /**
   * Frame `r` keeps what frame `d` holds in its scalar columns: they are
   * still scalar columns of `r`, and every row of `r` has the cells of some
   * row of `d` there.
   */
  ghost predicate Preserves(d: Frame, r: Frame) {
    KeptIn(d.schema, r.schema) && forall x :: 0 <= x < |r.rows| ==> AgreesWithSome(d, r.rows[x])
  }

  /** Every frame keeps its own scalar columns. */
  lemma PreservesRefl(d: Frame)
    ensures Preserves(d, d)
  {
    forall x | 0 <= x < |d.rows| ensures AgreesWithSome(d, d.rows[x]) {
      assert Agrees(d.schema, d.rows[x], d.rows[x]);
    }
  }

  /** Keeping scalar columns composes. */
  lemma PreservesTrans(a: Frame, b: Frame, c: Frame)
    requires Preserves(a, b) && Preserves(b, c)
    ensures Preserves(a, c)
  {
    forall x | 0 <= x < |c.rows| ensures AgreesWithSome(a, c.rows[x]) {
      var m :| 0 <= m < |b.rows| && Agrees(b.schema, b.rows[m], c.rows[x]);
      var k :| 0 <= k < |a.rows| && Agrees(a.schema, a.rows[k], b.rows[m]);
      assert Agrees(a.schema, a.rows[k], c.rows[x]);
    }
  }

  /** A row descended from `row` by a pass that handled only nested columns agrees with it on the scalar ones. */
  lemma DescendsAgrees(s: Schema, processed: seq<string>, row: Row, o: Row)
    requires forall n :: n in processed ==> n in s.types && !s.types[n].Scalar?
    requires Descends(s, processed, row, o)
    ensures Agrees(s, row, o)
  {
  }

  /** A pass over unclashed data keeps its scalar columns and their cells. */
  lemma PassPreserves(d: Frame)
    requires WellTyped(d) && SchemaMapFree(d.schema) && !IsFlat(d.schema) && Unclashed(d.schema)
    ensures Preserves(d, Pass(d))
  {
    var r, p := Pass(d), FirstNested(d.schema);
    PassContents(d);
    FirstNestedNested(d.schema);
    forall x | 0 <= x < |r.rows| ensures AgreesWithSome(d, r.rows[x]) {
      assert FromSome(d, p, r.rows[x]);
      var k :| 0 <= k < |d.rows| && Descends(d.schema, p, d.rows[k], r.rows[x]);
      DescendsAgrees(d.schema, p, d.rows[k], r.rows[x]);
    }
  }

  /** `b` is what one pass of `flatten_json`'s loop makes of a frame `a` that is not yet flat. */
  ghost predicate PassStep(a: Frame, b: Frame) {
    WellTyped(a) && SchemaMapFree(a.schema) && !IsFlat(a.schema) && b == Pass(a)
  }

  /** `frames` starts at `d` and each frame is a pass over the one before. */
  ghost predicate RunFrom(d: Frame, frames: seq<Frame>) {
    |frames| >= 1 && frames[0] == d && forall k :: 0 <= k < |frames| - 1 ==> PassStep(frames[k], frames[k + 1])
  }

  /** `frames` is the whole run of `flatten_json` on `d`: the passes from `d` up to the first flat frame. */
  ghost predicate FlattenRun(d: Frame, frames: seq<Frame>) {
    RunFrom(d, frames) && IsFlat(frames[|frames| - 1].schema)
  }

  /** Every frame a pass was run on is unclashed. */
  ghost predicate AllUnclashed(frames: seq<Frame>) {
    forall k :: 0 <= k < |frames| - 1 ==> Unclashed(frames[k].schema)
  }

  /** A run extended by a pass over its last frame is a run. */
  lemma RunExtend(d: Frame, frames: seq<Frame>, r: Frame)
    requires RunFrom(d, frames) && PassStep(frames[|frames| - 1], r)
    ensures RunFrom(d, frames + [r]) && (frames + [r])[|frames|] == r
  {
    var g := frames + [r];
    forall k | 0 <= k < |g| - 1 ensures PassStep(g[k], g[k + 1]) {
      if k < |frames| - 1 {
        assert g[k] == frames[k] && g[k + 1] == frames[k + 1];
      }
    }
  }

  /** Two runs from the same frame agree as far as both reach. */
  lemma {:induction false} RunsAgree(d: Frame, f: seq<Frame>, g: seq<Frame>, k: nat)
    requires RunFrom(d, f) && RunFrom(d, g) && k < |f| && k < |g|
    ensures f[k] == g[k]
  {
    if k > 0 {
      RunsAgree(d, f, g, k - 1);
      assert PassStep(f[k - 1], f[k]) && PassStep(g[k - 1], g[k]);
    }
  }

  /** Every frame of a run but the last is a frame a pass ran on, so it is not flat. */
  lemma NotFlatBeforeEnd(d: Frame, f: seq<Frame>, k: nat)
    requires RunFrom(d, f) && k < |f| - 1
    ensures !IsFlat(f[k].schema)
  {
    assert PassStep(f[k], f[k + 1]);
  }

  /** The run of `flatten_json` on a frame is determined by the frame. */
  lemma FlattenRunUnique(d: Frame, f: seq<Frame>, g: seq<Frame>)
    requires FlattenRun(d, f) && FlattenRun(d, g)
    ensures f == g
  {
    if |f| < |g| {
      NotFlatBeforeEnd(d, g, |f| - 1);
      RunsAgree(d, f, g, |f| - 1);
      assert false;
    } else if |g| < |f| {
      NotFlatBeforeEnd(d, f, |g| - 1);
      RunsAgree(d, f, g, |g| - 1);
      assert false;
    } else {
      forall k | 0 <= k < |f| ensures f[k] == g[k] {
        RunsAgree(d, f, g, k);
      }
    }
  }

  /** A run whose passes all met unclashed data keeps the scalar columns of its first frame. */
  lemma {:induction false} RunPreserves(d: Frame, frames: seq<Frame>)
    requires RunFrom(d, frames) && AllUnclashed(frames)
    ensures Preserves(d, frames[|frames| - 1])
    decreases |frames|
  {
    if |frames| == 1 {
      PreservesRefl(d);
    } else {
      var before := frames[..|frames| - 1];
      var prev, last := frames[|frames| - 2], frames[|frames| - 1];
      forall k | 0 <= k < |before| - 1 ensures PassStep(before[k], before[k + 1]) && Unclashed(before[k].schema) {
        assert PassStep(frames[k], frames[k + 1]);
      }
      RunPreserves(d, before);
      assert PassStep(prev, last) && Unclashed(prev.schema);
      PassPreserves(prev);
      PreservesTrans(d, prev, last);
    }
  }

  /**
   * `flatten_json(df)`: passes repeat while `is_flattened` says no. The
   * result is the last frame of the run from `d`, well typed and flat; each
   * pass lowers the nesting measure, so there are at most `SchemaWeight`
   * passes; and when no pass met a clashing generated name, the result keeps
   * every scalar column of `d`, each output row holding the cells of an
   * input row there.
   */
  method FlattenJson(d: Frame) returns (r: Frame, ghost frames: seq<Frame>)
    requires WellTyped(d) && SchemaMapFree(d.schema)
    ensures WellTyped(r) && IsFlat(r.schema)
    ensures FlattenRun(d, frames) && r == frames[|frames| - 1]
    ensures |frames| - 1 <= SchemaWeight(d.schema)
    ensures IsFlat(d.schema) ==> r == d
    ensures AllUnclashed(frames) ==> Preserves(d, r)
  {
    r := d;
    frames := [d];
    var flat := IsFlattened(r.schema);
    while !flat
      invariant WellTyped(r) && SchemaMapFree(r.schema)
      invariant flat <==> IsFlat(r.schema)
      invariant RunFrom(d, frames) && r == frames[|frames| - 1]
      invariant |frames| - 1 + SchemaWeight(r.schema) <= SchemaWeight(d.schema)
      invariant IsFlat(d.schema) ==> r == d
      decreases SchemaWeight(r.schema)
    {
      ghost var processed;
      r, processed := FlattenPass(r);
      RunExtend(d, frames, r);
      frames := frames + [r];
      flat := IsFlattened(r.schema);
    }
    if AllUnclashed(frames) {
      RunPreserves(d, frames);
    }
  }
}
