/**
 * The top level of the JSON-to-CSV job: the input's own key order, the
 * projection that restores it when the data is already flat, the flattening
 * otherwise, and the name of the CSV written. Reading the input, writing the
 * CSV and the job's bookkeeping are outside the model: the parsed document
 * and the dataset Spark read from it are parameters.
 */
module GlueJob {
  import opened Wrappers
  import opened Text
  import opened Json
  import opened Dataset
  import opened Flatten

  /** The Python exception `get_original_column_order` raises. */
  datatype OrderError =
    | IndexError      // `json_content[0]` on an empty list
    | AttributeError  // `.keys()` on a first element that is not an object
    | ValueError      // a document that is neither a list nor an object

  /**
   * `get_original_column_order`: the keys of the document, or of its first
   * element when it is a list, in the order they first appear.
   */
  function OriginalColumnOrder(doc: Json): (r: Result<seq<string>, OrderError>)
    ensures r.Ok? <==> doc.JObj? || (doc.JArr? && |doc.items| > 0 && doc.items[0].JObj?)
    ensures doc.JArr? && |doc.items| == 0 ==> r == Err(IndexError)
    ensures doc.JArr? && |doc.items| > 0 && !doc.items[0].JObj? ==> r == Err(AttributeError)
    ensures !doc.JArr? && !doc.JObj? ==> r == Err(ValueError)
    ensures r.Ok? ==> Distinct(r.value)
    ensures doc.JObj? ==> forall k :: k in r.value <==> k in KeyNames(doc.members)
    ensures doc.JArr? && r.Ok? ==> forall k :: k in r.value <==> k in KeyNames(doc.items[0].members)
    ensures doc.JObj? ==> forall i, j :: 0 <= i < j < |r.value| ==>
      FirstAt(doc.members, r.value[i]) < FirstAt(doc.members, r.value[j])
    ensures doc.JArr? && r.Ok? ==> forall i, j :: 0 <= i < j < |r.value| ==>
      FirstAt(doc.items[0].members, r.value[i]) < FirstAt(doc.items[0].members, r.value[j])
  {
    match doc
    case JArr(items) =>
      if |items| == 0 then Err(IndexError)
      else if items[0].JObj? then Ok(Keys(items[0].members))
      else Err(AttributeError)
    case JObj(members) => Ok(Keys(members))
    case _ => Err(ValueError)
  }

  /** An object whose keys are all different gives its keys exactly in text order. */
  lemma OriginalOrderOfObject(members: seq<(string, Json)>)
    requires forall i, j :: 0 <= i < j < |members| ==> members[i].0 != members[j].0
    ensures OriginalColumnOrder(JObj(members)) == Ok(seq(|members|, i requires 0 <= i < |members| => members[i].0))
  {
    KeysInOrder(members, []);
    assert KeysAfter(members, []) == Keys(members) by {
      assert [] + KeysAfter(members, []) == KeysAfter(members, []);
    }
  }

  /** `[col for col in order if col in df.columns]`. */
  function ProjectedColumns(order: seq<string>, fr: Frame): (cols: seq<string>)
    ensures forall n :: n in cols <==> n in order && n in fr.schema.types
    ensures Distinct(order) ==> Distinct(cols)
    ensures KeepsOrder(cols, order)
  {
    FilterKeepsOrder(order, fr.schema.types.Keys, true);
    Filter(order, fr.schema.types.Keys, true)
  }

  /**
   * The flat path: `df.select(...)` of the projected columns when the
   * original order is non-empty, and the data as it is otherwise.
   */
  function Project(fr: Frame, order: seq<string>): Frame {
    if |order| > 0 then Select(fr, ProjectedColumns(order, fr)) else fr
  }

  /**
   * Projecting flat data on an original order without repeats keeps it well
   * typed and flat. The columns are then exactly the names of `order` the
   * data has, in `order`'s order, and every kept cell is unchanged; an empty
   * order changes nothing.
   */
  lemma ProjectWellTyped(fr: Frame, order: seq<string>)
    requires WellTyped(fr) && IsFlat(fr.schema) && Distinct(order)
    ensures WellTyped(Project(fr, order)) && IsFlat(Project(fr, order).schema)
    ensures |order| > 0 ==> forall n :: n in Project(fr, order).schema.order <==> n in order && n in fr.schema.types
    ensures |order| > 0 ==> KeepsOrder(Project(fr, order).schema.order, order)
    ensures |Project(fr, order).rows| == |fr.rows|
    ensures forall k, n :: 0 <= k < |fr.rows| && n in Project(fr, order).schema.types ==>
      n in fr.rows[k] && Project(fr, order).rows[k][n] == fr.rows[k][n]
    ensures |order| == 0 ==> Project(fr, order) == fr
  {
    if |order| > 0 {
      var cols := ProjectedColumns(order, fr);
      SelectWellTyped(fr, cols);
      forall k | 0 <= k < |fr.rows| ensures RowFits(fr.schema, fr.rows[k]) { }
    } else {
      forall k | 0 <= k < |fr.rows| ensures RowFits(fr.schema, fr.rows[k]) { }
    }
  }

  /** `s3_input_key.replace('.json', '.csv')`. */
  function CsvName(key: string): string {
    ReplaceAll(key, ".json", ".csv")
  }

  /** A key ending in its only `.json` gets a `.csv` ending instead and keeps its stem. */
  lemma CsvNameOfJsonKey(stem: string)
    requires !Contains(stem, ".json")
    ensures CsvName(stem + ".json") == stem + ".csv"
  {
    assert ".json"[0] !in ".json"[1..];
    ReplaceFirstAfter(stem, ".json", ".csv", "");
    assert stem + ".json" + "" == stem + ".json";
    assert ReplaceAll("", ".json", ".csv") == "";
  }

  /** A key without `.json` in it is its own CSV name. */
  lemma CsvNameNoJson(key: string)
    requires !Contains(key, ".json")
    ensures CsvName(key) == key
  {
    ReplaceAbsent(key, ".json", ".csv");
  }

  /** `f"s3://{bucket_name}/output/{csv_filename}"`. */
  function OutputPath(bucket: string, key: string): string {
    "s3://" + bucket + "/output/" + CsvName(key)
  }

  /**
   * The output path splits on `/` into the scheme, an empty piece, the
   * bucket, `output` and the pieces of the CSV name: a bucket name without
   * `/` and the CSV name can be read back from it.
   */
  lemma OutputPathPieces(bucket: string, key: string)
    requires '/' !in bucket
    ensures Split(OutputPath(bucket, key), '/') == ["s3:", "", bucket, "output"] + Split(CsvName(key), '/')
    ensures Join(Split(OutputPath(bucket, key), '/')[4..], '/') == CsvName(key)
  {
    var csv := CsvName(key);
    assert OutputPath(bucket, key) == "s3:" + ['/'] + ("" + ['/'] + (bucket + ['/'] + ("output" + ['/'] + csv)));
    SplitAfter4("s3:", "", bucket, "output", '/', csv);
    DropFour("s3:", "", bucket, "output", Split(csv, '/'));
    JoinSplit(csv, '/');
  }

  /** What the job writes: the final dataset and the path of the CSV. */
  datatype Output = Output(frame: Frame, path: string)

  /**
   * The job after reading the input: flat data is projected on the
   * document's own key order (which fails as `get_original_column_order`
   * does), nested data is flattened by the run `frames` of `flatten_json`
   * and never reordered this way. Either way the data written is well typed
   * and flat, to the path derived from the input key.
   */
  method RunJob(d: Frame, doc: Json, bucket: string, key: string) returns (r: Result<Output, OrderError>, ghost frames: seq<Frame>)
    requires WellTyped(d) && SchemaMapFree(d.schema)
    ensures r.Ok? ==> WellTyped(r.value.frame) && IsFlat(r.value.frame.schema)
    ensures r.Ok? ==> r.value.path == OutputPath(bucket, key)
    ensures IsFlat(d.schema) ==> (r.Ok? <==> OriginalColumnOrder(doc).Ok?)
    ensures IsFlat(d.schema) && r.Ok? ==> r.value.frame == Project(d, OriginalColumnOrder(doc).value)
    ensures IsFlat(d.schema) && r.Err? ==> r.error == OriginalColumnOrder(doc).error
    ensures !IsFlat(d.schema) ==> r.Ok? && FlattenRun(d, frames) && r.value.frame == frames[|frames| - 1]
    ensures !IsFlat(d.schema) && AllUnclashed(frames) ==> r.Ok? && Preserves(d, r.value.frame)
  {
    var df := d;
    frames := [d];
    var flat := IsFlattened(d.schema);
    if flat {
      var order := OriginalColumnOrder(doc);
      if order.Err? {
        r := Err(order.error);
        return;
      }
      ProjectWellTyped(d, order.value);
      df := Project(d, order.value);
    } else {
      df, frames := FlattenJson(d);
    }
    var csvFilename := CsvName(key);
    var outputPath := "s3://" + bucket + "/output/" + csvFilename;
    r := Ok(Output(df, outputPath));
  }
}
