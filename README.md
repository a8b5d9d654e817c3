# Data-processing pipeline: flattening job and request handlers

This project models the core of a serverless data-processing pipeline and
proves properties of the model.

**The flattening job.** The JSON-to-CSV job loads an uploaded JSON document
into a data frame. It flattens every nested column in bounded passes. Each
pass:

- expands at most two struct or array columns, scanned in column order;
- expands a struct column into one `<col>_<field>` column per field, keeping
  nulls null, and drops the struct column when the pass ends;
- explodes an array column in place, one row per element, with a null array
  treated as a single null.

Data that is flat from the start is instead projected on the document's own
key order. The job writes the result as CSV under a name derived from the
input key.

**The request handlers.** Around the job sit the handlers:

- the JSON upload handler: header checks, multipart field extraction, the
  storage key, and the availability check with its three attempts;
- the word-cloud handler: its own header checks and part dispatch, plus the
  word-frequency count of the uploaded text;
- `store_data`, which files a user's job records in a map keyed by process
  code;
- the chat lifecycle of `end_conversation` and `agent_reply`, over the
  collection of conversation records they update in place.

**How the model is laid out.**

- Spark data frames: `Dataset`, an ordered schema of typed columns and rows
  of value trees.
- The flattening loop: `Flatten`. The job's top level: `GlueJob`.
- Python's string and JSON behaviour: `Text` and `Json`, covering
  truthiness, last-wins `dict.get`, and key order.
- HTTP and cloud calls: `Http`. Every outside call is a parameter.
- The handlers: `JsonUpload`, `WordCloud` with `Words`, `UserQuery`, and
  `Conversations`.

**What is proved about the job.**

- Every flattening pass keeps every row consistent with the schema.
- Every pass strictly lowers a nesting measure, so the job ends.
- The job's result is flat.
- With no name clash, a pass handles the first two nested columns. Every
  other column keeps its cells. Each handled array holds one of its
  elements, and each handled struct becomes its field columns.
- With no clash in any pass, the result keeps every scalar column of the
  input. Each output row holds the cells of some input row there.
- Flat data keeps the document's keys in the order of their first
  occurrence.

**What is proved about the handlers.** For every branch of a handler's code,
its method states the condition that leads there and the reply it gives:
status code and body text. This covers the 400 checks, the raised errors
(500), each outside call modelled as a parameter that fails (500), and the
200 reply. The method also states what is stored, sent or updated along the
way. The Firestore collection of the chat handlers is an in-memory map
whose calls do not fail (see "Left out").

## Model

| member | source | states |
|---|---|---|
| Dataset.FlatIffWeightless | backend/DataProcessing1/DataProcessing1GlueScript.py:53-57 | a schema has no struct, array or map column exactly when its nesting measure is zero |
| Dataset.OrderWeightZero | backend/DataProcessing1/DataProcessing1GlueScript.py:53-57 | the measure over a column list is zero exactly when every listed typed column is scalar |
| Dataset.SetColumn | backend/DataProcessing1/DataProcessing1GlueScript.py:76-79 | `withColumn` keeps column names unique and typed |
| Dataset.SetColumnMapFree | backend/DataProcessing1/DataProcessing1GlueScript.py:76-84 | `withColumn` with a map-free type keeps the schema map-free |
| Dataset.OrderWeightRetype | backend/DataProcessing1/DataProcessing1GlueScript.py:76-84 | retyping a column changes the measure by exactly the difference of its old and new weight |
| Dataset.OrderWeightMark | backend/DataProcessing1/DataProcessing1GlueScript.py:80 | marking a column for dropping removes exactly its weight |
| Dataset.PendingSetColumn | backend/DataProcessing1/DataProcessing1GlueScript.py:76-84 | `withColumn` changes the pending measure by the column's weight difference |
| Dataset.PendingMark | backend/DataProcessing1/DataProcessing1GlueScript.py:80 | marking a column for dropping removes its weight from what is pending |
| Dataset.Filter | backend/DataProcessing1/DataProcessing1GlueScript.py:91 | the kept names are exactly the listed names in (or not in) the given set; no repeats arise |
| Dataset.FilterKeepsOrder | backend/DataProcessing1/DataProcessing1GlueScript.py:91 | filtering keeps the relative order of the kept names |
| Dataset.FilterWeight | backend/DataProcessing1/DataProcessing1GlueScript.py:91 | the weight of the columns left after dropping equals the pending weight before |
| Dataset.DropSchema | backend/DataProcessing1/DataProcessing1GlueScript.py:91 | `drop` keeps the schema valid |
| Dataset.DropPending | backend/DataProcessing1/DataProcessing1GlueScript.py:91 | dropping the marked columns leaves exactly the measure that was pending |
| Dataset.SelectSchema | backend/DataProcessing1/DataProcessing1GlueScript.py:99 | `select` of distinct existing names gives a valid schema |
| Dataset.FieldColumnName | backend/DataProcessing1/DataProcessing1GlueScript.py:75 | a generated `<col>_<field>` name is longer than, and differs from, its column's name |
| Dataset.FieldColumnNameInjective | backend/DataProcessing1/DataProcessing1GlueScript.py:75 | distinct fields of one struct column generate distinct column names |
| Dataset.SetRowFits | backend/DataProcessing1/DataProcessing1GlueScript.py:76-84 | a row given a value of the new type still fits the schema after `withColumn` |
| Dataset.AddFieldColumnWellTyped | backend/DataProcessing1/DataProcessing1GlueScript.py:76-79 | adding a field column, null where the struct is null, keeps every row consistent with the schema |
| Dataset.ExplodeRow | backend/DataProcessing1/DataProcessing1GlueScript.py:84 | a row explodes into one row per element, in order, equal to the input but for the column; a null array gives exactly the row itself with the column null |
| Dataset.ExplodeRowsAppend | backend/DataProcessing1/DataProcessing1GlueScript.py:84 | explode keeps row order: it distributes over concatenation |
| Dataset.ExplodeRowsCount | backend/DataProcessing1/DataProcessing1GlueScript.py:84 | the number of rows out is the sum of the element counts, one for a null array |
| Dataset.ExplodeRowsFrom | backend/DataProcessing1/DataProcessing1GlueScript.py:84 | every exploded row is some input row with the column set to one of its elements |
| Dataset.ElementsHaveType | backend/DataProcessing1/DataProcessing1GlueScript.py:84 | each element of an array cell has the element type |
| Dataset.ExplodeWellTyped | backend/DataProcessing1/DataProcessing1GlueScript.py:84 | explode keeps the column in place, retypes it to the element type and keeps every row consistent with the schema |
| Dataset.ExplodedRowFits | backend/DataProcessing1/DataProcessing1GlueScript.py:84 | a row whose array cell is replaced by one of its elements fits the retyped schema |
| Dataset.DropWellTyped | backend/DataProcessing1/DataProcessing1GlueScript.py:91 | `drop` keeps rows consistent and removes exactly the named columns |
| Dataset.SelectWellTyped | backend/DataProcessing1/DataProcessing1GlueScript.py:99 | `select` keeps rows consistent and every selected cell unchanged |
| Passes.NestedUpToPrefix | backend/DataProcessing1/DataProcessing1GlueScript.py:67-69 | the nested columns met in a shorter scan start those met in a longer one |
| Passes.NestedUpToMembers | backend/DataProcessing1/DataProcessing1GlueScript.py:67-71 | exactly the nested columns of the scanned prefix are counted |
| Passes.GeneratedNotSelf | backend/DataProcessing1/DataProcessing1GlueScript.py:74-75 | a struct column never generates its own name |
| Passes.ExpandInvStep | backend/DataProcessing1/DataProcessing1GlueScript.py:74-79 | one field column added keeps the expansion invariant (schema, cells, typing) |
| Passes.ExpandPendingStep | backend/DataProcessing1/DataProcessing1GlueScript.py:74-79 | each field column adds at most that field's weight |
| Passes.ExpandStruct | backend/DataProcessing1/DataProcessing1GlueScript.py:73-80 | struct expansion adds `c_f` for each field, null where `c` is null and the field's value otherwise; it changes nothing else, keeps `c` until the pass ends, and lowers the measure by at least one |
| Passes.PassInvStart | backend/DataProcessing1/DataProcessing1GlueScript.py:63-65 | a pass starts with nothing handled and nothing marked for dropping |
| Passes.PassScalarStep | backend/DataProcessing1/DataProcessing1GlueScript.py:67-71 | a scalar column is skipped without being counted |
| Passes.PassStructStep | backend/DataProcessing1/DataProcessing1GlueScript.py:73-81 | a struct column is expanded, marked for dropping and counted |
| Passes.PassArrayStep | backend/DataProcessing1/DataProcessing1GlueScript.py:83-85 | an array column is exploded in place and counted |
| Passes.PassEnd | backend/DataProcessing1/DataProcessing1GlueScript.py:67-69 | a pass over non-flat data handles at least one column; with no name clash, it handles the first nested columns in order |
| Passes.NestedNonEmpty | backend/DataProcessing1/DataProcessing1GlueScript.py:53-57 | a schema that is not flat has a nested column in its column list |
| Passes.PassStart | backend/DataProcessing1/DataProcessing1GlueScript.py:61-91 | a pass is the rest of a pass from its start state |
| Passes.PassFromNext | backend/DataProcessing1/DataProcessing1GlueScript.py:67-89 | a pass that goes on at a column continues from the state the loop body gives |
| Passes.ContentStep | backend/DataProcessing1/DataProcessing1GlueScript.py:71-89 | each loop body keeps the frame tied to the input: every row descends from an input row, every input row without an empty handled array has a descendant, and the schema is what the handled columns made of it |
| Passes.ExplodeCover | backend/DataProcessing1/DataProcessing1GlueScript.py:84 | after an explode, every input row without an empty handled array still has a descendant |
| Passes.ExpandCover | backend/DataProcessing1/DataProcessing1GlueScript.py:73-79 | after a struct expansion, every input row without an empty handled array still has a descendant |
| Passes.DescendsExplode | backend/DataProcessing1/DataProcessing1GlueScript.py:84 | a row whose array cell is replaced by one of its elements still descends from its input row |
| Passes.DescendsExpand | backend/DataProcessing1/DataProcessing1GlueScript.py:73-79 | a row given the field columns of a struct still descends from its input row |
| Passes.ContentDrop | backend/DataProcessing1/DataProcessing1GlueScript.py:91 | dropping the marked struct columns ends the pass in a frame whose schema is the handled shape and whose rows descend from the input rows and cover them |
| Passes.PassStop | backend/DataProcessing1/DataProcessing1GlueScript.py:67-91 | a pass that stops ends in that result for the first nested columns |
| Passes.ProcessColumn | backend/DataProcessing1/DataProcessing1GlueScript.py:71-89 | the loop body is the step `ColumnStep` states: a struct column gets its field columns and is marked for dropping, an array column is exploded, a scalar column is left alone; the column counts exactly when it is nested; the pass invariant holds after it and the rest of the pass is unchanged |
| Passes.FlattenPass | backend/DataProcessing1/DataProcessing1GlueScript.py:63-91 | the pass computes `Pass(d)`: it handles between 1 and 2 columns, lowers the measure by at least the number handled, and with no clash handles the first nested columns |
| Flatten.IsFlattened | backend/DataProcessing1/DataProcessing1GlueScript.py:53-57 | the scan answers true exactly when no column is a struct, array or map |
| Flatten.PassContents | backend/DataProcessing1/DataProcessing1GlueScript.py:61-91 | with no clash, one pass handles the first nested columns: other columns keep their type and cells, each handled array holds one of its elements, each handled struct is replaced by its field columns holding its fields; every output row comes from an input row, and every input row without an empty handled array gives one |
| Flatten.FirstNestedNested | backend/DataProcessing1/DataProcessing1GlueScript.py:67-73 | the columns a pass handles are nested columns of its input |
| Flatten.PassPreserves | backend/DataProcessing1/DataProcessing1GlueScript.py:61-91 | with no clash, a pass keeps every scalar column, and every output row holds the cells of some input row there |
| Flatten.PreservesTrans | backend/DataProcessing1/DataProcessing1GlueScript.py:62 | keeping scalar columns and their cells composes over successive passes |
| Flatten.RunsAgree | backend/DataProcessing1/DataProcessing1GlueScript.py:62-91 | two runs of passes from the same frame agree as far as both reach |
| Flatten.FlattenRunUnique | backend/DataProcessing1/DataProcessing1GlueScript.py:62 | the run of `flatten_json` on a frame is determined by the frame |
| Flatten.RunPreserves | backend/DataProcessing1/DataProcessing1GlueScript.py:62-91 | a run whose passes met no clash keeps the first frame's scalar columns and their cells |
| Flatten.FlattenJson | backend/DataProcessing1/DataProcessing1GlueScript.py:61-93 | the result is the last frame of the run of passes from `d`, ended by the first flat frame; it is consistent and flat; there are at most as many passes as the initial nesting measure; flat input comes back unchanged; with no clash in any pass, every scalar column of `d` is kept and every output row holds the cells of some input row there |
| GlueJob.OriginalColumnOrder | backend/DataProcessing1/DataProcessing1GlueScript.py:41-49 | an object gives its keys; a list gives its first element's keys; an empty list raises IndexError, a non-object first element AttributeError, any other document ValueError; keys are distinct and in the order of their first occurrence |
| GlueJob.OriginalOrderOfObject | backend/DataProcessing1/DataProcessing1GlueScript.py:46-47 | an object with distinct keys gives exactly its keys in text order |
| GlueJob.ProjectedColumns | backend/DataProcessing1/DataProcessing1GlueScript.py:99 | exactly the original-order names present in the data, in original order, without repeats |
| GlueJob.ProjectWellTyped | backend/DataProcessing1/DataProcessing1GlueScript.py:96-99 | projection keeps flat data consistent and flat; its columns are the present original-order names in that order, with cells unchanged; an empty order changes nothing |
| GlueJob.CsvNameOfJsonKey | backend/DataProcessing1/DataProcessing1GlueScript.py:104 | a key ending in its only `.json` gets a `.csv` ending |
| GlueJob.CsvNameNoJson | backend/DataProcessing1/DataProcessing1GlueScript.py:104 | a key without `.json` is its own CSV name |
| GlueJob.OutputPathPieces | backend/DataProcessing1/DataProcessing1GlueScript.py:105 | the output path is `s3://<bucket>/output/<csv name>`, and the bucket and the CSV name can be read back from it |
| GlueJob.RunJob | backend/DataProcessing1/DataProcessing1GlueScript.py:96-105 | flat data is projected on the document's key order, or fails as that order does; nested data is the last frame of the run of `flatten_json`, with no projection, and keeps the input's scalar columns and their cells when no pass met a clash; the output is consistent and flat, at the derived path |
| Text.LowerChar | backend/DataProcessing3/WordCloudLambda.py:33 | ASCII upper-case letters map to lower case; every other character is kept |
| Text.Lower | backend/DataProcessing3/WordCloudLambda.py:91 | lower-casing keeps the length and lower-cases each character |
| Text.LowerIsLower | backend/DataProcessing3/WordCloudLambda.py:91 | lower-casing is idempotent |
| Text.Split | backend/DataProcessing1/jsonUploadLambdaWithMultiPart.py:75 | a split has at least one piece |
| Text.SplitAfter | backend/DataProcessing1/jsonUploadLambdaWithMultiPart.py:75 | a split cuts at the first separator |
| Text.SplitPiecesFree | backend/DataProcessing1/jsonUploadLambdaWithMultiPart.py:75 | no piece contains the separator |
| Text.JoinSplit | backend/DataProcessing1/jsonUploadLambdaWithMultiPart.py:75 | joining the pieces with the separator gives back the string |
| Text.SplitJoin | backend/DataProcessing1/jsonUploadLambdaWithMultiPart.py:75 | splitting a join of separator-free pieces gives back the pieces |
| Text.StripRight | backend/DataProcessing1/jsonUploadLambdaWithMultiPart.py:77 | the result is a prefix without a trailing `c`, and only `c`s were removed |
| Text.Strip | backend/DataProcessing1/jsonUploadLambdaWithMultiPart.py:77 | the result is the inner piece after the leading `c`s; it neither starts nor ends with `c`, and only `c`s were removed |
| Text.StripWrapped | backend/DataProcessing1/jsonUploadLambdaWithMultiPart.py:77 | stripping quotes off a quoted `c`-free value gives the value |
| Text.ReplaceAbsent | backend/DataProcessing1/DataProcessing1GlueScript.py:104 | replacing an absent pattern changes nothing |
| Text.ReplaceFirstAfter | backend/DataProcessing1/DataProcessing1GlueScript.py:104 | the first occurrence after a pattern-free prefix is replaced and the rest is replaced independently |
| Json.Get | backend/PubSub/UserQueryGetFunction.py:21-23 | `dict.get` finds nothing exactly when the key is absent, and otherwise the value of the key's last occurrence |
| Json.Keys | backend/DataProcessing1/DataProcessing1GlueScript.py:47 | `keys()` lists each key of the object exactly once, in the order of its first occurrence |
| Json.FirstAt | backend/DataProcessing1/DataProcessing1GlueScript.py:47 | the position of a key's first occurrence: that member has the key and no earlier one does |
| Json.KeysAfterFirstOrder | backend/DataProcessing1/DataProcessing1GlueScript.py:47 | the listed keys come in the order of their first occurrence |
| Json.KeysInOrder | backend/DataProcessing1/DataProcessing1GlueScript.py:47 | with no repeated key, the keys come in text order |
| Http.Lookup | backend/DataProcessing3/WordCloudLambda.py:27-30 | a dict lookup finds nothing exactly when the key is absent, and otherwise the value of the key's last entry |
| Http.Settled | backend/DataProcessing1/jsonUploadLambdaWithMultiPart.py:114-120 | the number of `NoSuchKey` answers before another answer is at most 3, and exactly the answers before it are `NoSuchKey` |
| Http.ConfirmAvailable | backend/DataProcessing1/jsonUploadLambdaWithMultiPart.py:114-126 | the check makes 1 to 3 calls; it confirms exactly when a call finds the file before any other answer, gives up exactly after 3 `NoSuchKey`, and otherwise passes on the error |
| Http.FileNameInjective | backend/DataProcessing1/jsonUploadLambdaWithMultiPart.py:98 | for one uuid, different emails give different storage keys |
| JsonUpload.ContentTypeOf | backend/DataProcessing1/jsonUploadLambdaWithMultiPart.py:29-33 | no value exactly when no header name lower-cases to `content-type`; otherwise the value of the first such header |
| JsonUpload.FindContentType | backend/DataProcessing1/jsonUploadLambdaWithMultiPart.py:29-33 | the header loop with its `break` finds the first case-insensitive match |
| JsonUpload.FirstWith | backend/DataProcessing1/jsonUploadLambdaWithMultiPart.py:75-76 | the index of the first parameter containing `name`, or none |
| JsonUpload.NameInFirst | backend/DataProcessing1/jsonUploadLambdaWithMultiPart.py:75-78 | only the first parameter containing `name` decides the part name |
| JsonUpload.NameOfCases | backend/DataProcessing1/jsonUploadLambdaWithMultiPart.py:75-78 | a part has no name exactly when no parameter contains `name`; reading it raises exactly when that parameter has no `=` |
| JsonUpload.PartName | backend/DataProcessing1/jsonUploadLambdaWithMultiPart.py:74-78 | the parameter loop with its `break` reads the part name |
| JsonUpload.NameOfFormData | backend/DataProcessing1/jsonUploadLambdaWithMultiPart.py:74-78 | `form-data; name="n"` gives the name `n` when `n` holds no `;`, `=` or `"` |
| JsonUpload.Names | backend/DataProcessing1/jsonUploadLambdaWithMultiPart.py:71-78 | one name per part, when every name can be read |
| JsonUpload.NamesOk | backend/DataProcessing1/jsonUploadLambdaWithMultiPart.py:71-78 | the names are read exactly when every part's name can be read, each from its own Content-Disposition |
| JsonUpload.NamesErrPrefix | backend/DataProcessing1/jsonUploadLambdaWithMultiPart.py:71-78 | once a part name raises, later parts do not matter |
| JsonUpload.LastPartWins | backend/DataProcessing1/jsonUploadLambdaWithMultiPart.py:80-85 | the last part named `file`, `email` or `role` decides that field |
| JsonUpload.NoPartNamed | backend/DataProcessing1/jsonUploadLambdaWithMultiPart.py:67-85 | without such a part: no file, no email, role `guest` |
| JsonUpload.ExtractFields | backend/DataProcessing1/jsonUploadLambdaWithMultiPart.py:66-85 | the part loop gives the dispatched fields or the first name error |
| JsonUpload.OrGuest | backend/DataProcessing1/jsonUploadLambdaWithMultiPart.py:96 | `value or 'guest'` is never empty and keeps a non-empty value |
| JsonUpload.HandleUpload | backend/DataProcessing1/jsonUploadLambdaWithMultiPart.py:17-149 | 400 in the order: no headers, no Content-Type, not multipart (case-sensitive), an undecodable body, no file; an unreadable name raises; the upload happens exactly when admitted and `put_object` works, under `<email>_<uuid>.json`; once admitted the reply is 200 or 500: the `put_object`, check or trigger error, or `NotAvailable` after 3 `NoSuchKey`; the trigger happens exactly after confirmation, and 200 exactly then |
| WordCloud.SlotOf | backend/DataProcessing3/WordCloudLambda.py:51-57 | a part fills file, email or role by the first of `name="file"`, `name="email"`, `name="role"` its Content-Disposition contains |
| WordCloud.FileNameParamSelects | backend/DataProcessing3/WordCloudLambda.py:52 | the substring test also matches `filename="file"` |
| WordCloud.LastPartWins | backend/DataProcessing3/WordCloudLambda.py:49-57 | the last part for a field decides it |
| WordCloud.NoPartFor | backend/DataProcessing3/WordCloudLambda.py:47-57 | without a part for a field: no file, `guest` for email and role |
| WordCloud.ExtractFields | backend/DataProcessing3/WordCloudLambda.py:47-57 | the part loop gives the dispatched fields |
| WordCloud.Admit | backend/DataProcessing3/WordCloudLambda.py:27-60 | 400 for missing headers or a missing lowercase `content-type` key, then for a non-multipart type (case-insensitive), an undecodable body, no file; admitted exactly otherwise |
| WordCloud.Store | backend/DataProcessing3/WordCloudLambda.py:67-88 | the upload happens exactly when `put_object` works, under `<email>_<uuid>.txt`; processing goes on exactly when the file is confirmed; otherwise 500 with the `put_object` or check error, or `NotAvailable` after 3 `NoSuchKey` |
| WordCloud.Publish | backend/DataProcessing3/WordCloudLambda.py:90-148 | posts the word frequencies of the lower-cased text, then the notice, then the metadata (file size = byte length), each only after the previous succeeded; a failing call gives 500 with its error; 200 exactly when all succeed |
| WordCloud.HandleWordCloud | backend/DataProcessing3/WordCloudLambda.py:23-148 | the checks with their 400 replies; the upload; each outside call in order; once admitted the reply is 200 or 500, each 500 with the failing step's error or `NotAvailable`; 200 exactly when the metadata is written |
| Words.RunLength | backend/DataProcessing3/WordCloudLambda.py:91 | the maximal run of word characters at the start |
| Words.Tokens | backend/DataProcessing3/WordCloudLambda.py:91 | every match is a non-empty run of word characters |
| Words.TokensOfWord | backend/DataProcessing3/WordCloudLambda.py:91 | a word is its own single match |
| Words.TokensSplitAt | backend/DataProcessing3/WordCloudLambda.py:91 | a non-word character separates the matches of the two sides, order kept |
| Words.TokensLower | backend/DataProcessing3/WordCloudLambda.py:91 | the matches of a lower-case text are lower case |
| Words.Count | backend/DataProcessing3/WordCloudLambda.py:92 | `count` is positive exactly for words that occur |
| Words.CountIsMultiplicity | backend/DataProcessing3/WordCloudLambda.py:92 | `count` is the multiplicity in the multiset of words |
| Words.Frequency | backend/DataProcessing3/WordCloudLambda.py:92 | the keys are exactly the distinct words, each mapped to its number of occurrences |
| Words.Unique | backend/DataProcessing3/WordCloudLambda.py:92 | `set(words)` as a list: distinct, the same elements |
| Words.CountSumUnique | backend/DataProcessing3/WordCloudLambda.py:92 | the counts over the distinct words add up to the number of words |
| Words.SumFrequency | backend/DataProcessing3/WordCloudLambda.py:92 | summing frequency entries is summing counts |
| Words.FrequencyTotal | backend/DataProcessing3/WordCloudLambda.py:91-92 | the frequency values add up to the number of matches |
| Words.WordFrequencyKeys | backend/DataProcessing3/WordCloudLambda.py:91-92 | every key is a non-empty lower-case run of word characters |
| UserQuery.ReplyTo | backend/PubSub/UserQueryGetFunction.py:65-67 | a rejection becomes 400 with its message, an exception 500 with its text |
| UserQuery.EntryOf | backend/PubSub/UserQueryGetFunction.py:36-47 | an entry has the ten stored names in order |
| UserQuery.EntryFields | backend/PubSub/UserQueryGetFunction.py:36-47 | each stored field holds the record's value under its source name, null when absent |
| UserQuery.FailureOf | backend/PubSub/UserQueryGetFunction.py:31-33 | a dict record without a truthy code is rejected with 400; a non-dict record or an unhashable code raises |
| UserQuery.ProcessMapOk | backend/PubSub/UserQueryGetFunction.py:29-36 | the loop succeeds exactly when every record is acceptable |
| UserQuery.ProcessMapKeys | backend/PubSub/UserQueryGetFunction.py:29-36 | the map's keys are exactly the records' codes |
| UserQuery.ProcessMapNext | backend/PubSub/UserQueryGetFunction.py:36-47 | after a successful prefix, an acceptable record is filed under its code with its renamed entry |
| UserQuery.ProcessMapErrPrefix | backend/PubSub/UserQueryGetFunction.py:30-33 | once a record fails, later records do not matter |
| UserQuery.FirstBadRecord | backend/PubSub/UserQueryGetFunction.py:30-33 | the first failing record decides the failure; a missing code gives the 400 message |
| UserQuery.LastRecordWins | backend/PubSub/UserQueryGetFunction.py:36 | for a duplicate code, the last record's entry is kept |
| UserQuery.BuildProcessMap | backend/PubSub/UserQueryGetFunction.py:29-47 | the loop filling `process_map` in place computes the map or the first failure |
| UserQuery.Iterate | backend/PubSub/UserQueryGetFunction.py:30 | only a list iterates into records, its own items |
| UserQuery.Validate | backend/PubSub/UserQueryGetFunction.py:14-26 | 400 for no data; 500 for a non-dict payload; 400 for a missing email, role or data; passes exactly otherwise |
| UserQuery.StoreData | backend/PubSub/UserQueryGetFunction.py:10-67 | one write, of `{user_email, role, process_codes}` under the email, exactly when all checks and records pass, the client accepts the write as `Refusal` states, and the write works; the first failing check or record gives its reply; then 500 for an email that is not a string (`document(user_email)` raises), 500 for a refused field name (a non-string code, or an empty key under `role` or a stored field), 500 for an integer outside 64 bits, and 500 with its error for a failing write; nothing written on any failure; 200 exactly then, naming the email |
| UserQuery.Refusal | backend/PubSub/UserQueryGetFunction.py:50-60 | the client refuses the write exactly when the email is not a string (first), a field name is refused: a non-string code, or an empty key in a dict reached through dicts from `role` or a stored field (then), or an integer outside 64 bits sits in `role` or a stored field (last) |
| UserQuery.GetOfLast | backend/PubSub/UserQueryGetFunction.py:37-46 | `d.get` of a key gives the value of its last member |
| UserQuery.EmptyFieldNameGet | backend/PubSub/UserQueryGetFunction.py:53-60 | the walk for empty field names sees the dict Python builds: an empty key, or an empty name in the value `d.get` gives for some key |
| Conversations.Unassign | backend/PubSub/EndConversationFunction.py:46-71 | ending an assignment sets the given status (`resolved` for an agent, `closed` for a user) and unassigns the agent, keeping the user and the messages |
| Conversations.ArrayUnion | backend/PubSub/AgentReplyFunction.py:59-65 | the message is in the result; the elements are the old ones plus it; it is appended only when new; an array without repeats stays so |
| Conversations.ArrayUnionIdempotent | backend/PubSub/AgentReplyFunction.py:59-65 | adding the same message twice is adding it once |
| Conversations.AgentMessageFields | backend/PubSub/AgentReplyFunction.py:60-64 | the added message has sender `agent`, the agent's email and the message |
| Conversations.ConversationStore.EndByAgent | backend/PubSub/EndConversationFunction.py:31-54 | 404 when no conversation is assigned to the agent; otherwise some assigned one is taken: a record without `user_email` raises, `yes` resolves it, `no` changes nothing |
| Conversations.ConversationStore.EndByUser | backend/PubSub/EndConversationFunction.py:57-73 | 500 for an email that is not a string; the conversation keyed by the user's email is closed; 404 when it is missing |
| Conversations.ConversationStore.EndConversation | backend/PubSub/EndConversationFunction.py:8-79 | 400 missing body; 500 non-dict; 400 missing fields; 400 bad status for an agent; then the agent branch as `EndByAgent` states (404, 500 `KeyError`, 200 resolved, 200 kept) and the user branch as `EndByUser` states (500 non-string email, 404, 200 closed); 400 invalid role otherwise (agent role with only a user email included); only a success changes the collection |
| Conversations.ConversationStore.AddReply | backend/PubSub/AgentReplyFunction.py:45-65 | 404 for an unknown code, 403 for an agent not assigned; otherwise the message is array-unioned into that conversation and nothing else changes |
| Conversations.ConversationStore.AgentReply | backend/PubSub/AgentReplyFunction.py:7-80 | OPTIONS gives 204 with the preflight headers and no change; then 400, 500, 400, then 500 for a non-string code, 404, 403 in that order; 200 exactly when the reply is added |

## Left out

- Reading and writing S3, the CSV write, the one-minute wait, reading the CSV back and the job's metadata `put_item`: the data frame Spark reads and the parsed document are parameters, and only the written frame and its path are modelled.
- Flatten.FlattenJson: requires a schema without map columns. Spark's `explode` of a map and `lit({})` give engine-defined output the source does not show, so the map branch at DataProcessing1GlueScript.py:87-89 is not modelled. `is_flattened` still treats maps as nested.
- An empty array explodes to no rows, as the code at DataProcessing1GlueScript.py:84 does: only a null array is replaced by a one-null array, so an empty one does not become a single null row.
- Column placement by `withColumn` is modelled as a same-named column replaced in place, otherwise the column appended; generated names are not assumed to be fresh.
- Dataset.SetColumn: column names are compared exactly, as literal, case-sensitive strings. The job's Spark session resolves names case-insensitively by default, so `withColumn("A_b", ...)` replaces an existing `a_B`, after which `df.schema["a_B"]` at DataProcessing1GlueScript.py:71 raises `KeyError`; that case is not modelled. `Passes.NoClash` and `Passes.Unclashed` compare names exactly too.
- Column names are taken to be free of `.` and backticks. `col(name)` and `select` at DataProcessing1GlueScript.py:76-84 and :99 read a `.` as nested-field access, so a JSON key such as `"a.b"` makes the job raise `AnalysisException`, where the model flattens or projects the frame.
- Passes.FlattenPass: the pass handles the first nested columns only under `NoClash`. A generated `<col>_<field>` name that is already a column is overwritten, and the pass then works from the retyped column.
- Flatten.FlattenJson: what the output holds (scalar columns and their cells kept, rows descended from input rows) is proved only for runs whose passes met no clash. A clash means a generated name is already a column, or two struct columns generate the same name. The column order of the flattened output is not stated.
- Floating-point values, `decimal_to_float` and JSON numbers other than integers are not modelled.
- JsonUpload.ContentTypeOf: the headers are taken to name each header once, as a dict does. For a header list that repeats a name, the first entry's value is used.
- Response bodies are the message text: `json.dumps` quoting and the `{'error': ...}` wrapping are not modelled.
- Words.Tokens: `\w` and `.lower()` are ASCII only. Unicode word characters and case mappings are not modelled.
- Decoding uploaded bytes as UTF-8 is not modelled: a part carries both its bytes and its text.
- `MultipartDecoder`, the base64 decoding of the body and a missing `isBase64Encoded` key are not modelled. The decoder's result, parts or error, is a parameter.
- The uuids, `time.time()`, the cloud calls (`put_object`, `head_object`, `invoke`, the HTTP posts, `put_item`) and the ten-second waits are parameters. Each call succeeds or fails with a given error text.
- `request.get_json()` parse failures are not modelled: the parsed body, or its absence, is a parameter.
- UserQuery.StoreData: Firestore's `set(..., merge=True)` is returned as the single write it asks for; the merge with an existing document is not modelled.
- UserQuery.Refusal: the Firestore client's exact error texts are not modelled. Fixed texts stand for them, and a mix of string and non-string codes, which Python fails to sort, gives the same text as a non-string code. An email containing `/`, which the client reads as a path, is not modelled: every string email names a document. Refusals made by the Firestore service rather than the client (nested arrays, size limits, empty keys in dicts inside lists) are left to the write's error parameter.
- Python's equal keys of different types (`1`, `1.0` and `True` are one dict key) are not modelled: `process_map` keys are compared as JSON values.
- Conversations.ConversationStore.EndConversation: for a user email that is not a string, the Firestore client's error message is not modelled. A fixed text stands for it. An email containing `/`, which the client reads as a path rather than a document id, is not modelled: every string email names a document.
- Conversations.ConversationStore.AddReply: for a process code that is not a string, the Firestore client's error message is not modelled. A fixed text stands for it. Document ids containing `/` are not modelled either.
- Conversations.ConversationStore: the collection is an in-memory map whose reads, queries and updates never fail. The source answers 500 with the error text when a Firestore call fails (EndConversationFunction.py:78-79, AgentReplyFunction.py:78-80); that is not modelled. This includes a failing re-read after a reply is added (AgentReplyFunction.py:68), where the source answers 500 with the message already stored, while `AgentReply` promises no change on any reply but 200.
- Http.Event: `headers` is `None` only for an absent key, which gives each handler's 400 for missing headers. A `headers` key with a null value, on which both handlers raise `TypeError` (jsonUploadLambdaWithMultiPart.py:30, WordCloudLambda.py:27), is not modelled.
- Conversations.ConversationStore.EndByAgent: the conversation chosen by `where(...).limit(1)` is some conversation assigned to the agent. The engine's order is not modelled.
- Conversations.ArrayUnion: Firestore's `ArrayUnion` on a field that is not an array is not modelled. A missing `messages` field is the empty array.
- Conversations.ArrayUnion: messages are compared as JSON values with their members in order. Firestore compares maps by content, so two messages that differ only in key order count as different here.
- The handlers' debug logging is not modelled.
