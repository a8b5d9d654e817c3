/**
 * `store_data`, the HTTP function that files a user's job records: it checks
 * the JSON payload, builds the map from each record's `process_code` to a
 * fixed renaming of the record's fields, and writes one document
 * `{user_email, role, process_codes}` keyed by the user's email; Firestore
 * refuses an email or a code that is not a string. The payload
 * arrives parsed (or absent); the write is returned instead of performed.
 */
module UserQuery {
  import opened Wrappers
  import opened Json
  import opened Http

  const NoData := "No data provided"
  const MissingFields := "Missing required fields in payload"
  const MissingCode := "Each record must contain a process_code"

  /** How handling a payload goes wrong: a 400 reply with a message, or an exception turned into a 500 reply. */
  datatype Failure = Rejected(message: string) | Crashed(error: string)

  /** The reply a failure ends in. */
  function ReplyTo(f: Failure): (r: Response)
    ensures f.Rejected? ==> r == Response(400, f.message)
    ensures f.Crashed? ==> r == Response(500, f.error)
  {
    match f
    case Rejected(m) => Response(400, m)
    case Crashed(e) => Response(500, e)
  }

  /** The field names of a stored entry, each with the record field it is copied from. */
  const Renaming: seq<(string, string)> := [
    ("job_status", "JobStatus"),
    ("processed_file_name", "processed_file_name"),
    ("row_count", "RowCount"),
    ("s3_csv_file_path", "S3CsvFilePath"),
    ("s3_json_file_path", "S3JsonFilePath"),
    ("schema_types", "SchemaTypes"),
    ("timestamp", "Timestamp"),
    ("filename", "filename"),
    ("file_size", "file_size"),
    ("Url", "Url")
  ]

  /** The entry stored for a record: each renamed field holds the record's value, or null where the record lacks it. */
  type Entry = seq<(string, Json)>

  function EntryOf(record: seq<(string, Json)>): (e: Entry)
    ensures |e| == |Renaming|
    ensures forall i :: 0 <= i < |e| ==> e[i].0 == Renaming[i].0
  {
    seq(|Renaming|, i requires 0 <= i < |Renaming| => (Renaming[i].0, GetOrNull(record, Renaming[i].1)))
  }

  /** The stored names are all different. */
  lemma RenamingDistinct()
    ensures forall i, j :: 0 <= i < j < |Renaming| ==> Renaming[i].0 != Renaming[j].0
  {
  }

  /**
   * Reading a stored field back gives the record's value under the field's
   * source name, null when the record lacks it: each entry is the fixed
   * renaming of its record.
   */
  lemma EntryFields(record: seq<(string, Json)>, i: nat)
    requires i < |Renaming|
    ensures Get(EntryOf(record), Renaming[i].0) == Some(GetOrNull(record, Renaming[i].1))
    ensures Get(record, Renaming[i].1).None? ==> Get(EntryOf(record), Renaming[i].0) == Some(JNull)
  {
    RenamingDistinct();
    assert EntryOf(record)[i] == (Renaming[i].0, GetOrNull(record, Renaming[i].1));
  }

  /** What makes a record acceptable: a dict whose `process_code` is truthy and can be a dict key. */
  predicate RecordOk(record: Json) {
    record.JObj? && Truthy(GetOrNull(record.members, "process_code")) &&
    !GetOrNull(record.members, "process_code").JArr? && !GetOrNull(record.members, "process_code").JObj?
  }

  /** The code a record is filed under. */
  function CodeOf(record: Json): Json
    requires record.JObj?
  {
    GetOrNull(record.members, "process_code")
  }

  /** The exception or the 400 reply an unacceptable record ends the loop with. */
  function FailureOf(record: Json): (f: Failure)
    requires !RecordOk(record)
    ensures f.Rejected? <==> record.JObj? && !Truthy(CodeOf(record))
    ensures f.Rejected? ==> f.message == MissingCode
  {
    if !record.JObj? then Crashed(NoGet(record))
    else if !Truthy(CodeOf(record)) then Rejected(MissingCode)
    else Crashed("unhashable type: '" + TypeName(CodeOf(record)) + "'")
  }

  /** One turn of the loop: file `record` in `m` under its code, or fail. */
  function Step(m: map<Json, Entry>, record: Json): Result<map<Json, Entry>, Failure> {
    if RecordOk(record) then Ok(m[CodeOf(record) := EntryOf(record.members)]) else Err(FailureOf(record))
  }

  /** The map after the loop over `records`, or the failure of the first record that fails. */
  function ProcessMap(records: seq<Json>): Result<map<Json, Entry>, Failure> {
    if |records| == 0 then Ok(map[])
    else
      match ProcessMap(records[..|records| - 1])
      case Err(f) => Err(f)
      case Ok(m) => Step(m, records[|records| - 1])
  }

  /** The loop succeeds exactly when every record is acceptable. */
  lemma {:induction false} ProcessMapOk(records: seq<Json>)
    ensures ProcessMap(records).Ok? <==> forall k :: 0 <= k < |records| ==> RecordOk(records[k])
  {
    if |records| > 0 {
      var init := records[..|records| - 1];
      ProcessMapOk(init);
      assert forall k :: 0 <= k < |init| ==> init[k] == records[k];
    }
  }

  /** The keys of the map the loop builds are exactly the records' codes. */
  lemma {:induction false} ProcessMapKeys(records: seq<Json>)
    requires ProcessMap(records).Ok?
    ensures forall k :: 0 <= k < |records| ==> records[k].JObj?
    ensures forall c :: c in ProcessMap(records).value <==> exists k :: 0 <= k < |records| && CodeOf(records[k]) == c
  {
    ProcessMapOk(records);
    if |records| > 0 {
      var init, last := records[..|records| - 1], records[|records| - 1];
      assert forall k :: 0 <= k < |init| ==> init[k] == records[k];
      ProcessMapKeys(init);
      var m := ProcessMap(init).value;
      assert ProcessMap(records).value == m[CodeOf(last) := EntryOf(last.members)];
      forall c | c in ProcessMap(records).value
        ensures exists k :: 0 <= k < |records| && CodeOf(records[k]) == c
      {
        if c != CodeOf(last) {
          var k :| 0 <= k < |init| && CodeOf(init[k]) == c;
          assert CodeOf(records[k]) == c;
        } else {
          assert CodeOf(records[|records| - 1]) == c;
        }
      }
      forall k | 0 <= k < |records| ensures CodeOf(records[k]) in ProcessMap(records).value {
        if k < |init| {
          assert CodeOf(init[k]) in m;
        }
      }
    }
  }

  /** A failing record stops the loop: later records do not matter. */
  lemma {:induction false} ProcessMapErrPrefix(records: seq<Json>, k: nat)
    requires k <= |records| && ProcessMap(records[..k]).Err?
    ensures ProcessMap(records) == ProcessMap(records[..k])
    decreases |records|
  {
    if k < |records| {
      var init := records[..|records| - 1];
      assert init[..k] == records[..k];
      ProcessMapErrPrefix(init, k);
    } else {
      assert records[..k] == records;
    }
  }

  /**
   * The first unacceptable record decides the failure, whatever follows it:
   * after records that were all filed, a dict record without a truthy
   * `process_code` makes the whole loop fail with the 400 message.
   */
  lemma {:induction false} FirstBadRecord(records: seq<Json>, k: nat)
    requires k < |records| && ProcessMap(records[..k]).Ok? && !RecordOk(records[k])
    decreases |records|
    ensures ProcessMap(records) == Err(FailureOf(records[k]))
    ensures records[k].JObj? && !Truthy(CodeOf(records[k])) ==> ProcessMap(records) == Err(Rejected(MissingCode))
  {
    var init := records[..|records| - 1];
    if k < |init| {
      assert init[..k] == records[..k] && init[k] == records[k];
      FirstBadRecord(init, k);
    } else {
      assert init == records[..k];
    }
  }

  /** For a code given by several records, the last of them decides the entry. */
  lemma {:induction false} LastRecordWins(records: seq<Json>, i: nat)
    requires i < |records| && ProcessMap(records).Ok?
    requires records[i].JObj? && forall j :: i < j < |records| && records[j].JObj? ==> CodeOf(records[j]) != CodeOf(records[i])
    ensures CodeOf(records[i]) in ProcessMap(records).value
    ensures ProcessMap(records).value[CodeOf(records[i])] == EntryOf(records[i].members)
  {
    var init := records[..|records| - 1];
    if i < |records| - 1 {
      assert init[i] == records[i];
      assert forall j :: i < j < |init| ==> init[j] == records[j];
      LastRecordWins(init, i);
    }
  }

  /** One more acceptable record after a successful prefix is filed under its code. */
  lemma ProcessMapNext(records: seq<Json>, k: nat, m: map<Json, Entry>)
    requires k < |records| && ProcessMap(records[..k]) == Ok(m) && RecordOk(records[k])
    ensures ProcessMap(records[..k + 1]) == Ok(m[CodeOf(records[k]) := EntryOf(records[k].members)])
  {
    assert records[..k + 1][..k] == records[..k];
  }

  /** The loop over the records, filling `process_map` in place. */
  method BuildProcessMap(records: seq<Json>) returns (r: Result<map<Json, Entry>, Failure>)
    ensures r == ProcessMap(records)
  {
    var processMap: map<Json, Entry> := map[];
    var k := 0;
    while k < |records|
      invariant k <= |records|
      invariant ProcessMap(records[..k]) == Ok(processMap)
    {
      var record := records[k];
      if !record.JObj? {
        FirstBadRecord(records, k);
        return Err(Crashed(NoGet(record)));
      }
      var processCode := GetOrNull(record.members, "process_code");
      if !Truthy(processCode) {
        FirstBadRecord(records, k);
        return Err(Rejected(MissingCode));
      }
      if processCode.JArr? || processCode.JObj? {
        FirstBadRecord(records, k);
        return Err(Crashed("unhashable type: '" + TypeName(processCode) + "'"));
      }
      ProcessMapNext(records, k, processMap);
      processMap := processMap[processCode := EntryOf(record.members)];
      k := k + 1;
    }
    assert records[..k] == records;
    return Ok(processMap);
  }

  /**
   * `for record in records` over the value of `data`: a list gives its
   * items; a string or a dict gives strings (its characters or keys), the
   * first of which has no `.get`; a number or a boolean cannot be iterated.
   */
  function Iterate(records: Json): (r: Result<seq<Json>, Failure>)
    requires Truthy(records)
    ensures records.JArr? <==> r.Ok?
    ensures r.Ok? ==> r.value == records.items
  {
    match records
    case JArr(items) => Ok(items)
    case JStr(_) => Err(Crashed(NoGet(JStr(""))))
    case JObj(_) => Err(Crashed(NoGet(JStr(""))))
    case _ => Err(Crashed("'" + TypeName(records) + "' object is not iterable"))
  }

  /** The document written for a user. */
  datatype UserDoc = UserDoc(userEmail: Json, role: Json, processCodes: map<Json, Entry>)

  /** `doc_ref.set(doc_data, merge=True)` on the document named by `docId`. */
  datatype Write = Write(docId: Json, doc: UserDoc)

  /** The fields `store_data` reads from a payload dict: `user_email`, `role`, and `data` (an empty list when absent). */
  datatype Request = Request(userEmail: Json, role: Json, records: Json)

  function RequestOf(members: seq<(string, Json)>): Request {
    Request(GetOrNull(members, "user_email"), GetOrNull(members, "role"), Get(members, "data").GetOr(JArr([])))
  }

  /** Whether a payload gets past the checks before the loop. */
  predicate Complete(data: Json) {
    data.JObj? && Truthy(RequestOf(data.members).userEmail) && Truthy(RequestOf(data.members).role) &&
    Truthy(RequestOf(data.members).records)
  }

  /**
   * The checks before the loop, in order: an absent or falsy payload gives
   * 400, one that is not a dict raises (500) at its first `.get`, and a
   * falsy `user_email`, `role` or `data` (absent counts as falsy) gives 400.
   */
  method Validate(payload: Option<Json>) returns (r: Result<Request, Response>)
    ensures payload.None? || !Truthy(payload.value) ==> r == Err(Response(400, NoData))
    ensures payload.Some? && Truthy(payload.value) && !payload.value.JObj? ==> r == Err(Response(500, NoGet(payload.value)))
    ensures (payload.Some? && payload.value.JObj? && Truthy(payload.value) && !Complete(payload.value)) ==>
      r == Err(Response(400, MissingFields))
    ensures r.Ok? <==> payload.Some? && Complete(payload.value)
    ensures r.Ok? ==> r.value == RequestOf(payload.value.members)
  {
    if payload.None? || !Truthy(payload.value) {
      return Err(Response(400, NoData));
    }
    var data := payload.value;
    if !data.JObj? {
      return Err(Response(500, NoGet(data)));
    }
    var userEmail := GetOrNull(data.members, "user_email");
    var role := GetOrNull(data.members, "role");
    var records := Get(data.members, "data").GetOr(JArr([]));
    if !Truthy(userEmail) || !Truthy(role) || !Truthy(records) {
      return Err(Response(400, MissingFields));
    }
    return Ok(Request(userEmail, role, records));
  }

  /** The loop's result for a request's `data`: its items filed, or the failure of iterating or of a record. */
  function Filed(records: Json): Result<map<Json, Entry>, Failure>
    requires Truthy(records)
  {
    match Iterate(records)
    case Err(f) => Err(f)
    case Ok(items) => ProcessMap(items)
  }

  /** Firestore can store the map: every code is a string, so it can be a field name. */
  predicate StringKeys(m: map<Json, Entry>) {
    forall c :: c in m ==> c.JStr?
  }

  /** Member `i` holds the value the dict parsed from `members` keeps for its key: no later member repeats the key. */
  predicate LastOfKey(members: seq<(string, Json)>, i: int)
    requires 0 <= i < |members|
  {
    forall j :: i < j < |members| ==> members[j].0 != members[i].0
  }

  /**
   * A dict that `set(..., merge=True)` walks into has an empty key. The
   * write turns each key of a dict reached through dicts (not through
   * lists) into a field name, and the client refuses an empty one.
   */
  predicate EmptyFieldName(j: Json) {
    match j
    case JObj(members) =>
      exists i :: 0 <= i < |members| && LastOfKey(members, i) &&
        (members[i].0 == "" || EmptyFieldName(members[i].1))
    case _ => false
  }

  const MinInt64 := -0x8000_0000_0000_0000
  const MaxInt64 := 0x7FFF_FFFF_FFFF_FFFF

  /** The value holds, anywhere inside, an integer Firestore cannot store in its 64 bits. */
  predicate WideInteger(j: Json) {
    match j
    case JNum(n) => n < MinInt64 || MaxInt64 < n
    case JArr(items) => exists i :: 0 <= i < |items| && WideInteger(items[i])
    case JObj(members) => exists i :: 0 <= i < |members| && LastOfKey(members, i) && WideInteger(members[i].1)
    case _ => false
  }

  /** The write refuses a field name: a code that is not a string, or an empty key under `role` or under a stored field. */
  predicate NameRefused(role: Json, m: map<Json, Entry>) {
    !StringKeys(m) || EmptyFieldName(role) ||
    exists c, i :: c in m && 0 <= i < |m[c]| && EmptyFieldName(m[c][i].1)
  }

  /** The write cannot encode an integer under `role` or under a stored field. */
  predicate IntegerRefused(role: Json, m: map<Json, Entry>) {
    WideInteger(role) || exists c, i :: c in m && 0 <= i < |m[c]| && WideInteger(m[c][i].1)
  }

  /** `d.get` of a member's key gives that member's value when no later member repeats the key. */
  lemma GetOfLast(members: seq<(string, Json)>, i: int)
    requires 0 <= i < |members| && LastOfKey(members, i)
    ensures Get(members, members[i].0) == Some(members[i].1)
  {
    var k := members[i].0;
    var i' :| 0 <= i' < |members| && members[i'] == (k, Get(members, k).value) &&
              (forall j :: i' < j < |members| ==> members[j].0 != k);
    assert i' == i;
  }

  /**
   * An empty field name is found in a dict exactly when one of its keys is
   * empty or the value `d.get` gives for one of its keys holds one: the walk
   * sees the dict Python builds, not the repeated members of the text.
   */
  lemma EmptyFieldNameGet(members: seq<(string, Json)>)
    ensures EmptyFieldName(JObj(members)) <==>
      exists k :: Get(members, k).Some? && (k == "" || EmptyFieldName(Get(members, k).value))
  {
    if EmptyFieldName(JObj(members)) {
      var i :| 0 <= i < |members| && LastOfKey(members, i) && (members[i].0 == "" || EmptyFieldName(members[i].1));
      GetOfLast(members, i);
      var k := members[i].0;
      assert Get(members, k).Some? && (k == "" || EmptyFieldName(Get(members, k).value));
    }
    if exists k :: Get(members, k).Some? && (k == "" || EmptyFieldName(Get(members, k).value)) {
      var k :| Get(members, k).Some? && (k == "" || EmptyFieldName(Get(members, k).value));
      var v := Get(members, k).value;
      var i :| 0 <= i < |members| && members[i] == (k, v) && (forall j :: i < j < |members| ==> members[j].0 != k);
      assert LastOfKey(members, i) && (members[i].0 == "" || EmptyFieldName(members[i].1));
    }
  }

  /**
   * What the write of a request whose records were filed into `m` raises, if
   * anything, in the client's order: the document id first, then the field
   * names while the fields are listed, then the values while they are
   * encoded.
   */
  function Refusal(req: Request, m: map<Json, Entry>): (e: Option<string>)
    ensures e.None? <==> req.userEmail.JStr? && !NameRefused(req.role, m) && !IntegerRefused(req.role, m)
    ensures !req.userEmail.JStr? ==> e == Some(BadDocumentId)
    ensures req.userEmail.JStr? && NameRefused(req.role, m) ==> e == Some(BadFieldPath)
    ensures req.userEmail.JStr? && !NameRefused(req.role, m) && IntegerRefused(req.role, m) ==> e == Some(BadInteger)
  {
    if !req.userEmail.JStr? then Some(BadDocumentId)
    else if NameRefused(req.role, m) then Some(BadFieldPath)
    else if IntegerRefused(req.role, m) then Some(BadInteger)
    else None
  }

  /**
   * `store_data`. The checks of `Validate` come first; then the records are
   * filed, and a failing record stops everything before the write, which
   * happens once, after the loop. `document(user_email)` raises for an
   * email that is not a string, and the client refuses a write with a code
   * that is not a string, an empty field name or an integer wider than 64
   * bits, each a 500; so does a write that fails otherwise. The reply is
   * 200 exactly when the write succeeds, and nothing is written otherwise.
   */
  method StoreData(payload: Option<Json>, writeError: Option<string>) returns (out: Response, write: Option<Write>)
    ensures payload.None? || !Truthy(payload.value) ==> out == Response(400, NoData) && write.None?
    ensures payload.Some? && Truthy(payload.value) && !payload.value.JObj? ==>
      out == Response(500, NoGet(payload.value)) && write.None?
    ensures (payload.Some? && payload.value.JObj? && Truthy(payload.value) && !Complete(payload.value)) ==>
      out == Response(400, MissingFields) && write.None?
    ensures write.Some? <==> (payload.Some? && Complete(payload.value) &&
      Filed(RequestOf(payload.value.members).records).Ok? &&
      Refusal(RequestOf(payload.value.members), Filed(RequestOf(payload.value.members).records).value).None? &&
      writeError.None?)
    ensures write.Some? ==> (var req := RequestOf(payload.value.members);
      req.userEmail.JStr? && StringKeys(Filed(req.records).value) &&
      write.value == Write(req.userEmail, UserDoc(req.userEmail, req.role, Filed(req.records).value)))
    ensures payload.Some? && Complete(payload.value) && Filed(RequestOf(payload.value.members).records).Err? ==>
      out == ReplyTo(Filed(RequestOf(payload.value.members).records).error) && write.None?
    ensures (payload.Some? && Complete(payload.value) && Filed(RequestOf(payload.value.members).records).Ok? &&
             !RequestOf(payload.value.members).userEmail.JStr?) ==> out == Response(500, BadDocumentId) && write.None?
    ensures (payload.Some? && Complete(payload.value) && Filed(RequestOf(payload.value.members).records).Ok? &&
             RequestOf(payload.value.members).userEmail.JStr? &&
             !StringKeys(Filed(RequestOf(payload.value.members).records).value)) ==>
      out == Response(500, BadFieldPath) && write.None?
    ensures (payload.Some? && Complete(payload.value) && Filed(RequestOf(payload.value.members).records).Ok? &&
             Refusal(RequestOf(payload.value.members), Filed(RequestOf(payload.value.members).records).value).Some?) ==>
      out == Response(500, Refusal(RequestOf(payload.value.members), Filed(RequestOf(payload.value.members).records).value).value) &&
      write.None?
    ensures (payload.Some? && Complete(payload.value) && Filed(RequestOf(payload.value.members).records).Ok? &&
             Refusal(RequestOf(payload.value.members), Filed(RequestOf(payload.value.members).records).value).None? &&
             writeError.Some?) ==> out == Response(500, writeError.value) && write.None?
    ensures out.status == 200 <==> write.Some?
    ensures out.status == 200 ==>
      out.body == "Data for " + RequestOf(payload.value.members).userEmail.s + " processed successfully"
  {
    write := None;
    var request := Validate(payload);
    if request.Err? {
      return request.error, write;
    }
    var req := request.value;
    var items := Iterate(req.records);
    if items.Err? {
      return ReplyTo(items.error), write;
    }
    var processMap := BuildProcessMap(items.value);
    if processMap.Err? {
      return ReplyTo(processMap.error), write;
    }
    var refusal := Refusal(req, processMap.value);
    if refusal.Some? {
      return Response(500, refusal.value), write;
    }
    if writeError.Some? {
      return Response(500, writeError.value), write;
    }
    write := Some(Write(req.userEmail, UserDoc(req.userEmail, req.role, processMap.value)));
    out := Response(200, "Data for " + req.userEmail.s + " processed successfully");
  }
}
