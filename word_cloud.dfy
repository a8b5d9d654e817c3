/**
 * The word-cloud handler: it checks the request's Content-Type, reads the
 * `file`, `email` and `role` fields out of the multipart body, stores the
 * text file under `<email>_<uuid>.txt`, waits for it to be visible, counts
 * its words, posts the counts to the Firestore writer, asks for the
 * notification e-mail and records the upload's metadata. Each outside call
 * either succeeds or fails with the error text `cloud.failing` gives it.
 */
module WordCloud {
  import opened Wrappers
  import opened Text
  import opened Http
  import opened Words

  const HeaderMissing := "Content-Type header is missing or incorrect."
  const NotMultipart := "Content-Type must be multipart/form-data."
  const FileMissing := "File not provided in the request."
  const NotAvailable := "Failed to confirm file availability in S3."
  const Multipart := "multipart/form-data"
  const UploadFailed := "Error uploading file to S3: "

  /** The reporting page every notification and metadata record links to, for one user. */
  const LookerBase := "https://lookerstudio.google.com/embed/u/0/reporting/3f0d711f-fff6-4150-9e99-8ddad8228e84/page/4GqLE?user_email_parameter="

  /** The field a part fills, decided by the first of `name="file"`, `name="email"`, `name="role"` its Content-Disposition contains. */
  datatype Slot = FileSlot | EmailSlot | RoleSlot | NoSlot

  function SlotOf(p: Part): (s: Slot)
    ensures s == FileSlot <==> Contains(Disposition(p), "name=\"file\"")
    ensures s == EmailSlot <==> !Contains(Disposition(p), "name=\"file\"") && Contains(Disposition(p), "name=\"email\"")
    ensures s == RoleSlot <==> (!Contains(Disposition(p), "name=\"file\"") && !Contains(Disposition(p), "name=\"email\"") &&
      Contains(Disposition(p), "name=\"role\""))
  {
    var cd := Disposition(p);
    if Contains(cd, "name=\"file\"") then FileSlot
    else if Contains(cd, "name=\"email\"") then EmailSlot
    else if Contains(cd, "name=\"role\"") then RoleSlot
    else NoSlot
  }

  /**
   * The test is on substrings, not on the parameter itself: a part named
   * `upload` whose file name is `file` fills the file field.
   */
  lemma FileNameParamSelects(content: seq<byte>, text: string)
    ensures SlotOf(Part([("Content-Disposition", "form-data; name=\"upload\"; filename=\"file\"")], content, text)) == FileSlot
  {
    var cd := "form-data; name=\"upload\"; filename=\"file\"";
    assert OccursAt(cd, "name=\"file\"", 30);
  }

  /** The fields the loop over the parts fills: the file part itself, the email and the role. */
  datatype Fields = Fields(file: Option<Part>, email: string, role: string)

  /** `file_content, user_email, role = None, 'guest', 'guest'`. */
  const Initial := Fields(None, "guest", "guest")

  /** One turn of the loop over the parts. */
  function Dispatch(f: Fields, p: Part): Fields {
    match SlotOf(p)
    case FileSlot => f.(file := Some(p))
    case EmailSlot => f.(email := p.text)
    case RoleSlot => f.(role := p.text)
    case NoSlot => f
  }

  /** The fields after the loop over `parts`. */
  function Collect(parts: seq<Part>): Fields {
    if |parts| == 0 then Initial else Dispatch(Collect(parts[..|parts| - 1]), parts[|parts| - 1])
  }

  /** The last part filling a field decides it: later parts for that field overwrite earlier ones. */
  lemma {:induction false} LastPartWins(parts: seq<Part>, i: nat)
    requires i < |parts| && SlotOf(parts[i]) != NoSlot
    requires forall j :: i < j < |parts| ==> SlotOf(parts[j]) != SlotOf(parts[i])
    ensures SlotOf(parts[i]) == FileSlot ==> Collect(parts).file == Some(parts[i])
    ensures SlotOf(parts[i]) == EmailSlot ==> Collect(parts).email == parts[i].text
    ensures SlotOf(parts[i]) == RoleSlot ==> Collect(parts).role == parts[i].text
  {
    var init := parts[..|parts| - 1];
    if i < |parts| - 1 {
      assert forall j :: i < j < |init| ==> init[j] == parts[j];
      assert init[i] == parts[i];
      LastPartWins(init, i);
    }
  }

  /** Without a part for a field, the field keeps its initial value: no file, and `guest` for email and role. */
  lemma {:induction false} NoPartFor(parts: seq<Part>, s: Slot)
    requires forall j :: 0 <= j < |parts| ==> SlotOf(parts[j]) != s
    ensures s == FileSlot ==> Collect(parts).file.None?
    ensures s == EmailSlot ==> Collect(parts).email == "guest"
    ensures s == RoleSlot ==> Collect(parts).role == "guest"
  {
    if |parts| > 0 {
      var init := parts[..|parts| - 1];
      assert forall j :: 0 <= j < |init| ==> init[j] == parts[j];
      NoPartFor(init, s);
    }
  }

  /** The loop over the parts. */
  method ExtractFields(parts: seq<Part>) returns (fields: Fields)
    ensures fields == Collect(parts)
  {
    fields := Initial;
    var k := 0;
    while k < |parts|
      invariant k <= |parts|
      invariant fields == Collect(parts[..k])
    {
      assert parts[..k + 1][..k] == parts[..k];
      fields := Dispatch(fields, parts[k]);
      k := k + 1;
    }
    assert parts[..k] == parts;
  }

  /** The fields of a request that passes every check, or `None` for a request rejected with 400. */
  function Admitted(event: Event): Option<Fields> {
    if !MultipartRequest(event) || event.parts.Err? then None
    else
      var fields := Collect(event.parts.value);
      if fields.file.None? then None else Some(fields)
  }

  /** The request has a `content-type` header that names `multipart/form-data` in some letter case. */
  predicate MultipartRequest(event: Event) {
    event.headers.Some? && Lookup(event.headers.value, "content-type").Some? &&
    Contains(Lower(Lookup(event.headers.value, "content-type").value), Multipart)
  }

  /** The links to a user's word-cloud report that the handler sends and stores. */
  datatype Link =
    | ReportUrl(user: string)    // `looker_url`: the report filtered on the user's email
    | ReportFrame(user: string)  // `iframe`: an HTML frame embedding that report

  /** The text of a link. */
  function LinkText(l: Link): string {
    match l
    case ReportUrl(e) => LookerBase + e
    case ReportFrame(e) =>
      "<iframe src=\"" + LookerBase + e + "\" width=\"100%\" height=\"600\" frameborder=\"0\" style=\"border:0\" allowfullscreen></iframe>"
  }

  /** The body posted to the Firestore writer. */
  datatype Payload = Payload(email: string, role: string, filename: string, frequency: map<string, nat>)

  /** The body posted to the notification sender: the recipient, the subject, and a message about `file` linking to `report`. */
  datatype Notice = Notice(email: string, subject: string, file: string, report: Link)

  /** The text of a notification's message. */
  function Message(n: Notice): string {
    "Your Word Cloud for " + n.file + " has been generated successfully. You can access it here: " + LinkText(n.report)
  }

  /** The metadata item written to the table; `now` and `code` stand for `int(time.time())` and the second `uuid.uuid4()`. */
  datatype Metadata = Metadata(filename: string, fileSize: nat, timestamp: int, email: string, role: string,
                               processCode: string, url: Link, downloadUrl: Link)

  /** What a request admitted with `f` stores. */
  function UploadOf(f: Fields, uuid: string): Upload
    requires f.file.Some?
  {
    Upload(FileName(f.email, uuid, ".txt"), f.file.value.content, f.email, f.role)
  }

  /** The notification for the upload stored under `key`. */
  function NoticeOf(email: string, key: string): Notice {
    Notice(email, "Data Processing Job has ran successfully", key, ReportUrl(email))
  }

  /**
   * The checks before anything is stored. A request is rejected with 400 in
   * this order: no headers or no `content-type` key (letter case matters), a
   * Content-Type that does not contain `multipart/form-data` in any letter
   * case, an undecodable body, no file part; otherwise its fields are read.
   */
  method Admit(event: Event) returns (r: Result<Fields, Response>)
    ensures r.Ok? <==> Admitted(event).Some?
    ensures r.Ok? ==> r.value == Admitted(event).value
    ensures r.Err? ==> r.error.status == 400
    ensures event.headers.None? || Lookup(event.headers.value, "content-type").None? ==>
      r == Err(Response(400, HeaderMissing))
    ensures (event.headers.Some? && Lookup(event.headers.value, "content-type").Some? &&
             !Contains(Lower(Lookup(event.headers.value, "content-type").value), Multipart)) ==>
      r == Err(Response(400, NotMultipart))
    ensures MultipartRequest(event) && event.parts.Err? ==> r == Err(Response(400, "Error during parsing: " + event.parts.error))
    ensures MultipartRequest(event) && event.parts.Ok? && Collect(event.parts.value).file.None? ==> r == Err(Response(400, FileMissing))
  {
    if event.headers.None? {
      return Err(Response(400, HeaderMissing));
    }
    var contentType := Lookup(event.headers.value, "content-type");
    if contentType.None? {
      return Err(Response(400, HeaderMissing));
    }
    if !Contains(Lower(contentType.value), Multipart) {
      return Err(Response(400, NotMultipart));
    }
    if event.parts.Err? {
      return Err(Response(400, "Error during parsing: " + event.parts.error));
    }
    var fields := ExtractFields(event.parts.value);
    if fields.file.None? {
      return Err(Response(400, FileMissing));
    }
    return Ok(fields);
  }

  /**
   * Storing an admitted request's file: `put_object`, then the availability
   * check. The upload happens exactly when `put_object` succeeds, and the
   * request goes on exactly when the file is then confirmed within
   * `MaxAttempts` checks; otherwise the reply is a 500.
   */
  method Store(fields: Fields, cloud: Cloud) returns (failure: Option<Response>, upload: Option<Upload>)
    requires fields.file.Some?
    ensures upload.Some? <==> PutObject !in cloud.failing
    ensures upload.Some? ==> upload.value == UploadOf(fields, cloud.uuid)
    ensures failure.None? <==> upload.Some? && ConfirmedBy(cloud)
    ensures failure.Some? ==> failure.value.status == 500
    ensures PutObject in cloud.failing ==> failure == Some(Response(500, UploadFailed + cloud.failing[PutObject]))
    ensures upload.Some? && Settled(cloud) == MaxAttempts ==> failure == Some(Response(500, NotAvailable))
    ensures upload.Some? && Settled(cloud) < MaxAttempts && ProbeAt(cloud, Settled(cloud)).ProbeFailed? ==>
      failure == Some(Response(500, UploadFailed + ProbeAt(cloud, Settled(cloud)).error))
  {
    upload := None;
    if PutObject in cloud.failing {
      return Some(Response(500, UploadFailed + cloud.failing[PutObject])), upload;
    }
    upload := Some(Upload(FileName(fields.email, cloud.uuid, ".txt"), fields.file.value.content, fields.email, fields.role));
    var availability, attempts := ConfirmAvailable(cloud);
    match availability {
      case NotConfirmed =>
        failure := Some(Response(500, NotAvailable));
      case CheckFailed(e) =>
        failure := Some(Response(500, UploadFailed + e));
      case Confirmed =>
        failure := None;
    }
  }

  /**
   * The steps after the file is confirmed: the word counts are posted, the
   * notification is asked for and the metadata is written, each only when
   * the one before it succeeded; the reply is 200 exactly when the metadata
   * is written.
   */
  method Publish(fields: Fields, fileName: string, cloud: Cloud, now: int, code: string)
    returns (out: Response, posted: Option<Payload>, notified: Option<Notice>, record: Option<Metadata>)
    requires fields.file.Some?
    ensures posted.Some? <==> PostWriter !in cloud.failing
    ensures posted.Some? ==> posted.value == Payload(fields.email, fields.role, fileName, WordFrequency(fields.file.value.text))
    ensures notified.Some? <==> posted.Some? && PostNotify !in cloud.failing
    ensures notified.Some? ==> notified.value == NoticeOf(fields.email, fileName)
    ensures record.Some? <==> notified.Some? && PutItem !in cloud.failing
    ensures record.Some? ==> (record.value ==
      Metadata(fileName, |fields.file.value.content|, now, fields.email, fields.role, code, ReportUrl(fields.email), ReportFrame(fields.email)))
    ensures out.status == 200 <==> record.Some?
    ensures out.status != 200 ==> out.status == 500
    ensures PostWriter in cloud.failing ==> out == Response(500, "Error invoking Google Cloud Function: " + cloud.failing[PostWriter])
    ensures posted.Some? && PostNotify in cloud.failing ==>
      out == Response(500, "Error invoking Lambda Cloud Function: " + cloud.failing[PostNotify])
    ensures notified.Some? && PutItem in cloud.failing ==> out == Response(500, "Error saving metadata to DynamoDB: " + cloud.failing[PutItem])
    ensures out.status == 200 ==> out.body == "File uploaded and data processed for " + fileName
  {
    posted, notified, record := None, None, None;
    var wordFrequency := WordFrequency(fields.file.value.text);
    if PostWriter in cloud.failing {
      return Response(500, "Error invoking Google Cloud Function: " + cloud.failing[PostWriter]), posted, notified, record;
    }
    posted := Some(Payload(fields.email, fields.role, fileName, wordFrequency));
    if PostNotify in cloud.failing {
      return Response(500, "Error invoking Lambda Cloud Function: " + cloud.failing[PostNotify]), posted, notified, record;
    }
    notified := Some(NoticeOf(fields.email, fileName));
    if PutItem in cloud.failing {
      return Response(500, "Error saving metadata to DynamoDB: " + cloud.failing[PutItem]), posted, notified, record;
    }
    record := Some(Metadata(fileName, |fields.file.value.content|, now, fields.email, fields.role, code, ReportUrl(fields.email), ReportFrame(fields.email)));
    out := Response(200, "File uploaded and data processed for " + fileName);
  }

  /**
   * `lambda_handler`: the checks, then the processing of an admitted request.
   * An admitted request gets 200 once its metadata is written; every failing
   * step after admission answers 500 with that step's error text.
   */
  method HandleWordCloud(event: Event, cloud: Cloud, now: int, code: string)
    returns (out: Response, upload: Option<Upload>, posted: Option<Payload>, notified: Option<Notice>, record: Option<Metadata>)
    ensures event.headers.None? || Lookup(event.headers.value, "content-type").None? ==>
      out == Response(400, HeaderMissing)
    ensures (event.headers.Some? && Lookup(event.headers.value, "content-type").Some? &&
             !Contains(Lower(Lookup(event.headers.value, "content-type").value), Multipart)) ==>
      out == Response(400, NotMultipart)
    ensures MultipartRequest(event) && event.parts.Err? ==> out == Response(400, "Error during parsing: " + event.parts.error)
    ensures MultipartRequest(event) && event.parts.Ok? && Collect(event.parts.value).file.None? ==> out == Response(400, FileMissing)
    ensures Admitted(event).None? ==> out.status == 400 && upload.None? && posted.None? && notified.None? && record.None?
    ensures Admitted(event).Some? ==> out.status == 200 || out.status == 500
    ensures Admitted(event).Some? && PutObject in cloud.failing ==> out == Response(500, UploadFailed + cloud.failing[PutObject])
    ensures upload.Some? && Settled(cloud) == MaxAttempts ==> out == Response(500, NotAvailable)
    ensures upload.Some? && Settled(cloud) < MaxAttempts && ProbeAt(cloud, Settled(cloud)).ProbeFailed? ==>
      out == Response(500, UploadFailed + ProbeAt(cloud, Settled(cloud)).error)
    ensures upload.Some? && ConfirmedBy(cloud) && PostWriter in cloud.failing ==>
      out == Response(500, "Error invoking Google Cloud Function: " + cloud.failing[PostWriter])
    ensures posted.Some? && PostNotify in cloud.failing ==>
      out == Response(500, "Error invoking Lambda Cloud Function: " + cloud.failing[PostNotify])
    ensures notified.Some? && PutItem in cloud.failing ==> out == Response(500, "Error saving metadata to DynamoDB: " + cloud.failing[PutItem])
    ensures Admitted(event).Some? ==>
      (upload.Some? <==> PutObject !in cloud.failing) &&
      (upload.Some? ==> upload.value == UploadOf(Admitted(event).value, cloud.uuid))
    ensures posted.Some? <==> upload.Some? && ConfirmedBy(cloud) && PostWriter !in cloud.failing
    ensures posted.Some? ==> (posted.value ==
      Payload(upload.value.email, upload.value.role, upload.value.key, WordFrequency(Admitted(event).value.file.value.text)))
    ensures notified.Some? <==> posted.Some? && PostNotify !in cloud.failing
    ensures notified.Some? ==> notified.value == NoticeOf(upload.value.email, upload.value.key)
    ensures record.Some? <==> notified.Some? && PutItem !in cloud.failing
    ensures record.Some? ==> (record.value == Metadata(upload.value.key, |upload.value.content|, now,
      upload.value.email, upload.value.role, code, ReportUrl(upload.value.email), ReportFrame(upload.value.email)))
    ensures out.status == 200 <==> record.Some?
    ensures out.status == 200 ==> out.body == "File uploaded and data processed for " + upload.value.key
  {
    var admitted := Admit(event);
    if admitted.Err? {
      return admitted.error, None, None, None, None;
    }
    var failure;
    failure, upload := Store(admitted.value, cloud);
    if failure.Some? {
      return failure.value, upload, None, None, None;
    }
    out, posted, notified, record := Publish(admitted.value, upload.value.key, cloud, now, code);
  }
}
