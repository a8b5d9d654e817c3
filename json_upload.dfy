/**
 * The JSON upload handler: it checks the request's headers, reads the
 * `file`, `email` and `role` fields out of the multipart body, stores the
 * file under `<email>_<uuid>.json`, waits for it to be visible and hands its
 * key to the job trigger. The multipart body arrives already decoded into
 * parts (or as the decoder's error).
 */
module JsonUpload {
  import opened Wrappers
  import opened Text
  import opened Http

  const HeadersMissing := "Headers are missing in the request."
  const ContentTypeMissing := "Content-Type header is missing."
  const NotMultipart := "Content-Type must be multipart/form-data."
  const FileMissing := "File not provided in the request."
  const NotAvailable := "Failed to confirm file availability in S3."
  const UploadFailed := "Error uploading file or triggering Glue job: "
  const IndexErrorText := "list index out of range"

  /** The value of the first header whose name is `content-type` in any letter case. */
  function ContentTypeOf(headers: Dict): (ct: Option<string>)
    ensures ct.None? <==> forall i :: 0 <= i < |headers| ==> Lower(headers[i].0) != "content-type"
    ensures ct.Some? ==> exists i :: (0 <= i < |headers| && Lower(headers[i].0) == "content-type" &&
      ct.value == headers[i].1 && forall j :: 0 <= j < i ==> Lower(headers[j].0) != "content-type")
  {
    if |headers| == 0 then None
    else if Lower(headers[0].0) == "content-type" then Some(headers[0].1)
    else
      var ct := ContentTypeOf(headers[1..]);
      assert ct.Some? ==> exists i :: (1 <= i < |headers| && Lower(headers[i].0) == "content-type" &&
        ct.value == headers[i].1 && forall j :: 0 <= j < i ==> Lower(headers[j].0) != "content-type") by {
        if ct.Some? {
          var i :| 0 <= i < |headers[1..]| && Lower(headers[1..][i].0) == "content-type" &&
            ct.value == headers[1..][i].1 && forall j :: 0 <= j < i ==> Lower(headers[1..][j].0) != "content-type";
          assert headers[i + 1] == headers[1..][i];
          assert forall j :: 1 <= j < i + 1 ==> headers[j] == headers[1..][j - 1];
        }
      }
      ct
  }

  /** The loop over the header names that stops at the first `content-type` match. */
  method FindContentType(headers: Dict) returns (ct: Option<string>)
    ensures ct == ContentTypeOf(headers)
  {
    ct := None;
    var i := 0;
    while i < |headers|
      invariant i <= |headers|
      invariant ContentTypeOf(headers) == ContentTypeOf(headers[i..])
    {
      if Lower(headers[i].0) == "content-type" {
        ct := Some(headers[i].1);
        break;
      }
      assert headers[i..][1..] == headers[i + 1..];
      i := i + 1;
    }
  }

  /** The index of the first string of `ps` containing `p`, or `|ps|` when none does. */
  function FirstWith(ps: seq<string>, p: string): (i: nat)
    ensures i <= |ps|
    ensures i < |ps| ==> Contains(ps[i], p)
    ensures forall j :: 0 <= j < i ==> !Contains(ps[j], p)
  {
    if |ps| == 0 then 0
    else if Contains(ps[0], p) then 0
    else 1 + FirstWith(ps[1..], p)
  }

  /**
   * The name given by the first parameter of `params` that contains `name`
   * anywhere: its text between the first and the second `=`, stripped of
   * `"`. A parameter without `=` raises an `IndexError`.
   */
  function NameIn(params: seq<string>): Result<Option<string>, string> {
    if |params| == 0 then Ok(None)
    else if Contains(params[0], "name") then
      var kv := Split(params[0], '=');
      if |kv| < 2 then Err(IndexErrorText) else Ok(Some(Strip(kv[1], '"')))
    else NameIn(params[1..])
  }

  /** The part name read from a Content-Disposition value, split into its `;`-separated parameters. */
  function NameOf(cd: string): Result<Option<string>, string> {
    NameIn(Split(cd, ';'))
  }

  /** The parameter that decides the name is the first one containing `name`. */
  lemma {:induction false} NameInFirst(params: seq<string>)
    ensures FirstWith(params, "name") == |params| ==> NameIn(params) == Ok(None)
    ensures FirstWith(params, "name") < |params| ==> NameIn(params) == NameIn([params[FirstWith(params, "name")]])
  {
    if |params| > 0 && !Contains(params[0], "name") {
      NameInFirst(params[1..]);
    }
  }

  /**
   * A part has no name exactly when no parameter contains `name`, and
   * reading it raises an `IndexError` exactly when the first parameter that
   * does holds no `=`.
   */
  lemma NameOfCases(cd: string)
    ensures NameOf(cd) == Ok(None) <==> forall j :: 0 <= j < |Split(cd, ';')| ==> !Contains(Split(cd, ';')[j], "name")
    ensures NameOf(cd).Err? <==> FirstWith(Split(cd, ';'), "name") < |Split(cd, ';')| &&
                                 '=' !in Split(cd, ';')[FirstWith(Split(cd, ';'), "name")]
  {
    NameOfNone(cd);
    NameOfError(cd);
  }

  /** The deciding parameter, when there is one, gives an error or a name, never "no name". */
  lemma NameInOne(p: string)
    requires Contains(p, "name")
    ensures NameIn([p]).Err? <==> '=' !in p
    ensures NameIn([p]) != Ok(None)
  {
    assert [p][0] == p;
    SplitLength(p, '=');
  }

  /** No name exactly when no parameter mentions `name`. */
  lemma NameOfNone(cd: string)
    ensures NameOf(cd) == Ok(None) <==> forall j :: 0 <= j < |Split(cd, ';')| ==> !Contains(Split(cd, ';')[j], "name")
  {
    var ps := Split(cd, ';');
    var i := FirstWith(ps, "name");
    NameInFirst(ps);
    if i < |ps| {
      NameInOne(ps[i]);
      assert NameOf(cd) != Ok(None);
      assert Contains(ps[i], "name");
      assert exists j :: 0 <= j < |Split(cd, ';')| && Contains(Split(cd, ';')[j], "name");
    } else {
      assert NameOf(cd) == Ok(None);
      assert forall j :: 0 <= j < |ps| ==> !Contains(ps[j], "name");
    }
  }

  /** An `IndexError` exactly when the deciding parameter holds no `=`. */
  lemma NameOfError(cd: string)
    ensures NameOf(cd).Err? <==> FirstWith(Split(cd, ';'), "name") < |Split(cd, ';')| &&
                                 '=' !in Split(cd, ';')[FirstWith(Split(cd, ';'), "name")]
  {
    var ps := Split(cd, ';');
    var i := FirstWith(ps, "name");
    NameInFirst(ps);
    if i < |ps| {
      NameInOne(ps[i]);
      assert NameOf(cd) == NameIn([ps[i]]);
    }
  }

  /** A split has more than one piece exactly when the separator occurs. */
  lemma SplitLength(s: string, c: char)
    ensures |Split(s, c)| >= 2 <==> c in s
  {
    var i := IndexOf(s, c);
    if c in s {
      var k :| 0 <= k < |s| && s[k] == c;
      assert i <= k;
    }
  }

  /** The loop over the parameters of one part's Content-Disposition, with its `break`. */
  method PartName(cd: string) returns (r: Result<Option<string>, string>)
    ensures r == NameOf(cd)
  {
    var params := Split(cd, ';');
    var k := 0;
    while k < |params|
      invariant k <= |params|
      invariant NameIn(params[k..]) == NameIn(params)
    {
      if Contains(params[k], "name") {
        var kv := Split(params[k], '=');
        if |kv| < 2 {
          return Err(IndexErrorText);
        }
        return Ok(Some(Strip(kv[1], '"')));
      }
      assert params[k..][1..] == params[k + 1..];
      k := k + 1;
    }
    return Ok(None);
  }

  /** `form-data` holds no `name`: it has no `n` at all. */
  lemma FormDataHasNoName()
    ensures !Contains("form-data", "name")
  {
    var fd := "form-data";
    assert forall k :: 0 <= k < |fd| ==> fd[k] != 'n';
    forall i: nat | i + 4 <= |fd| ensures !OccursAt(fd, "name", i) {
      assert fd[i..i + 4][0] == fd[i];
    }
  }

  /** The parameters of `form-data; name="<n>"`. */
  lemma FormDataParams(n: string)
    requires ';' !in n
    ensures Split("form-data; name=\"" + n + "\"", ';') == ["form-data", " name=\"" + n + "\""]
  {
    var param := " name=\"" + n + "\"";
    assert "form-data; name=\"" + n + "\"" == "form-data" + [';'] + param;
    SplitOnce("form-data", ';', param);
  }

  /** The parameter ` name="<n>"` names the part `n`. */
  lemma NameParam(n: string)
    requires '=' !in n && '"' !in n
    ensures NameIn([" name=\"" + n + "\""]) == Ok(Some(n))
  {
    var quoted := ['"'] + n + ['"'];
    var param := " name=\"" + n + "\"";
    assert param == " name" + ['='] + quoted;
    assert OccursAt(param, "name", 1);
    SplitAfter(" name", '=', quoted);
    assert '=' !in quoted;
    assert Split(quoted, '=') == [quoted];
    StripWrapped(n, '"');
  }

  /**
   * The usual header a browser sends, `form-data; name="<n>"`, gives back
   * the name `n` when it holds no `;`, `=` or `"`.
   */
  lemma NameOfFormData(n: string)
    requires ';' !in n && '=' !in n && '"' !in n
    ensures NameOf("form-data; name=\"" + n + "\"") == Ok(Some(n))
  {
    FormDataParams(n);
    FormDataHasNoName();
    NameParam(n);
  }

  /** The fields the handler collects from the parts. */
  datatype Fields = Fields(file: Option<seq<byte>>, email: Option<string>, role: string)

  /** Before any part: no file, no email, role `guest`. */
  const Initial := Fields(None, None, "guest")

  /** Part `p` with name `name` sets the field of that name; any other name changes nothing. */
  function Dispatch(f: Fields, name: Option<string>, p: Part): Fields {
    if name == Some("file") then f.(file := Some(p.content))
    else if name == Some("email") then f.(email := Some(p.text))
    else if name == Some("role") then f.(role := p.text)
    else f
  }

  /** The names read from the parts, in order, or the error the first unreadable one raises. */
  function Names(parts: seq<Part>): (r: Result<seq<Option<string>>, string>)
    ensures r.Ok? ==> |r.value| == |parts|
  {
    if |parts| == 0 then Ok([])
    else
      match Names(parts[..|parts| - 1])
      case Err(e) => Err(e)
      case Ok(ns) =>
        match NameOf(Disposition(parts[|parts| - 1]))
        case Err(e) => Err(e)
        case Ok(n) => Ok(ns + [n])
  }

  /**
   * The names are read without error exactly when every part's name can be
   * read, and then the name of part `k` is the one its own Content-Disposition gives.
   */
  lemma {:induction false} NamesOk(parts: seq<Part>)
    ensures Names(parts).Ok? <==> forall k :: 0 <= k < |parts| ==> NameOf(Disposition(parts[k])).Ok?
    ensures Names(parts).Ok? ==> forall k :: 0 <= k < |parts| ==> Names(parts).value[k] == NameOf(Disposition(parts[k])).value
  {
    if |parts| > 0 {
      var init := parts[..|parts| - 1];
      NamesOk(init);
      assert forall k :: 0 <= k < |init| ==> init[k] == parts[k];
    }
  }

  /** Once a part name cannot be read, later parts do not matter: the loop has raised. */
  lemma {:induction false} NamesErrPrefix(parts: seq<Part>, k: nat)
    requires k <= |parts| && Names(parts[..k]).Err?
    ensures Names(parts) == Names(parts[..k])
    decreases |parts|
  {
    if k < |parts| {
      var init := parts[..|parts| - 1];
      assert init[..k] == parts[..k];
      NamesErrPrefix(init, k);
    } else {
      assert parts[..k] == parts;
    }
  }

  /** The fields after the loop over `parts`, part `k` going by the name `names[k]`. */
  function Collect(parts: seq<Part>, names: seq<Option<string>>): Fields
    requires |names| == |parts|
  {
    if |parts| == 0 then Initial
    else Dispatch(Collect(parts[..|parts| - 1], names[..|names| - 1]), names[|names| - 1], parts[|parts| - 1])
  }

  /** The fields after the loop over `parts`, or the error the first unreadable part name raises. */
  function FieldsOf(parts: seq<Part>): Result<Fields, string> {
    match Names(parts)
    case Err(e) => Err(e)
    case Ok(names) => Ok(Collect(parts, names))
  }

  /** The part named `n` that comes last decides field `n`: later parts with that name overwrite earlier ones. */
  lemma {:induction false} LastPartWins(parts: seq<Part>, names: seq<Option<string>>, n: string, i: nat)
    requires |names| == |parts| && i < |parts| && names[i] == Some(n)
    requires forall j :: i < j < |parts| ==> names[j] != Some(n)
    ensures n == "file" ==> Collect(parts, names).file == Some(parts[i].content)
    ensures n == "email" ==> Collect(parts, names).email == Some(parts[i].text)
    ensures n == "role" ==> Collect(parts, names).role == parts[i].text
  {
    var init, initNames := parts[..|parts| - 1], names[..|names| - 1];
    if i < |parts| - 1 {
      assert forall j :: i < j < |init| ==> initNames[j] == names[j];
      assert init[i] == parts[i] && initNames[i] == names[i];
      LastPartWins(init, initNames, n, i);
    }
  }

  /** Without a part named `n`, field `n` keeps its initial value. */
  lemma {:induction false} NoPartNamed(parts: seq<Part>, names: seq<Option<string>>, n: string)
    requires |names| == |parts|
    requires forall j :: 0 <= j < |parts| ==> names[j] != Some(n)
    ensures n == "file" ==> Collect(parts, names).file.None?
    ensures n == "email" ==> Collect(parts, names).email.None?
    ensures n == "role" ==> Collect(parts, names).role == "guest"
  {
    if |parts| > 0 {
      var init, initNames := parts[..|parts| - 1], names[..|names| - 1];
      assert forall j :: 0 <= j < |init| ==> initNames[j] == names[j];
      NoPartNamed(init, initNames, n);
    }
  }

  /** The loop over the parts: each part's name is read and its field set. */
  method ExtractFields(parts: seq<Part>) returns (r: Result<Fields, string>)
    ensures r == FieldsOf(parts)
  {
    var fields := Initial;
    ghost var names: seq<Option<string>> := [];
    var k := 0;
    while k < |parts|
      invariant k <= |parts|
      invariant Names(parts[..k]) == Ok(names) && fields == Collect(parts[..k], names)
    {
      var name := PartName(Disposition(parts[k]));
      assert parts[..k + 1][..k] == parts[..k];
      if name.Err? {
        NamesErrPrefix(parts, k + 1);
        return Err(name.error);
      }
      assert (names + [name.value])[..k] == names;
      fields := Dispatch(fields, name.value, parts[k]);
      names := names + [name.value];
      k := k + 1;
    }
    assert parts[..k] == parts;
    return Ok(fields);
  }

  /** `value or 'guest'`: an absent or empty value becomes `guest`. */
  function OrGuest(v: Option<string>): (r: string)
    ensures r != ""
    ensures v.Some? && v.value != "" ==> r == v.value
  {
    if v.Some? && v.value != "" then v.value else "guest"
  }

  /** The fields of a request that passes every check, or `None` for a request rejected before storing. */
  function Admitted(event: Event): Option<Fields> {
    if !MultipartRequest(event) || event.parts.Err? then None
    else
      var fields := FieldsOf(event.parts.value);
      if fields.Err? || fields.value.file.None? then None else Some(fields.value)
  }

  /** The request has headers and a Content-Type that names `multipart/form-data`. */
  predicate MultipartRequest(event: Event) {
    event.headers.Some? && ContentTypeOf(event.headers.value).Some? &&
    Contains(ContentTypeOf(event.headers.value).value, "multipart/form-data")
  }

  /** The payload of the asynchronous call to the job trigger. */
  datatype Trigger = Trigger(inputKey: string, email: string, role: string)

  /** What a request admitted with `f` stores. */
  function UploadOf(f: Fields, uuid: string): Upload
    requires f.file.Some?
  {
    var email := OrGuest(f.email);
    Upload(FileName(email, uuid, ".json"), f.file.value, email, OrGuest(Some(f.role)))
  }

  /**
   * `lambda_handler`. Requests are rejected with 400 in this order: no
   * headers, no Content-Type in any letter case, a Content-Type without
   * `multipart/form-data` (letter case matters), an undecodable body, no
   * file part; an unreadable part name raises. An admitted request stores the
   * file under `<email>_<uuid>.json`, the email and role falling back to
   * `guest`; the job is triggered only once the file is confirmed within
   * `MaxAttempts` checks, and only then is the reply 200. Every other
   * outcome of an admitted request is a 500: the error of `put_object`, of a
   * check or of the trigger call, or `NotAvailable` when every check answers
   * `NoSuchKey`.
   */
  method HandleUpload(event: Event, cloud: Cloud) returns (out: Outcome, upload: Option<Upload>, trigger: Option<Trigger>)
    ensures event.headers.None? ==> out == Reply(Response(400, HeadersMissing))
    ensures event.headers.Some? && ContentTypeOf(event.headers.value).None? ==>
      out == Reply(Response(400, ContentTypeMissing))
    ensures (event.headers.Some? && ContentTypeOf(event.headers.value).Some? &&
             !Contains(ContentTypeOf(event.headers.value).value, "multipart/form-data")) ==>
      out == Reply(Response(400, NotMultipart))
    ensures MultipartRequest(event) && event.parts.Err? ==>
      out == Reply(Response(400, "Error during parsing: " + event.parts.error))
    ensures out.Raised? <==> MultipartRequest(event) && event.parts.Ok? && FieldsOf(event.parts.value).Err?
    ensures (MultipartRequest(event) && event.parts.Ok? && FieldsOf(event.parts.value).Ok? &&
             FieldsOf(event.parts.value).value.file.None?) ==>
      out == Reply(Response(400, FileMissing))
    ensures Admitted(event).None? ==> upload.None? && trigger.None? && (out.Raised? || out.response.status == 400)
    ensures Admitted(event).Some? ==>
      (upload.Some? <==> PutObject !in cloud.failing) &&
      (upload.Some? ==> upload.value == UploadOf(Admitted(event).value, cloud.uuid))
    ensures Admitted(event).Some? ==> out.Reply? && (out.response.status == 200 || out.response.status == 500)
    ensures Admitted(event).Some? && PutObject in cloud.failing ==>
      out == Reply(Response(500, UploadFailed + cloud.failing[PutObject]))
    ensures upload.Some? && Settled(cloud) == MaxAttempts ==> out == Reply(Response(500, NotAvailable))
    ensures upload.Some? && Settled(cloud) < MaxAttempts && ProbeAt(cloud, Settled(cloud)).ProbeFailed? ==>
      out == Reply(Response(500, UploadFailed + ProbeAt(cloud, Settled(cloud)).error))
    ensures upload.Some? && ConfirmedBy(cloud) && Invoke in cloud.failing ==>
      out == Reply(Response(500, UploadFailed + cloud.failing[Invoke]))
    ensures trigger.Some? <==> upload.Some? && ConfirmedBy(cloud) && Invoke !in cloud.failing
    ensures trigger.Some? ==> trigger.value == Trigger(upload.value.key, upload.value.email, Admitted(event).value.role)
    ensures trigger.Some? ==> out == Reply(Response(200, "File uploaded and Glue job triggered successfully: " + upload.value.key))
    ensures out.Reply? && out.response.status == 200 <==> trigger.Some?
  {
    upload, trigger := None, None;
    if event.headers.None? {
      return Reply(Response(400, HeadersMissing)), upload, trigger;
    }
    var contentType := FindContentType(event.headers.value);
    if contentType.None? {
      return Reply(Response(400, ContentTypeMissing)), upload, trigger;
    }
    if !Contains(contentType.value, "multipart/form-data") {
      return Reply(Response(400, NotMultipart)), upload, trigger;
    }
    if event.parts.Err? {
      return Reply(Response(400, "Error during parsing: " + event.parts.error)), upload, trigger;
    }
    var fields := ExtractFields(event.parts.value);
    if fields.Err? {
      return Raised(fields.error), upload, trigger;
    }
    if fields.value.file.None? {
      return Reply(Response(400, FileMissing)), upload, trigger;
    }
    var userEmail := OrGuest(fields.value.email);
    var fileName := FileName(userEmail, cloud.uuid, ".json");
    if PutObject in cloud.failing {
      return Reply(Response(500, UploadFailed + cloud.failing[PutObject])), upload, trigger;
    }
    upload := Some(Upload(fileName, fields.value.file.value, userEmail, OrGuest(Some(fields.value.role))));
    var availability, attempts := ConfirmAvailable(cloud);
    match availability {
      case NotConfirmed =>
        return Reply(Response(500, NotAvailable)), upload, trigger;
      case CheckFailed(e) =>
        return Reply(Response(500, UploadFailed + e)), upload, trigger;
      case Confirmed =>
    }
    if Invoke in cloud.failing {
      return Reply(Response(500, UploadFailed + cloud.failing[Invoke])), upload, trigger;
    }
    trigger := Some(Trigger(fileName, userEmail, fields.value.role));
    out := Reply(Response(200, "File uploaded and Glue job triggered successfully: " + fileName));
  }
}
