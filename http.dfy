/**
 * What the upload handlers share: the reply they return, the multipart parts
 * they receive already decoded, the header dicts they read, and the
 * availability check they run after storing an upload. The storage service
 * itself is a parameter: the answers its calls give, and which calls raise.
 * The Firestore handlers also share the errors the client raises for names
 * and values it cannot store.
 */
module Http {
  import opened Wrappers
  import opened Text

  newtype byte = x: int | 0 <= x < 256

  /** A handler's reply: its status code and the text of its body. */
  datatype Response = Response(status: int, body: string)

  /** How an invocation ends: a reply, or an exception no handler code catches. */
  datatype Outcome = Reply(response: Response) | Raised(error: string)

  /** The error a Firestore document reference raises for an id that is not a string. */
  const BadDocumentId := "document id must be a string"

  /** The error a Firestore write raises for a map key that is not a string. */
  const BadFieldPath := "One or more components is not a string or is empty."

  /** The error a Firestore write raises for an integer outside 64 bits. */
  const BadInteger := "Value out of range"

  /** A Python dict of strings, as its entries in insertion order. */
  type Dict = seq<(string, string)>

  /**
   * `d.get(k)`: the value stored under `k`, if any. A dict holds one entry
   * per key; entries read from text that repeat a key keep the last value.
   */
  function Lookup(d: Dict, k: string): (r: Option<string>)
    ensures r.None? <==> forall i :: 0 <= i < |d| ==> d[i].0 != k
    ensures r.Some? ==> exists i :: 0 <= i < |d| && d[i] == (k, r.value) && forall j :: i < j < |d| ==> d[j].0 != k
  {
    if |d| == 0 then None
    else if d[|d| - 1].0 == k then Some(d[|d| - 1].1)
    else
      var init := d[..|d| - 1];
      var r := Lookup(init, k);
      assert forall i :: 0 <= i < |init| ==> init[i] == d[i];
      assert r.Some? ==> exists i :: 0 <= i < |d| && d[i] == (k, r.value) && forall j :: i < j < |d| ==> d[j].0 != k by {
        if r.Some? {
          var i :| 0 <= i < |init| && init[i] == (k, r.value) && forall j :: i < j < |init| ==> init[j].0 != k;
          assert d[i] == (k, r.value);
        }
      }
      r
  }

  /** One part of a multipart body: its headers, its raw bytes (`part.content`) and its text (`part.text`). */
  datatype Part = Part(headers: Dict, content: seq<byte>, text: string)

  /** `part_headers.get('Content-Disposition', '')`. */
  function Disposition(p: Part): string {
    Lookup(p.headers, "Content-Disposition").GetOr("")
  }

  /** An API Gateway event: its header dict, if any, and its body as the multipart decoder sees it (its parts, or its error). */
  datatype Event = Event(headers: Option<Dict>, parts: Result<seq<Part>, string>)

  /** The `put_object` call storing an upload: the key, the bytes and the email and role stored as metadata. */
  datatype Upload = Upload(key: string, content: seq<byte>, email: string, role: string)

  /** The answer to one `head_object` call on the stored upload. */
  datatype Probe = Found | NoSuchKey | ProbeFailed(error: string)

  /** The outside calls a handler makes besides `head_object`. */
  datatype Call =
    | PutObject   // `s3_client.put_object`
    | Invoke      // `lambda_client.invoke` of the job trigger
    | PostWriter  // `requests.post` to the Firestore writer
    | PostNotify  // `requests.post` to the notification sender
    | PutItem     // `table.put_item`

  /**
   * The storage and messaging services, as far as the handlers can observe
   * them: the fresh identifier `uuid.uuid4()` yields, the answers of
   * successive `head_object` calls (calls beyond the list see `NoSuchKey`),
   * and the error text each failing call raises.
   */
  datatype Cloud = Cloud(uuid: string, probes: seq<Probe>, failing: map<Call, string>)

  /** The answer of `head_object` call number `k`, counting from 0. */
  function ProbeAt(cloud: Cloud, k: nat): Probe {
    if k < |cloud.probes| then cloud.probes[k] else NoSuchKey
  }

  /** How the availability check ends. */
  datatype Availability = Confirmed | NotConfirmed | CheckFailed(error: string)

  /** The number of calls the availability check makes at most. */
  const MaxAttempts: nat := 3

  /**
   * The index of the first of the `MaxAttempts` calls that does not answer
   * `NoSuchKey`, or `MaxAttempts` when all of them do. The handlers retry on
   * `NoSuchKey` as their code is written, and the probe answers are a
   * parameter. The S3 client reports a missing key to `head_object` as a
   * `ClientError` with code 404, though, not as `NoSuchKey`; if so, the retry
   * never runs, and an object not yet visible goes straight to the 500 of
   * the outer `except`. This is an observation from reading, not executed.
   */
  function Settled(cloud: Cloud): (k: nat)
    ensures k <= MaxAttempts
    ensures forall j :: 0 <= j < k ==> ProbeAt(cloud, j) == NoSuchKey
    ensures k < MaxAttempts ==> ProbeAt(cloud, k) != NoSuchKey
  {
    if ProbeAt(cloud, 0) != NoSuchKey then 0
    else if ProbeAt(cloud, 1) != NoSuchKey then 1
    else if ProbeAt(cloud, 2) != NoSuchKey then 2
    else 3
  }

  /** A call finds the stored object before any answer other than `NoSuchKey` and within `MaxAttempts` calls. */
  predicate ConfirmedBy(cloud: Cloud) {
    Settled(cloud) < MaxAttempts && ProbeAt(cloud, Settled(cloud)) == Found
  }

  /**
   * `for attempt in range(3)` around `head_object`: stop at the first call
   * that finds the object, wait and retry on `NoSuchKey`, and let any other
   * error escape. The check makes at most `MaxAttempts` calls, and confirms
   * the object exactly when a call finds it before any other answer than
   * `NoSuchKey`.
   */
  method ConfirmAvailable(cloud: Cloud) returns (a: Availability, attempts: nat)
    ensures 1 <= attempts <= MaxAttempts
    ensures attempts == if Settled(cloud) < MaxAttempts then Settled(cloud) + 1 else MaxAttempts
    ensures a == Confirmed <==> ConfirmedBy(cloud)
    ensures a == NotConfirmed <==> Settled(cloud) == MaxAttempts
    ensures a.CheckFailed? ==> ProbeAt(cloud, Settled(cloud)) == ProbeFailed(a.error)
  {
    a := NotConfirmed;
    attempts := 0;
    var attempt := 0;
    while attempt < MaxAttempts
      invariant attempt <= MaxAttempts && attempts == attempt
      invariant forall j :: 0 <= j < attempt ==> ProbeAt(cloud, j) == NoSuchKey
    {
      attempts := attempts + 1;
      var probe := ProbeAt(cloud, attempt);
      match probe {
        case Found =>
          return Confirmed, attempts;
        case ProbeFailed(e) =>
          return CheckFailed(e), attempts;
        case NoSuchKey =>
      }
      attempt := attempt + 1;
    }
  }

  /** `f"{user_email}_{uuid.uuid4()}{ext}"`: the key an upload is stored under. */
  function FileName(email: string, uuid: string, ext: string): string {
    email + "_" + uuid + ext
  }

  /**
   * With the identifier and extension fixed, the stored key determines the
   * email it was made from: uploads of different users never share a key.
   */
  lemma FileNameInjective(e1: string, e2: string, uuid: string, ext: string)
    requires FileName(e1, uuid, ext) == FileName(e2, uuid, ext)
    ensures e1 == e2
  {
    var n := FileName(e1, uuid, ext);
    assert |e1| == |e2|;
    assert n[..|e1|] == e1;
    assert FileName(e2, uuid, ext)[..|e2|] == e2;
  }
}
