/**
 * upload_paper_with_jwt: one PDF posted as a multipart form to the papers
 * endpoint. The two scripts carry two variants of it: upload_paper.py's is
 * strict (it raises) and upload_directory.py's collects (it returns None).
 * They share the precondition and the form-data rules, modelled once here.
 */
module PaperUpload {
  import opened Wrappers
  import opened Http
  import opened Json

  /** The optional metadata; a value counts only when it is non-empty. */
  datatype Metadata = Metadata(title: Option<string>, doi: Option<string>, field: Option<string>, topic: Option<string>)

  /** One text part of the multipart form, in the order the form dict received it. */
  datatype FormField = FormField(name: string, value: string)

  /** A local file as the scripts see it: its path, its file name and its stem. */
  datatype PdfPath = PdfPath(path: string, name: string, stem: string)

  /** The request that is sent: endpoint, file part, form parts and bearer header. */
  datatype UploadRequest = UploadRequest(url: string, fileName: string, form: seq<FormField>, authorization: string)

  /**
   * The fields of the reply's `data` object the scripts read. A null value is
   * read without error by `result['data'][key]`; only a missing key raises.
   */
  datatype UploadData = UploadData(paperId: JsonText, status: JsonText)

  /**
   * The parsed reply as Python sees it: FalsyBody for a JSON value that is
   * false in a test (null, {}, [], "", 0); TruthyBody otherwise, with its
   * `data` object, or None when `result['data'][key]` fails before reaching
   * the key: the body is not an object, or its `data` is missing, null or not
   * an object.
   */
  datatype UploadBody = FalsyBody | TruthyBody(data: Option<UploadData>)

  datatype UploadError =
    | FileNotFound(path: string)  // the FileNotFoundError of the existence check
    | Http(cause: HttpError)
    | MissingResponseKey          // result['data']['paper_id'] or ['status'] failed

  predicate Truthy(o: Option<string>) {
    o.Some? && o.value != ""
  }

  /** A form part the metadata offers: a non-empty value under its own name. */
  predicate Offered(m: Metadata, f: FormField) {
    f.value != "" &&
    ((f.name == "title" && m.title == Some(f.value)) ||
     (f.name == "doi" && m.doi == Some(f.value)) ||
     (f.name == "field" && m.field == Some(f.value)) ||
     (f.name == "topic" && m.topic == Some(f.value)))
  }

  function Part(name: string, value: Option<string>): seq<FormField> {
    if Truthy(value) then [FormField(name, value.value)] else []
  }

  /** The form data: title, doi, field, topic, each only when its value is non-empty. */
  function FormFields(m: Metadata): seq<FormField> {
    Part("title", m.title) + Part("doi", m.doi) + Part("field", m.field) + Part("topic", m.topic)
  }

  predicate DistinctNames(r: seq<FormField>) {
    forall i, j :: 0 <= i < j < |r| ==> r[i].name != r[j].name
  }

  lemma DistinctConcat(x: seq<FormField>, y: seq<FormField>)
    requires DistinctNames(x) && DistinctNames(y)
    requires forall f, g :: f in x && g in y ==> f.name != g.name
    ensures DistinctNames(x + y)
  {
    forall i, j | 0 <= i < j < |x + y|
      ensures (x + y)[i].name != (x + y)[j].name
    {
      if j < |x| {
        assert (x + y)[i] == x[i] && (x + y)[j] == x[j];
      } else if i >= |x| {
        assert (x + y)[i] == y[i - |x|] && (x + y)[j] == y[j - |x|];
      } else {
        assert (x + y)[i] == x[i] && (x + y)[j] == y[j - |x|];
        assert x[i] in x && y[j - |x|] in y;
      }
    }
  }

  /**
   * The form data is exactly the non-empty metadata values, each under its own
   * name, each name at most once.
   */
  lemma FormFieldsExact(m: Metadata)
    ensures forall f :: f in FormFields(m) <==> Offered(m, f)
    ensures DistinctNames(FormFields(m))
    ensures |FormFields(m)| <= 4
  {
    var a, b, c, d := Part("title", m.title), Part("doi", m.doi), Part("field", m.field), Part("topic", m.topic);
    assert FormFields(m) == a + b + c + d;
    DistinctConcat(a, b);
    DistinctConcat(a + b, c);
    DistinctConcat(a + b + c, d);
  }

  /** Fills the `data` dict in place, one conditional insertion per field. */
  method BuildFormData(m: Metadata) returns (data: seq<FormField>)
    ensures data == FormFields(m)
  {
    data := [];
    if Truthy(m.title) {
      data := data + [FormField("title", m.title.value)];
    }
    if Truthy(m.doi) {
      data := data + [FormField("doi", m.doi.value)];
    }
    if Truthy(m.field) {
      data := data + [FormField("field", m.field.value)];
    }
    if Truthy(m.topic) {
      data := data + [FormField("topic", m.topic.value)];
    }
  }

  function UploadUrl(apiUrl: string): string {
    apiUrl + "/api/v1/papers/"
  }

  function RequestFor(apiUrl: string, token: string, file: PdfPath, m: Metadata): UploadRequest {
    UploadRequest(UploadUrl(apiUrl), file.name, FormFields(m), "Bearer " + token)
  }

  /** The reply carries the keys `data.paper_id` and `data.status` read after a success, null or not. */
  predicate WellFormed(body: UploadBody) {
    body.TruthyBody? && body.data.Some? && !body.data.value.paperId.Absent? && !body.data.value.status.Absent?
  }

  /**
   * Collecting mode (upload_directory.py): None for a missing file, for any
   * exception inside the request, for a status other than 200/201 and for a
   * body that is not JSON; otherwise the parsed body, whatever it holds.
   */
  function Collected(found: bool, reply: Reply<UploadBody>): (r: Option<UploadBody>)
    ensures r.Some? <==> found && reply.Answered? && IsUploadSuccess(reply.status) && reply.body.Some?
    ensures r.Some? ==> r.value == reply.body.value
  {
    if !found then None
    else match reply
      case TransportFailed => None
      case Answered(status, _, body) => if IsUploadSuccess(status) then body else None
  }

  /**
   * Strict mode (upload_paper.py): a missing file raises FileNotFoundError;
   * a status other than 200/201 goes to raise_for_status(), and when that does
   * not raise the reply is used as if it had succeeded; the paper id and
   * status are then read from it, and their absence is an error too.
   */
  function Strict(path: string, found: bool, reply: Reply<UploadBody>): (r: Result<UploadBody, UploadError>)
    ensures !found ==> r == Err(FileNotFound(path))
    ensures r.Ok? <==> found && reply.Answered? && (IsUploadSuccess(reply.status) || !reply.raisesForStatus)
                       && reply.body.Some? && WellFormed(reply.body.value)
    ensures r.Ok? ==> r.value == reply.body.value
    ensures found && reply.Answered? && !IsUploadSuccess(reply.status) && reply.raisesForStatus
            ==> r == Err(Http(StatusError(reply.status)))
  {
    if !found then Err(FileNotFound(path))
    else match reply
      case TransportFailed => Err(Http(TransportError))
      case Answered(status, raises, body) =>
        if !IsUploadSuccess(status) && raises then Err(Http(StatusError(status)))
        else if body.None? then Err(Http(MalformedBody))
        else if !WellFormed(body.value) then Err(MissingResponseKey)
        else Ok(body.value)
  }

  /**
   * upload_paper.py's upload_paper_with_jwt. No request is built unless the
   * file exists; the request carries the form data of the metadata.
   */
  method UploadStrict(apiUrl: string, token: string, file: PdfPath, found: bool, m: Metadata, reply: Reply<UploadBody>)
    returns (request: Option<UploadRequest>, result: Result<UploadBody, UploadError>)
    ensures request.Some? <==> found
    ensures request.Some? ==> request.value == RequestFor(apiUrl, token, file, m)
    ensures result == Strict(file.path, found, reply)
  {
    if !found {
      return None, Err(FileNotFound(file.path));
    }
    var data := BuildFormData(m);
    request := Some(UploadRequest(UploadUrl(apiUrl), file.name, data, "Bearer " + token));
    result := Strict(file.path, found, reply);
  }

  /**
   * upload_directory.py's upload_paper_with_jwt. No request is built unless
   * the file exists; every failure comes back as None.
   */
  method UploadCollecting(apiUrl: string, token: string, file: PdfPath, found: bool, m: Metadata, reply: Reply<UploadBody>)
    returns (request: Option<UploadRequest>, result: Option<UploadBody>)
    ensures request.Some? <==> found
    ensures request.Some? ==> request.value == RequestFor(apiUrl, token, file, m)
    ensures result == Collected(found, reply)
  {
    if !found {
      return None, None;
    }
    var data := BuildFormData(m);
    request := Some(UploadRequest(UploadUrl(apiUrl), file.name, data, "Bearer " + token));
    result := Collected(found, reply);
  }

  /**
   * The two modes agree: what strict mode accepts, collecting mode returns;
   * and what collecting mode rejects, strict mode rejects too, except a status
   * outside 200/201 for which raise_for_status() does not raise.
   */
  lemma ModesAgree(path: string, found: bool, reply: Reply<UploadBody>)
    ensures Strict(path, found, reply).Ok? && reply.Answered? && IsUploadSuccess(reply.status)
            ==> Collected(found, reply) == Some(Strict(path, found, reply).value)
    ensures Collected(found, reply).None? && !(reply.Answered? && !IsUploadSuccess(reply.status) && !reply.raisesForStatus)
            ==> Strict(path, found, reply).Err?
  {
  }
}
