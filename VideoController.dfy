/**
 * The upload endpoint of the backend (backend/src/controller/videoController.ts):
 * validates the request body, names the object `<timestamp>_<fileName>` and answers
 * with a pre-signed upload URL for the temporary bucket.
 *
 * `Date.now()` is the `timestamp` parameter; the URL signer is the `presign` parameter,
 * `None` standing for a signer that throws.
 */
module VideoController {
  import opened Wrappers
  import opened JsValue
  import opened Text
  import opened Schema

  /** 25 * 1024 * 1024 bytes. */
  const MaxUploadBytes: nat := 26214400
  const UploadBucket: string := "anand-video-stream-temp"

  const FileNameRequired: string := "File name is required"
  const FileTypeRequired: string := "File type is required"
  const FileTooLarge: string := "File size should not exceed 25MB"

  const UploadSchema: ObjectSchema := ObjectSchema([
    Field("fileName", StringType(None, [MinLength(1, FileNameRequired)])),
    Field("fileSize", NumberType(MaxUploadBytes as real, FileTooLarge)),
    Field("fileType", StringType(None, [MinLength(1, FileTypeRequired)]))], None)

  /** The upload schema has no email check; what `.email` would accept is irrelevant. */
  const NoEmailRule: string -> bool := (s: string) => true

  /** The reference: the body the endpoint accepts. There is no lower bound on the size. */
  predicate ValidUploadRequest(body: Value) {
    && body.Object?
    && Property(body.fields, "fileName").Str? && Property(body.fields, "fileName").s != []
    && Property(body.fields, "fileSize").Number? && Property(body.fields, "fileSize").n <= MaxUploadBytes as real
    && Property(body.fields, "fileType").Str? && Property(body.fields, "fileType").s != []
  }

  lemma UploadSchemaAccepts(body: Value)
    ensures SafeParse(UploadSchema, body, NoEmailRule).Ok? <==> ValidUploadRequest(body)
  {
    SafeParseAccepts(UploadSchema, body, NoEmailRule);
    if body.Object? {
      var f := body.fields;
      var shape := UploadSchema.shape;
      if ValidUploadRequest(body) {
        forall i | 0 <= i < |shape| ensures FieldValid(shape[i].kind, Property(f, shape[i].name), NoEmailRule) {
          if i == 0 || i == 2 {
            var s := Property(f, shape[i].name).s;
            assert Utf16Length(s) != 0;
          }
        }
      }
      if ShapeValid(shape, f, NoEmailRule) {
        assert FieldValid(shape[0].kind, Property(f, shape[0].name), NoEmailRule);
        assert FieldValid(shape[1].kind, Property(f, shape[1].name), NoEmailRule);
        assert FieldValid(shape[2].kind, Property(f, shape[2].name), NoEmailRule);
        assert CheckPasses(shape[0].kind.checks[0], Property(f, "fileName").s, NoEmailRule);
        assert CheckPasses(shape[2].kind.checks[0], Property(f, "fileType").s, NoEmailRule);
      }
    }
  }

  /** `${Date.now()}_${fileName}` */
  function KeyName(timestamp: nat, fileName: string): string {
    NatToString(timestamp) + "_" + fileName
  }

  /** The index of the first underscore at or after `i`, or `|s|`. */
  function FirstUnderscore(s: string, i: nat): (k: nat)
    requires i <= |s|
    ensures i <= k <= |s|
    ensures k < |s| ==> s[k] == '_'
    ensures forall j :: i <= j < k ==> s[j] != '_'
    decreases |s| - i
  {
    if i == |s| || s[i] == '_' then i else FirstUnderscore(s, i + 1)
  }

  /** Reads a key back into its timestamp and the file name: the partner of KeyName. */
  function SplitKeyName(key: string): Option<(nat, string)> {
    var k := FirstUnderscore(key, 0);
    if k == |key| then None
    else
      match ParseNat(key[..k])
      case None => None
      case Some(t) => Some((t, key[k + 1..]))
  }

  lemma KeyNameRoundTrip(timestamp: nat, fileName: string)
    ensures SplitKeyName(KeyName(timestamp, fileName)) == Some((timestamp, fileName))
  {
    var digits := NatToString(timestamp);
    var key := KeyName(timestamp, fileName);
    assert key[|digits|] == '_';
    forall j | 0 <= j < |digits| ensures key[j] != '_' {
      assert key[j] == digits[j];
      assert IsDigit(digits[j]);
    }
    var k := FirstUnderscore(key, 0);
    assert k == |digits|;
    assert key[..k] == digits;
    assert key[k + 1..] == fileName;
    NatToStringRoundTrip(timestamp);
  }

  /** Two uploads get the same key only with the same timestamp and the same file name. */
  lemma KeyNameInjective(t1: nat, f1: string, t2: nat, f2: string)
    ensures KeyName(t1, f1) == KeyName(t2, f2) ==> t1 == t2 && f1 == f2
  {
    KeyNameRoundTrip(t1, f1);
    KeyNameRoundTrip(t2, f2);
  }

  datatype UploadData = UploadData(url: string, keyName: string)

  /** The JSON answer; `statusCode` is both the HTTP status and the body's field. */
  datatype ApiResponse = ApiResponse(statusCode: nat, message: string, data: Option<UploadData>, success: bool)

  const UploadFailedMessage: string := "Something went wrong while uploading video"
  const UploadOkMessage: string := "Pre-signed URL generated successfully"

  /** `uploadVideo(req, res)` for a request whose parsed body is `body`. */
  function UploadVideo(body: Value, timestamp: nat, presign: (string, string, string) -> Option<string>): (resp: ApiResponse)
    ensures resp.success <==> resp.statusCode == 200
    ensures resp.data.Some? <==> resp.statusCode == 200
    ensures resp.statusCode == 400 || resp.statusCode == 200 || resp.statusCode == 500
  {
    match SafeParse(UploadSchema, body, NoEmailRule)
    case Err(issues) => ApiResponse(400, JoinWith(Messages(issues), ", "), None, false)
    case Ok(_) =>
      UploadSchemaAccepts(body);
      var fileName := Property(body.fields, "fileName").s;
      var fileType := Property(body.fields, "fileType").s;
      var keyName := KeyName(timestamp, fileName);
      match presign(UploadBucket, keyName, fileType)
      case None => ApiResponse(500, UploadFailedMessage, None, false)
      case Some(url) => ApiResponse(200, UploadOkMessage, Some(UploadData(url, keyName)), true)
  }

  /**
   * A valid body gets a URL signed for the temporary bucket, the key
   * `<timestamp>_<fileName>` and the declared content type; an invalid one gets 400.
   */
  lemma UploadVideoOutcome(body: Value, timestamp: nat, presign: (string, string, string) -> Option<string>)
    ensures var resp := UploadVideo(body, timestamp, presign);
      && (resp.statusCode == 400 <==> !ValidUploadRequest(body))
      && (ValidUploadRequest(body) ==>
            var key := KeyName(timestamp, Property(body.fields, "fileName").s);
            var signed := presign(UploadBucket, key, Property(body.fields, "fileType").s);
            && (resp.statusCode == 200 <==> signed.Some?)
            && (signed.Some? ==> resp.data == Some(UploadData(signed.value, key)) && resp.message == UploadOkMessage)
            && (signed.None? ==> resp.message == UploadFailedMessage))
  {
    UploadSchemaAccepts(body);
  }

  /** A rejected body gets every issue's message, joined with ", ", in field order. */
  lemma RejectionListsIssues(body: Value, timestamp: nat, presign: (string, string, string) -> Option<string>)
    requires !ValidUploadRequest(body)
    ensures SafeParse(UploadSchema, body, NoEmailRule).Err?
    ensures UploadVideo(body, timestamp, presign)
         == ApiResponse(400, JoinWith(Messages(SafeParse(UploadSchema, body, NoEmailRule).error), ", "), None, false)
  {
    UploadSchemaAccepts(body);
  }

  /** The body fields of an upload request. */
  function UploadBody(fileName: Value, fileSize: Value, fileType: Value): Value {
    Object(map["fileName" := fileName, "fileSize" := fileSize, "fileType" := fileType])
  }

  /** An over-size file with a name and a type is refused with the size message alone. */
  lemma OversizeRejected(name: string, size: real, contentType: string, timestamp: nat, presign: (string, string, string) -> Option<string>)
    requires name != [] && contentType != [] && size > MaxUploadBytes as real
    ensures UploadVideo(UploadBody(Str(name), Number(size), Str(contentType)), timestamp, presign)
         == ApiResponse(400, FileTooLarge, None, false)
  {
    var body := UploadBody(Str(name), Number(size), Str(contentType));
    var f := body.fields;
    assert Utf16Length(name) >= 1 && Utf16Length(contentType) >= 1;
    var c0 := CheckField(UploadSchema.shape[0], Property(f, "fileName"), NoEmailRule);
    var c1 := CheckField(UploadSchema.shape[1], Property(f, "fileSize"), NoEmailRule);
    var c2 := CheckField(UploadSchema.shape[2], Property(f, "fileType"), NoEmailRule);
    assert c0 == FieldResult([], false);
    assert c1 == FieldResult([Issue(["fileSize"], FileTooLarge)], false);
    assert c2 == FieldResult([], false);
    ThreeFields(UploadSchema.shape, f, NoEmailRule);
  }

  /** The size bound is inclusive and there is no lower bound: any size up to 25MB passes. */
  lemma SizeBoundInclusive(size: real)
    requires size <= MaxUploadBytes as real
    ensures ValidUploadRequest(UploadBody(Str("a.mp4"), Number(size), Str("video/mp4")))
  {
  }

  /**
   * A request whose body is undefined is refused with zod's "Required". An empty
   * body that a JSON parser turned into `{}` is `EmptyBodyRejected`'s case instead.
   */
  lemma MissingBodyRejected(timestamp: nat, presign: (string, string, string) -> Option<string>)
    ensures UploadVideo(Undefined, timestamp, presign) == ApiResponse(400, "Required", None, false)
  {
    NonObjectRejected(UploadSchema, Undefined, NoEmailRule);
  }

  /** An empty object is refused with one "Required" per field. */
  lemma EmptyBodyRejected(timestamp: nat, presign: (string, string, string) -> Option<string>)
    ensures UploadVideo(Object(map[]), timestamp, presign).message == "Required, Required, Required"
  {
    var issues := [Issue(["fileName"], "Required"), Issue(["fileSize"], "Required"), Issue(["fileType"], "Required")];
    EmptyBodyIssues();
    var ms := Messages(issues);
    assert ms == ["Required", "Required", "Required"];
    JoinRequired();
  }

  /** Every field of the upload schema is missing from an empty object. */
  lemma EmptyBodyIssues()
    ensures SafeParse(UploadSchema, Object(map[]), NoEmailRule)
         == Err([Issue(["fileName"], "Required"), Issue(["fileSize"], "Required"), Issue(["fileType"], "Required")])
  {
    var f: map<string, Value> := map[];
    var shape := UploadSchema.shape;
    assert CheckField(shape[0], Undefined, NoEmailRule) == FieldResult([Issue(["fileName"], "Required")], true);
    assert CheckField(shape[1], Undefined, NoEmailRule) == FieldResult([Issue(["fileSize"], "Required")], true);
    assert CheckField(shape[2], Undefined, NoEmailRule) == FieldResult([Issue(["fileType"], "Required")], true);
    ThreeFields(shape, f, NoEmailRule);
    var checked := CheckShape(shape, f, NoEmailRule);
    assert checked.issues == [Issue(["fileName"], "Required"), Issue(["fileSize"], "Required"), Issue(["fileType"], "Required")];
    assert checked.typeError;
  }

  lemma JoinRequired()
    ensures JoinWith(["Required", "Required", "Required"], ", ") == "Required, Required, Required"
  {
    var ms := ["Required", "Required", "Required"];
    assert ms[1..][1..] == ["Required"];
    assert JoinWith(ms[1..], ", ") == "Required" + ", " + "Required";
  }

  /** `getVideos`: a fixed answer, status 200 but `success` false and no data. */
  function GetVideos(): (resp: ApiResponse)
    ensures resp.statusCode == 200 && !resp.success && resp.data.None?
    ensures resp.message == "all are going GOOD"
  {
    ApiResponse(200, "all are going GOOD", None, false)
  }
}
