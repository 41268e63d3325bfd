/**
 * The presigned-upload endpoint: request validation, the storage key it
 * derives from the file name and the clock, and the public URL it reports.
 * The signer is an outcome parameter; the model records the signing request
 * the handler issues, if any.
 */
module PresignedUrl {
  import opened Wrappers
  import opened Js
  import Decimal

  /** A character the key keeps: `[a-zA-Z0-9.]`. */
  predicate SafeChar(c: char) {
    ('a' <= c <= 'z') || ('A' <= c <= 'Z') || ('0' <= c <= '9') || c == '.'
  }

  /** Every character other than an ASCII letter, a digit or '.' becomes '_', one for one. */
  function Sanitize(name: string): (r: string)
    ensures |r| == |name|
    ensures forall i :: 0 <= i < |name| ==> r[i] == (if SafeChar(name[i]) then name[i] else '_')
  {
    if name == [] then [] else [if SafeChar(name[0]) then name[0] else '_'] + Sanitize(name[1..])
  }

  /** Sanitising twice is sanitising once. */
  lemma {:induction false} SanitizeIdempotent(name: string)
    ensures Sanitize(Sanitize(name)) == Sanitize(name)
  {
    if name != [] {
      SanitizeIdempotent(name[1..]);
      assert Sanitize(name)[1..] == Sanitize(name[1..]);
    }
  }

  /** The names sanitising leaves alone are exactly those made of safe characters and underscores. */
  lemma SanitizeFixedPoints(name: string)
    ensures Sanitize(name) == name <==> forall i :: 0 <= i < |name| ==> SafeChar(name[i]) || name[i] == '_'
  {
    if forall i :: 0 <= i < |name| ==> SafeChar(name[i]) || name[i] == '_' {
      assert forall i :: 0 <= i < |name| ==> Sanitize(name)[i] == name[i];
    } else {
      var i :| 0 <= i < |name| && !(SafeChar(name[i]) || name[i] == '_');
      assert Sanitize(name)[i] != name[i];
    }
  }

  const KeyPrefix := "uploads/"

  /** The object key: the uploads prefix, the time in decimal, '-', and the sanitised file name. */
  function UploadKey(now: nat, filename: string): (key: string)
    ensures |key| > |KeyPrefix| + |filename| && key[..|KeyPrefix|] == KeyPrefix
    // the key names one object directly under uploads/: no further '/' follows the prefix
    ensures forall i :: |KeyPrefix| <= i < |key| ==> key[i] != '/'
    ensures key[|key| - |filename|..] == Sanitize(filename)
  {
    KeyPrefix + (Decimal.NatToString(now) + "-" + Sanitize(filename))
  }

  /** The first position of `c` in `s`, or -1. */
  function IndexOf(s: string, c: char): (i: int)
    ensures -1 <= i < |s|
    ensures i >= 0 ==> s[i] == c
    ensures forall j :: 0 <= j < |s| && (i < 0 || j < i) ==> s[j] != c
  {
    if s == [] then -1
    else if s[0] == c then 0
    else
      var k := IndexOf(s[1..], c);
      if k < 0 then -1 else k + 1
  }

  /** Reads a key back into its timestamp and sanitised name; the inverse of `UploadKey`. */
  function ParseKey(key: string): Option<(nat, string)> {
    if |key| < |KeyPrefix| || key[..|KeyPrefix|] != KeyPrefix then None
    else
      var rest := key[|KeyPrefix|..];
      var i := IndexOf(rest, '-');
      if i <= 0 || !Decimal.AllDigits(rest[..i]) then None
      else Some((Decimal.ParseNat(rest[..i]), rest[i + 1..]))
  }

  /** A key determines the timestamp and the sanitised name it was built from. */
  lemma ParseUploadKey(now: nat, filename: string)
    ensures ParseKey(UploadKey(now, filename)) == Some((now, Sanitize(filename)))
  {
    var digits := Decimal.NatToString(now);
    var key := UploadKey(now, filename);
    var rest := key[|KeyPrefix|..];
    assert key[..|KeyPrefix|] == KeyPrefix;
    assert rest == digits + "-" + Sanitize(filename);
    assert rest[|digits|] == '-';
    assert forall j :: 0 <= j < |digits| ==> rest[j] == digits[j] && Decimal.IsDigit(rest[j]);
    assert IndexOf(rest, '-') == |digits|;
    assert rest[..|digits|] == digits;
    assert rest[|digits| + 1..] == Sanitize(filename);
    Decimal.ParseNatToString(now);
  }

  /** Two uploads at different milliseconds never share a key, whatever their file names. */
  lemma UploadKeyInjective(now1: nat, filename1: string, now2: nat, filename2: string)
    requires UploadKey(now1, filename1) == UploadKey(now2, filename2)
    ensures now1 == now2 && Sanitize(filename1) == Sanitize(filename2)
  {
    ParseUploadKey(now1, filename1);
    ParseUploadKey(now2, filename2);
  }

  const UrlScheme := "https://"

  /** The regional S3 endpoint that follows the bucket name in a virtual-hosted URL. */
  function RegionHost(region: string): string {
    ".s3." + region + ".amazonaws.com"
  }

  /**
   * The virtual-hosted S3 URL of a key. It splits into exactly four parts:
   * the scheme and bucket, the region's endpoint, a '/', and the key.
   */
  function PublicUrl(bucket: string, region: string, key: string): (url: string)
    ensures |url| == |UrlScheme| + |bucket| + |RegionHost(region)| + 1 + |key|
    ensures url[..|UrlScheme| + |bucket|] == UrlScheme + bucket
    ensures url[|UrlScheme| + |bucket|..|url| - |key| - 1] == RegionHost(region)
    ensures url[|url| - |key| - 1] == '/'
    ensures url[|url| - |key|..] == key
  {
    var origin := UrlScheme + bucket;
    var host := RegionHost(region);
    var url := origin + host + "/" + key;
    assert url[..|origin|] == origin;
    assert url[|origin|..|url| - |key| - 1] == host;
    url
  }

  /** Within one bucket and region, the public URL determines the key. */
  lemma PublicUrlInjective(bucket: string, region: string, key1: string, key2: string)
    requires PublicUrl(bucket, region, key1) == PublicUrl(bucket, region, key2)
    ensures key1 == key2
  {
  }

  /** The presigned URL's validity, in seconds. */
  const ExpiresIn: nat := 300

  /** The bucket and region the module-load check guarantees are set. */
  datatype Config = Config(bucketName: string, region: string)

  datatype Request = Request(httpMethod: string, body: Record)

  /** The `PutObjectCommand` to be signed. */
  datatype PutCommand = PutCommand(bucket: string, key: string, contentType: Value, acl: string)

  /** A call to the URL signer: the command and the validity window. */
  datatype SignRequest = SignRequest(command: PutCommand, expiresIn: nat)

  /** What the signer does: return a URL, or throw. */
  datatype SignOutcome = Signed(url: string) | SignThrew(error: Thrown)

  datatype Reply =
    | MethodNotAllowed
    | MissingFields
    | Issued(uploadUrl: string, key: string, finalUrl: string, bucketName: string)
    | Failed(message: string)
  {
    function Status(): nat {
      match this
      case MethodNotAllowed => 405
      case MissingFields => 400
      case Issued(_, _, _, _) => 200
      case Failed(_) => 500
    }

    function Error(): Option<string> {
      match this
      case MethodNotAllowed => Some("Method Not Allowed")
      case MissingFields => Some("filename (string), fileType (string), videoWidth (number), and videoHeight (number) are required")
      case Issued(_, _, _, _) => None
      case Failed(_) => Some("Failed to create pre-signed URL")
    }
  }

  /** One request: the reply sent and the signing request issued on the way, if any. */
  datatype Exchange = Exchange(reply: Reply, signing: Option<SignRequest>)

  /** The 400 guard: `filename` and `fileType` truthy, `videoWidth` and `videoHeight` numbers. */
  predicate FieldsPresent(body: Record) {
    && Truthy(Get(body, "filename"))
    && Truthy(Get(body, "fileType"))
    && Get(body, "videoWidth").Number?
    && Get(body, "videoHeight").Number?
  }

  /** The log line before signing interpolates `filename` and `fileType`: both must be printable. */
  predicate FieldsPrintable(body: Record) {
    Printable(Get(body, "filename")) && Printable(Get(body, "fileType"))
  }

  /** What `filename.replace` throws when a truthy `filename` is not a string; the handler catches it. */
  const ReplaceTypeError := "filename.replace is not a function"

  function Handle(req: Request, cfg: Config, now: nat, sign: SignOutcome): (x: Exchange)
    ensures req.httpMethod != "POST" ==> x == Exchange(MethodNotAllowed, None)
    ensures req.httpMethod == "POST" && !FieldsPresent(req.body) ==> x == Exchange(MissingFields, None)
    // an unprintable file name or type passes the guard, then the log line throws and the catch answers 500
    ensures req.httpMethod == "POST" && FieldsPresent(req.body) && !FieldsPrintable(req.body) ==>
      x == Exchange(Failed(NoPrimitiveError), None)
    // a printable truthy non-string file name gets past the log line, then `.replace` throws: 500 again
    ensures req.httpMethod == "POST" && FieldsPresent(req.body) && FieldsPrintable(req.body) && !Get(req.body, "filename").Str? ==>
      x == Exchange(Failed(ReplaceTypeError), None)
    // a URL is signed only for a POST with every field present and printable and a string file name,
    // for the derived key, for 300 seconds
    ensures x.signing.Some? <==>
      req.httpMethod == "POST" && FieldsPresent(req.body) && FieldsPrintable(req.body) && Get(req.body, "filename").Str?
    ensures x.signing.Some? ==>
      x.signing.value == SignRequest(
        PutCommand(cfg.bucketName, UploadKey(now, Get(req.body, "filename").s), Get(req.body, "fileType"), "public-read"),
        ExpiresIn)
    ensures x.reply.Issued? <==> x.signing.Some? && sign.Signed?
    ensures x.reply.Issued? ==>
      && x.reply.uploadUrl == sign.url
      && x.reply.key == x.signing.value.command.key
      && x.reply.finalUrl == PublicUrl(cfg.bucketName, cfg.region, x.reply.key)
      && x.reply.bucketName == cfg.bucketName
    ensures x.signing.Some? && sign.SignThrew? ==> x.reply == Failed(CaughtMessage(sign.error))
  {
    if req.httpMethod != "POST" then Exchange(MethodNotAllowed, None)
    else if !FieldsPresent(req.body) then Exchange(MissingFields, None)
    else if !FieldsPrintable(req.body) then Exchange(Failed(NoPrimitiveError), None)
    else if !Get(req.body, "filename").Str? then Exchange(Failed(ReplaceTypeError), None)
    else
      var key := UploadKey(now, Get(req.body, "filename").s);
      var request := SignRequest(PutCommand(cfg.bucketName, key, Get(req.body, "fileType"), "public-read"), ExpiresIn);
      match sign
      case Signed(url) => Exchange(Issued(url, key, PublicUrl(cfg.bucketName, cfg.region, key), cfg.bucketName), Some(request))
      case SignThrew(e) => Exchange(Failed(CaughtMessage(e)), Some(request))
  }

  /** A successful reply's key starts with uploads/ and ends the public URL, which names the configured bucket. */
  lemma IssuedReplyConsistent(req: Request, cfg: Config, now: nat, sign: SignOutcome)
    requires Handle(req, cfg, now, sign).reply.Issued?
    ensures var r := Handle(req, cfg, now, sign).reply;
      && r.Status() == 200
      && r.key[..|KeyPrefix|] == KeyPrefix
      && r.finalUrl[|r.finalUrl| - |r.key|..] == r.key
      && r.finalUrl[..|UrlScheme| + |cfg.bucketName|] == UrlScheme + cfg.bucketName
  {
    var r := Handle(req, cfg, now, sign).reply;
    assert r.finalUrl == PublicUrl(cfg.bucketName, cfg.region, r.key);
    assert r.key == UploadKey(now, Get(req.body, "filename").s);
  }

  /** An empty or missing file name or file type is a 400, with nothing signed. */
  lemma MissingNameOrTypeRejected(body: Record, cfg: Config, now: nat, sign: SignOutcome)
    requires Get(body, "filename") in {Undefined, Str("")} || Get(body, "fileType") in {Undefined, Str("")}
    ensures Handle(Request("POST", body), cfg, now, sign) == Exchange(MissingFields, None)
    ensures Handle(Request("POST", body), cfg, now, sign).reply.Status() == 400
  {
  }
}
