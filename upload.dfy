/**
 * The proxied upload endpoint: the server parses a multipart form, writes the
 * `video` file to S3 and answers with its public URL. Form parsing and the S3
 * write are outcome parameters; the model records the write issued, if any.
 */
module ProxyUpload {
  import opened Wrappers
  import opened Js
  import Decimal
  import PresignedUrl

  /** A parsed form file, as `formidable` describes it. */
  datatype FormFile = FormFile(originalFilename: Option<string>, filepath: string, mimetype: Option<string>, size: nat)

  /** What form parsing does: fail with an error, or produce the files by field name. */
  datatype ParseOutcome = ParseFailed(message: string) | Parsed(files: map<string, seq<FormFile>>)

  /** The bucket and region variables; this route does not check that they are set. */
  datatype Env = Env(bucketName: Option<string>, region: Option<string>)

  /** The `PutObjectCommand`: the body is streamed from the file's temporary path. */
  datatype PutCommand = PutCommand(bucket: Option<string>, key: string, bodyPath: string, contentType: string, acl: string)

  /** What `s3Client.send` does: complete, or throw (a thrown value may carry no message). */
  datatype SendOutcome = SendOk | SendThrew(message: Option<string>)

  datatype FileDetails = FileDetails(originalFilename: Option<string>, mimetype: Option<string>, size: nat, s3Key: string)

  datatype Reply =
    | MethodNotAllowed(httpMethod: string)
    | ParseError(parseMessage: string)
    | NoFile
    | Uploaded(videoUrl: string, fileDetails: FileDetails)
    | S3Failed(s3Message: Option<string>)
  {
    function Status(): nat {
      match this
      case MethodNotAllowed(_) => 405
      case ParseError(_) => 500
      case NoFile => 400
      case Uploaded(_, _) => 200
      case S3Failed(_) => 500
    }

    /** The `Allow` response header, set only on the 405 reply. */
    function Allow(): Option<seq<string>> {
      if MethodNotAllowed? then Some(["POST"]) else None
    }

    function Message(): Option<string> {
      match this
      case MethodNotAllowed(m) => Some("Method " + m + " Not Allowed")
      case ParseError(m) => Some(m)
      case NoFile => None
      case Uploaded(_, _) => Some("File uploaded to S3 successfully with public-read ACL.")
      case S3Failed(m) => m
    }

    function Error(): Option<string> {
      match this
      case MethodNotAllowed(_) => None
      case ParseError(_) => Some("Error processing file upload.")
      case NoFile => Some("No file uploaded or field name is incorrect.")
      case Uploaded(_, _) => None
      case S3Failed(_) => Some("Failed to upload file to S3.")
    }
  }

  /** One request: the reply sent and the S3 write issued on the way, if any. */
  datatype Exchange = Exchange(reply: Reply, put: Option<PutCommand>)

  /** `files.video?.[0]` */
  function VideoFile(files: map<string, seq<FormFile>>): (f: Option<FormFile>)
    ensures f.Some? <==> "video" in files && |files["video"]| > 0
    ensures f.Some? ==> f.value == files["video"][0]
  {
    if "video" in files && |files["video"]| > 0 then Some(files["video"][0]) else None
  }

  const FallbackKeyPrefix := "upload-"

  /** The original file name, or "upload-" and the time when that is missing or empty: never empty. */
  function ObjectKey(file: FormFile, now: nat): (key: string)
    ensures key != ""
    ensures Present(file.originalFilename) ==> key == file.originalFilename.value
    ensures !Present(file.originalFilename) ==> key == FallbackKeyPrefix + Decimal.NatToString(now)
  {
    if Present(file.originalFilename) then file.originalFilename.value
    else FallbackKeyPrefix + Decimal.NatToString(now)
  }

  const DefaultContentType := "application/octet-stream"

  /** The file's MIME type, or the generic binary type when that is missing or empty: never empty. */
  function ContentType(file: FormFile): (t: string)
    ensures t != ""
    ensures Present(file.mimetype) ==> t == file.mimetype.value
    ensures !Present(file.mimetype) ==> t == DefaultContentType
  {
    if Present(file.mimetype) then file.mimetype.value else DefaultContentType
  }

  /**
   * The public URL of the key: the virtual-hosted S3 URL built from the bucket
   * and region variables as they print, so an unset one reads "undefined".
   */
  function S3Url(env: Env, key: string): (url: string)
    ensures var bucket := Interpolate(env.bucketName);
      var host := PresignedUrl.RegionHost(Interpolate(env.region));
      && |url| == |PresignedUrl.UrlScheme| + |bucket| + |host| + 1 + |key|
      && url[..|PresignedUrl.UrlScheme| + |bucket|] == PresignedUrl.UrlScheme + bucket
      && url[|PresignedUrl.UrlScheme| + |bucket|..|url| - |key| - 1] == host
      && url[|url| - |key| - 1] == '/'
      && url[|url| - |key|..] == key
    ensures env.bucketName == None ==> url[..17] == "https://undefined"
  {
    PresignedUrl.PublicUrl(Interpolate(env.bucketName), Interpolate(env.region), key)
  }

  function Handle(httpMethod: string, parse: ParseOutcome, env: Env, now: nat, send: SendOutcome): (x: Exchange)
    ensures httpMethod != "POST" ==> x == Exchange(MethodNotAllowed(httpMethod), None)
    ensures x.reply.Allow() == Some(["POST"]) <==> httpMethod != "POST"
    ensures httpMethod == "POST" && parse.ParseFailed? ==> x == Exchange(ParseError(parse.message), None)
    ensures httpMethod == "POST" && parse.Parsed? && VideoFile(parse.files).None? ==> x == Exchange(NoFile, None)
    // S3 is written only for a POST whose form parsed and holds a `video` file
    ensures x.put.Some? <==> httpMethod == "POST" && parse.Parsed? && VideoFile(parse.files).Some?
    ensures x.put.Some? ==>
      var file := VideoFile(parse.files).value;
      x.put.value == PutCommand(env.bucketName, ObjectKey(file, now), file.filepath, ContentType(file), "public-read")
    ensures x.reply.Uploaded? <==> x.put.Some? && send.SendOk?
    ensures x.reply.Uploaded? ==>
      var file := VideoFile(parse.files).value;
      && x.reply.videoUrl == S3Url(env, x.put.value.key)
      && x.reply.fileDetails == FileDetails(file.originalFilename, file.mimetype, file.size, x.put.value.key)
    ensures x.put.Some? && send.SendThrew? ==> x.reply == S3Failed(send.message)
  {
    if httpMethod != "POST" then Exchange(MethodNotAllowed(httpMethod), None)
    else
      match parse
      case ParseFailed(m) => Exchange(ParseError(m), None)
      case Parsed(files) =>
        match VideoFile(files)
        case None => Exchange(NoFile, None)
        case Some(file) =>
          var key := ObjectKey(file, now);
          var command := PutCommand(env.bucketName, key, file.filepath, ContentType(file), "public-read");
          match send
          case SendOk =>
            var details := FileDetails(file.originalFilename, file.mimetype, file.size, key);
            Exchange(Uploaded(S3Url(env, key), details), Some(command))
          case SendThrew(m) => Exchange(S3Failed(m), Some(command))
  }

  /** A successful reply's URL names the bucket and ends in the key it reports, and that key is the one written. */
  lemma UploadedReplyConsistent(httpMethod: string, parse: ParseOutcome, env: Env, now: nat, send: SendOutcome)
    requires Handle(httpMethod, parse, env, now, send).reply.Uploaded?
    ensures var x := Handle(httpMethod, parse, env, now, send);
      var url := x.reply.videoUrl;
      var key := x.reply.fileDetails.s3Key;
      && x.reply.Status() == 200
      && x.put.Some? && x.put.value.key == key
      && url == S3Url(env, key)
      && url[..|PresignedUrl.UrlScheme| + |Interpolate(env.bucketName)|] == PresignedUrl.UrlScheme + Interpolate(env.bucketName)
      && url[|url| - |key|..] == key
  {
  }
}
