/**
 * The delete-object endpoint: method and body validation, a log line that
 * interpolates the bucket and key, then one `DeleteObjectCommand` whose
 * outcome decides the status code. The S3 call is an outcome parameter; the
 * model records the command issued, if any.
 */
module DeleteObject {
  import opened Wrappers
  import opened Js

  datatype Request = Request(httpMethod: string, body: Record)

  /** The command sent to S3: the body's `s3Bucket` and `s3Key`, as given. */
  datatype DeleteCommand = DeleteCommand(bucket: Value, key: Value)

  /** What `s3Client.send` does: complete, or throw. */
  datatype SendOutcome = Sent | SendThrew(error: Thrown)

  datatype Reply = MethodNotAllowed | MissingFields | Deleted | Failed(message: string) {
    function Status(): nat {
      match this
      case MethodNotAllowed => 405
      case MissingFields => 400
      case Deleted => 200
      case Failed(_) => 500
    }
  }

  /** One request: the reply sent and the delete command issued on the way, if any. */
  datatype Exchange = Exchange(reply: Reply, deletion: Option<DeleteCommand>)

  function Handle(req: Request, send: SendOutcome): (x: Exchange)
    ensures req.httpMethod != "POST" ==> x == Exchange(MethodNotAllowed, None)
    ensures req.httpMethod == "POST" && !(Truthy(Get(req.body, "s3Bucket")) && Truthy(Get(req.body, "s3Key"))) ==>
      x == Exchange(MissingFields, None)
    // an unprintable bucket or key passes the guard, then the log line throws and the catch answers 500
    ensures
      && req.httpMethod == "POST"
      && Truthy(Get(req.body, "s3Bucket")) && Truthy(Get(req.body, "s3Key"))
      && !(Printable(Get(req.body, "s3Bucket")) && Printable(Get(req.body, "s3Key")))
      ==> x == Exchange(Failed(NoPrimitiveError), None)
    // a valid request issues exactly one delete, for exactly the given bucket and key
    ensures x.deletion.Some? <==>
      && req.httpMethod == "POST"
      && Truthy(Get(req.body, "s3Bucket")) && Truthy(Get(req.body, "s3Key"))
      && Printable(Get(req.body, "s3Bucket")) && Printable(Get(req.body, "s3Key"))
    ensures x.deletion.Some? ==> x.deletion.value == DeleteCommand(Get(req.body, "s3Bucket"), Get(req.body, "s3Key"))
    // once issued, the outcome alone decides between 200 and 500
    ensures x.deletion.Some? ==> x.reply == (if send.Sent? then Deleted else Failed(CaughtMessage(send.error)))
    ensures x.reply.Status() == 200 <==> x.deletion.Some? && send.Sent?
  {
    if req.httpMethod != "POST" then Exchange(MethodNotAllowed, None)
    else
      var bucket := Get(req.body, "s3Bucket");
      var key := Get(req.body, "s3Key");
      if !Truthy(bucket) || !Truthy(key) then Exchange(MissingFields, None)
      else if !Printable(bucket) || !Printable(key) then Exchange(Failed(NoPrimitiveError), None)
      else
        var command := DeleteCommand(bucket, key);
        match send
        case Sent => Exchange(Deleted, Some(command))
        case SendThrew(e) => Exchange(Failed(CaughtMessage(e)), Some(command))
  }
}
