/**
 * The render-submission endpoint: its method and credential guards, and the
 * option record it hands to the Lambda renderer.
 */
module LambdaRender {
  import opened Wrappers
  import opened Js
  import Constants

  /** The four credential variables the handler consults; `None` is an unset variable. */
  datatype Env = Env(
    awsAccessKeyId: Option<string>,
    remotionAwsAccessKeyId: Option<string>,
    awsSecretAccessKey: Option<string>,
    remotionAwsSecretAccessKey: Option<string>)

  predicate HasAccessKey(env: Env) {
    Present(env.awsAccessKeyId) || Present(env.remotionAwsAccessKeyId)
  }

  predicate HasSecretKey(env: Env) {
    Present(env.awsSecretAccessKey) || Present(env.remotionAwsSecretAccessKey)
  }

  /** The errors the handler throws, in the order it checks for them. */
  datatype RenderError = NotPost | NoAccessKey | NoSecretKey {
    function Message(): string {
      match this
      case NotPost => "Only POST requests are allowed"
      case NoAccessKey => "Set up Remotion Lambda to render videos. See the README.md for how to do so."
      case NoSecretKey => "The environment variable REMOTION_AWS_SECRET_ACCESS_KEY is missing. Add it to your .env file."
    }
  }

  /** The props keys that are split off and never forwarded as input props. */
  const OverrideKeys: set<string> := {"width", "height", "durationInFrames", "fps"}

  const ServeUrl := "https://remotionlambda-useast1-9m1089x0yl.s3.us-east-1.amazonaws.com/sites/remotion-render/index.html"

  /**
   * Where the render runs: the function name `speculateFunctionName` derives
   * from the configured disk, memory and timeout, and the configured region.
   */
  datatype Deployment = Deployment(functionName: string, region: string)

  datatype DownloadBehavior = DownloadBehavior(kind: string, fileName: string)

  /** The option record for `renderMediaOnLambda`; `None` means the key is not set at all. */
  datatype RenderOptions = RenderOptions(
    codec: string,
    functionName: string,
    region: string,
    serveUrl: string,
    composition: string,
    inputProps: Record,
    framesPerLambda: nat,
    downloadBehavior: DownloadBehavior,
    forceWidth: Option<real>,
    forceHeight: Option<real>,
    frameRange: Option<(real, real)>)

  /** A defined numeric prop, read as a number (the schema guarantees its kind). */
  function NumberProp(props: Record, key: Constants.PropKey): (n: real)
    requires Constants.IsCompositionProps(props)
    requires key.Spec().kind == Constants.NumberKind && Defined(props, key.Name())
    ensures Get(props, key.Name()) == Number(n)
  {
    assert Constants.Conforms(Get(props, key.Name()), key.Spec());
    Get(props, key.Name()).n
  }

  /**
   * The option record built from the validated props: the overrides are split
   * off, width and height become `forceWidth`/`forceHeight` when defined, a
   * positive duration N becomes the inclusive range [0, N-1], and fps is dropped.
   */
  function BuildRenderOptions(id: string, props: Record, deployment: Deployment): (o: RenderOptions)
    requires Constants.IsCompositionProps(props)
    // the forwarded input props are the props minus the four override keys, every other key unchanged
    ensures o.inputProps.Keys == props.Keys - OverrideKeys
    ensures forall key :: key in o.inputProps ==> o.inputProps[key] == props[key]
    // forceWidth / forceHeight are present exactly when the prop is defined, and carry its value (0 included)
    ensures o.forceWidth.Some? <==> Defined(props, "width")
    ensures o.forceWidth.Some? ==> Get(props, "width") == Number(o.forceWidth.value)
    ensures o.forceHeight.Some? <==> Defined(props, "height")
    ensures o.forceHeight.Some? ==> Get(props, "height") == Number(o.forceHeight.value)
    // a frame range is set exactly for a defined positive duration, and then covers exactly N frames from 0
    ensures o.frameRange.Some? <==> Defined(props, "durationInFrames") && NumberProp(props, Constants.Duration) > 0.0
    ensures o.frameRange.Some? ==>
      var (first, last) := o.frameRange.value;
      first == 0.0 && last - first + 1.0 == NumberProp(props, Constants.Duration)
    // fixed fields, whatever the input
    ensures o.codec == "h264" && o.composition == id && o.framesPerLambda == 10
    ensures o.downloadBehavior == DownloadBehavior("download", "video.mp4")
    ensures o.serveUrl == ServeUrl
    ensures o.functionName == deployment.functionName && o.region == deployment.region
  {
    var forceWidth := if Defined(props, "width") then Some(NumberProp(props, Constants.Width)) else None;
    var forceHeight := if Defined(props, "height") then Some(NumberProp(props, Constants.Height)) else None;
    var frameRange :=
      if Defined(props, "durationInFrames") && NumberProp(props, Constants.Duration) > 0.0
      then Some((0.0, NumberProp(props, Constants.Duration) - 1.0))
      else None;
    RenderOptions(
      codec := "h264",
      functionName := deployment.functionName,
      region := deployment.region,
      serveUrl := ServeUrl,
      composition := id,
      inputProps := props - OverrideKeys,
      framesPerLambda := 10,
      downloadBehavior := DownloadBehavior("download", "video.mp4"),
      forceWidth := forceWidth,
      forceHeight := forceHeight,
      frameRange := frameRange)
  }

  /**
   * The handler: the method guard, then the two credential guards, and only
   * then the option record that is submitted.
   */
  function Render(httpMethod: string, env: Env, id: string, props: Record, deployment: Deployment): (r: Result<RenderOptions, RenderError>)
    requires Constants.IsCompositionProps(props)
    ensures httpMethod != "POST" ==> r == Failure(NotPost)
    ensures httpMethod == "POST" && !HasAccessKey(env) ==> r == Failure(NoAccessKey)
    ensures httpMethod == "POST" && HasAccessKey(env) && !HasSecretKey(env) ==> r == Failure(NoSecretKey)
    ensures r.Success? <==> httpMethod == "POST" && HasAccessKey(env) && HasSecretKey(env)
    ensures r.Success? ==> r.value == BuildRenderOptions(id, props, deployment)
  {
    if httpMethod != "POST" then Failure(NotPost)
    else if !HasAccessKey(env) then Failure(NoAccessKey)
    else if !HasSecretKey(env) then Failure(NoSecretKey)
    else Success(BuildRenderOptions(id, props, deployment))
  }

  /** No frame-rate value reaches the renderer: the options do not depend on `fps` at all. */
  lemma FpsNeverForwarded(id: string, props: Record, deployment: Deployment, fps: Value)
    requires Constants.IsCompositionProps(props)
    requires fps == Undefined || fps.Number?
    ensures Constants.IsCompositionProps(props["fps" := fps])
    ensures "fps" !in BuildRenderOptions(id, props, deployment).inputProps
    ensures BuildRenderOptions(id, props["fps" := fps], deployment) == BuildRenderOptions(id, props, deployment)
  {
    var props' := props["fps" := fps];
    forall key: Constants.PropKey
      ensures Constants.Conforms(Get(props', key.Name()), key.Spec())
    {
      if key != Constants.Fps {
        assert Get(props', key.Name()) == Get(props, key.Name());
      }
    }
    assert props' - OverrideKeys == props - OverrideKeys;
  }

  /** A duration of N > 0 frames gives the range [0, N-1]; a zero, negative or absent duration leaves the default range. */
  lemma FrameRangeDerivation(id: string, props: Record, deployment: Deployment, n: real)
    requires Constants.IsCompositionProps(props)
    ensures Constants.IsCompositionProps(props["durationInFrames" := Number(n)])
    ensures BuildRenderOptions(id, props["durationInFrames" := Number(n)], deployment).frameRange
            == (if n > 0.0 then Some((0.0, n - 1.0)) else None)
    ensures Constants.IsCompositionProps(props["durationInFrames" := Undefined])
    ensures BuildRenderOptions(id, props["durationInFrames" := Undefined], deployment).frameRange == None
  {
    forall v: Value | v == Undefined || v.Number?
      ensures Constants.IsCompositionProps(props["durationInFrames" := v])
    {
      var props' := props["durationInFrames" := v];
      forall key: Constants.PropKey
        ensures Constants.Conforms(Get(props', key.Name()), key.Spec())
      {
        if key != Constants.Duration {
          assert Get(props', key.Name()) == Get(props, key.Name());
        }
      }
    }
  }
}
