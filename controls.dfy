/**
 * The render controls: the client-side state machine that uploads a selected
 * video through the proxied upload route, raises a readiness flag when the
 * upload reports a URL, and lets a level-triggered effect start the render
 * once the renderer is idle. Each event handler is one atomic method; the
 * renderer's status and the upload's outcome are inputs.
 */
module RenderControls {
  import opened Wrappers
  import opened Js
  import opened RenderingState
  import Constants
  import DownloadButton

  /** A file the user picked in the file input. */
  datatype LocalFile = LocalFile(name: string)

  /** The JSON body the upload route answers with (the fields the handler reads). */
  datatype UploadBody = UploadBody(message: Option<string>, error: Option<string>, videoUrl: Option<string>)

  /** What `fetch('/api/upload')` and `response.json()` do: answer, or throw (with the text the alert shows). */
  datatype UploadResponse = Responded(ok: bool, body: UploadBody) | UploadThrew(description: string)

  /** The effects the controls have outside their own state. */
  datatype Effect =
    | RenderMedia(videoSrc: Option<string>)  // the hook's renderMedia, with the videoSrc its props carry
    | PostUpload(file: LocalFile)            // POST /api/upload with the file under form field `video`
    | Alert(text: string)
    | NotifyPlayer(selection: Option<LocalFile>)  // onLocalVideoSelectedForPlayer

  /** The URL a response hands over: only an ok response with a non-empty `videoUrl` has one. */
  function UploadedUrl(response: UploadResponse): (url: Option<string>)
    ensures url.Some? ==> url.value != ""
    ensures url.Some? <==> response.Responded? && response.ok && Present(response.body.videoUrl)
    ensures url.Some? ==> url == response.body.videoUrl
  {
    if response.Responded? && response.ok && Present(response.body.videoUrl) then response.body.videoUrl else None
  }

  /** The alert text: the body's message, else its error, else a generic failure text. */
  function UploadErrorText(body: UploadBody): (text: string)
    ensures text != ""
    ensures Present(body.message) ==> text == body.message.value
    ensures !Present(body.message) && Present(body.error) ==> text == body.error.value
    ensures !Present(body.message) && !Present(body.error) ==> text == "Upload failed"
  {
    if Present(body.message) then body.message.value
    else if Present(body.error) then body.error.value
    else "Upload failed"
  }

  const UploadErrorPrefix := "Error uploading video: "
  const ParsedPrefix := "File parsed by server: "

  /**
   * The alert a settled upload without a URL shows. A rejected or failed
   * upload reports its reason after the error prefix; an ok response without
   * a URL acknowledges the parse instead, so the alert starts with the error
   * prefix exactly when the upload failed.
   */
  function AlertText(response: UploadResponse): (text: string)
    requires UploadedUrl(response).None?
    ensures response.UploadThrew? ==> text == UploadErrorPrefix + response.description
    ensures response.Responded? && !response.ok ==> text == UploadErrorPrefix + UploadErrorText(response.body)
    ensures response.Responded? && response.ok ==>
      text == ParsedPrefix + Interpolate(response.body.message) + ". S3 upload next."
    ensures UploadErrorPrefix <= text <==> !(response.Responded? && response.ok)
  {
    match response
    case UploadThrew(d) => UploadErrorPrefix + d
    case Responded(ok, body) =>
      if !ok then UploadErrorPrefix + UploadErrorText(body)
      else
        var text := ParsedPrefix + Interpolate(body.message) + ". S3 upload next.";
        assert text[0] != UploadErrorPrefix[0];
        text
  }

  /** The props the renderer receives: the page's props with the typed title and the current video source over them. */
  function ActualInputProps(page: Record, text: string, videoSrc: Option<string>): (r: Record)
    ensures r.Keys == page.Keys + {"title", "videoSrc"}
    ensures r["title"] == Str(text)
    ensures r["videoSrc"] == (if videoSrc.Some? then Str(videoSrc.value) else Undefined)
    ensures forall key :: key in page && key != "title" && key != "videoSrc" ==> r[key] == page[key]
  {
    page["title" := Str(text)]["videoSrc" := if videoSrc.Some? then Str(videoSrc.value) else Undefined]
  }

  /** The merge keeps the props valid: a schema-conforming page gives schema-conforming render props. */
  lemma ActualInputPropsConform(page: Record, text: string, videoSrc: Option<string>)
    requires Constants.IsCompositionProps(page)
    ensures Constants.IsCompositionProps(ActualInputProps(page, text, videoSrc))
  {
    var r := ActualInputProps(page, text, videoSrc);
    forall key: Constants.PropKey
      ensures Constants.Conforms(Get(r, key.Name()), key.Spec())
    {
      if key != Constants.Title && key != Constants.VideoSrc {
        assert Get(r, key.Name()) == Get(page, key.Name());
      }
    }
  }

  class Controls {
    var videoFile: Option<LocalFile>
    var videoSrc: Option<string>
    var isReadyToRenderAfterUpload: bool

    /** Everything the controls did outside their own state, oldest first. */
    ghost var effects: seq<Effect>
    /** How many times an upload raised the readiness flag. */
    ghost var raises: nat
    /** How many renders the readiness effect started. */
    ghost var rendersAfterUpload: nat

    /** Each raise of the flag yields at most one render: fired renders plus a pending flag never exceed the raises. */
    ghost predicate Valid()
      reads this
    {
      rendersAfterUpload + (if isReadyToRenderAfterUpload then 1 else 0) <= raises
    }

    /** The initial state; `videoSrc` starts as the default props' `videoSrc`, which is undefined. */
    constructor ()
      ensures Valid()
      ensures videoFile == None && videoSrc == None && !isReadyToRenderAfterUpload
      ensures effects == [] && raises == 0 && rendersAfterUpload == 0
    {
      videoFile := None;
      videoSrc := None;
      isReadyToRenderAfterUpload := false;
      effects := [];
      raises := 0;
      rendersAfterUpload := 0;
    }

    /** The file input's `onChange`: a picked file and its local object URL, or a cleared selection. */
    method OnFileChange(file: Option<LocalFile>, localUrl: string)
      requires Valid()
      modifies this
      ensures Valid()
      ensures videoFile == file
      ensures videoSrc == (if file.Some? then Some(localUrl) else None)
      ensures isReadyToRenderAfterUpload == old(isReadyToRenderAfterUpload)
      ensures effects == old(effects) + [NotifyPlayer(file)]
      ensures raises == old(raises) && rendersAfterUpload == old(rendersAfterUpload)
    {
      if file.Some? {
        videoFile := file;
        videoSrc := Some(localUrl);
      } else {
        videoFile := None;
        videoSrc := None;
      }
      effects := effects + [NotifyPlayer(file)];
    }

    /**
     * The render button's click. Without a file it renders at once and never
     * uploads. With a file it uploads; a response with a URL sets `videoSrc`
     * and raises the flag without rendering, and anything else only alerts.
     */
    method HandleRenderWithUpload(response: UploadResponse)
      requires Valid()
      modifies this
      ensures Valid()
      ensures videoFile == old(videoFile) && rendersAfterUpload == old(rendersAfterUpload)
      ensures old(videoFile).None? ==>
        && effects == old(effects) + [RenderMedia(old(videoSrc))]
        && videoSrc == old(videoSrc)
        && isReadyToRenderAfterUpload == old(isReadyToRenderAfterUpload)
        && raises == old(raises)
      ensures old(videoFile).Some? && UploadedUrl(response).Some? ==>
        && effects == old(effects) + [PostUpload(old(videoFile).value)]
        && videoSrc == UploadedUrl(response)
        && isReadyToRenderAfterUpload
        && raises == old(raises) + 1
      ensures old(videoFile).Some? && UploadedUrl(response).None? ==>
        && effects == old(effects) + [PostUpload(old(videoFile).value), Alert(AlertText(response))]
        && videoSrc == old(videoSrc)
        && isReadyToRenderAfterUpload == old(isReadyToRenderAfterUpload)
        && raises == old(raises)
    {
      if videoFile.Some? {
        effects := effects + [PostUpload(videoFile.value)];
        var url := UploadedUrl(response);
        if url.Some? {
          videoSrc := url;
          isReadyToRenderAfterUpload := true;
          raises := raises + 1;
        } else {
          effects := effects + [Alert(AlertText(response))];
        }
      } else {
        effects := effects + [RenderMedia(videoSrc)];
      }
    }

    /**
     * The readiness effect, run with the renderer's current status: it renders
     * only when the flag is up and the status is neither invoking nor
     * rendering, and then lowers the flag.
     */
    method ReadinessEffect(state: State)
      requires Valid()
      modifies this
      ensures Valid()
      ensures videoFile == old(videoFile) && videoSrc == old(videoSrc) && raises == old(raises)
      ensures var fires := old(isReadyToRenderAfterUpload) && !state.Invoking? && !state.Rendering?;
        && effects == old(effects) + (if fires then [RenderMedia(videoSrc)] else [])
        && isReadyToRenderAfterUpload == (old(isReadyToRenderAfterUpload) && !fires)
        && rendersAfterUpload == old(rendersAfterUpload) + (if fires then 1 else 0)
    {
      if isReadyToRenderAfterUpload && !state.Invoking? && !state.Rendering? {
        effects := effects + [RenderMedia(videoSrc)];
        isReadyToRenderAfterUpload := false;
        rendersAfterUpload := rendersAfterUpload + 1;
      }
    }
  }

  /** The form panel: its controls' disabled flag and the error it shows. */
  datatype FormView = FormView(disabled: bool, error: Option<string>)

  /** The progress panel: the progress bar's value and the download button's props. */
  datatype ProgressView = ProgressView(progress: real, button: DownloadButton.Props)

  datatype View = View(form: Option<FormView>, progressPanel: Option<ProgressView>)

  /** The panels a status shows. The download button gets the state and no bucket or key. */
  function ViewOf(state: State): View {
    View(
      form :=
        if state.Init? || state.Invoking? || state.Error? then
          Some(FormView(state.Invoking?, if state.Error? then Some(state.message) else None))
        else None,
      progressPanel :=
        if state.Rendering? || state.Done? then
          Some(ProgressView(if state.Rendering? then state.progress else 1.0, DownloadButton.Props(state, None, None)))
        else None)
  }

  /**
   * The view is a projection of the status: exactly one panel shows; the form
   * for init, invoking and error, disabled only while invoking; the progress
   * panel for rendering and done, full when done; and the download button it
   * mounts never reaches its throwing branch.
   */
  lemma ViewIsProjection(state: State)
    ensures var v := ViewOf(state);
      && (v.form.Some? <==> state.Init? || state.Invoking? || state.Error?)
      && (v.form.Some? ==> (v.form.value.disabled <==> state.Invoking?))
      && (v.progressPanel.Some? <==> state.Rendering? || state.Done?)
      && (v.form.Some? != v.progressPanel.Some?)
      && (state.Done? ==> v.progressPanel.value.progress == 1.0)
      && (state.Rendering? ==> v.progressPanel.value.progress == state.progress)
      && (v.progressPanel.Some? ==> !DownloadButton.Guard(v.progressPanel.value.button.state).Throws?)
  {
  }

  /**
   * A click on the download button as these controls mount it downloads and
   * never asks for a delete, whatever the delete would have done: the controls
   * pass no bucket and no key.
   */
  method ClickMountedDownload(state: State, outcome: DownloadButton.DeleteOutcome)
    returns (effects: seq<DownloadButton.ClickEffect>)
    requires state.Done?
    ensures effects == [DownloadButton.TriggerDownload(state.url, DownloadButton.DownloadFileName(state.url))]
    ensures DownloadButton.DeleteRequests(effects) == 0
  {
    var button := ViewOf(state).progressPanel.value.button;
    assert button == DownloadButton.Props(state, None, None);
    effects := DownloadButton.HandleDownloadAndMaybeDelete(button.state.url, button.s3Bucket, button.s3Key, outcome);
  }
}
