/**
 * The download button: which button a render status shows, the file name a
 * download gets, and the click handler that downloads and then, when it knows
 * the uploaded object, asks for it to be deleted.
 */
module DownloadButton {
  import opened Wrappers
  import opened Js
  import opened RenderingState

  /** The component's props; `s3Bucket` and `s3Key` are optional. */
  datatype Props = Props(state: State, s3Bucket: Option<string>, s3Key: Option<string>)

  /** What the component renders: a disabled button, the download button, or it throws. */
  datatype Rendered = DisabledButton | ActiveButton(url: string, size: nat) | Throws(message: string)

  const NotDoneMessage := "Download button should not be rendered when not done"

  /** The status guard: only `rendering` and `done` render; every other status throws. */
  function Guard(state: State): (r: Rendered)
    ensures r == DisabledButton <==> state.Rendering?
    ensures r.ActiveButton? <==> state.Done?
    ensures r.ActiveButton? ==> r == ActiveButton(state.url, state.size)
    ensures r.Throws? <==> !(state.Rendering? || state.Done?)
    ensures r.Throws? ==> r.message == NotDoneMessage
  {
    match state
    case Rendering(_) => DisabledButton
    case Done(url, size) => ActiveButton(url, size)
    case _ => Throws(NotDoneMessage)
  }

  /** `s.lastIndexOf(c)`: the last position of `c` in `s`, or -1. */
  function LastIndexOf(s: string, c: char): (i: int)
    ensures -1 <= i < |s|
    ensures i >= 0 ==> s[i] == c
    ensures forall j :: i < j < |s| ==> s[j] != c
  {
    if s == [] then -1
    else if s[|s| - 1] == c then |s| - 1
    else LastIndexOf(s[..|s| - 1], c)
  }

  const FallbackFileName := "rendered-video.mp4"

  /** The text after the last '/', or the fallback name when that text is empty: a single path segment. */
  function DownloadFileName(url: string): (name: string)
    ensures name != ""
    ensures forall k :: 0 <= k < |name| ==> name[k] != '/'
  {
    var i := LastIndexOf(url, '/');
    var tail := url[i + 1..];
    if tail != "" then SuffixHasNoSlash(url, i); tail
    else FallbackFileNameHasNoSlash(); FallbackFileName
  }

  /** The fallback name is a single path segment. */
  lemma FallbackFileNameHasNoSlash()
    ensures forall i :: 0 <= i < |FallbackFileName| ==> FallbackFileName[i] != '/'
  {
  }

  /**
   * The download name is the URL's last path segment: it holds no '/', it is
   * what follows the last '/' (or the whole URL when there is none), and a URL
   * that is empty or ends in '/' gets the fallback name.
   */
  lemma DownloadFileNameIsLastSegment(url: string)
    ensures var name := DownloadFileName(url);
      && name != ""
      && (forall i :: 0 <= i < |name| ==> name[i] != '/')
      && ((url == "" || url[|url| - 1] == '/') ==> name == FallbackFileName)
      && (url != "" && url[|url| - 1] != '/' ==>
            && |name| <= |url|
            && url[|url| - |name|..] == name
            && (|name| < |url| ==> url[|url| - |name| - 1] == '/'))
  {
    if url == "" || url[|url| - 1] == '/' {
      FallbackWhenNoLastSegment(url);
    } else {
      LastSegmentWhenPresent(url);
    }
  }

  /** An empty URL, or one that ends in '/', has an empty last segment and gets the fallback name. */
  lemma FallbackWhenNoLastSegment(url: string)
    requires url == "" || url[|url| - 1] == '/'
    ensures DownloadFileName(url) == FallbackFileName
  {
    assert LastIndexOf(url, '/') == |url| - 1;
  }

  /** A URL that does not end in '/' is named by the non-empty, slash-free text after its last '/'. */
  lemma LastSegmentWhenPresent(url: string)
    requires url != "" && url[|url| - 1] != '/'
    ensures var name := DownloadFileName(url);
      && |name| <= |url|
      && url[|url| - |name|..] == name
      && (|name| < |url| ==> url[|url| - |name| - 1] == '/')
  {
    var i := LastIndexOf(url, '/');
    var tail := url[i + 1..];
    assert i < |url| - 1;
    assert DownloadFileName(url) == tail;
  }

  /** When no '/' lies after position `i`, the text after `i` holds no '/'. */
  lemma SuffixHasNoSlash(url: string, i: int)
    requires -1 <= i < |url|
    requires forall j :: i < j < |url| ==> url[j] != '/'
    ensures var tail := url[i + 1..]; forall k :: 0 <= k < |tail| ==> tail[k] != '/'
  {
    var tail := url[i + 1..];
    forall k | 0 <= k < |tail|
      ensures tail[k] != '/'
    {
      assert tail[k] == url[i + 1 + k];
    }
  }

  /** What the delete request does: succeed, answer non-ok (with the body's `message`, if any), or throw. */
  datatype DeleteOutcome = DeleteOk | DeleteNotOk(bodyMessage: Option<string>) | DeleteThrew(message: string)

  /** The observable effects of one click, in order. */
  datatype ClickEffect =
    | TriggerDownload(href: string, fileName: string)
    | PostDelete(s3Bucket: string, s3Key: string)
    | LogDeleteError(message: string)

  const DeleteFailedMessage := "Failed to delete S3 object."

  /** The message of the error a failed delete raises and the handler logs: never empty for a non-ok answer. */
  function DeleteErrorMessage(outcome: DeleteOutcome): (message: string)
    requires !outcome.DeleteOk?
    ensures outcome.DeleteNotOk? ==> message != ""
    ensures outcome.DeleteNotOk? && Present(outcome.bodyMessage) ==> message == outcome.bodyMessage.value
    ensures outcome.DeleteNotOk? && !Present(outcome.bodyMessage) ==> message == DeleteFailedMessage
    ensures outcome.DeleteThrew? ==> message == outcome.message
  {
    match outcome
    case DeleteNotOk(m) => if Present(m) then m.value else DeleteFailedMessage
    case DeleteThrew(m) => m
  }

  /** How many delete requests a sequence of effects holds. */
  function DeleteRequests(effects: seq<ClickEffect>): nat {
    if effects == [] then 0
    else (if effects[0].PostDelete? then 1 else 0) + DeleteRequests(effects[1..])
  }

  /** Counting delete requests distributes over concatenation. */
  lemma {:induction false} DeleteRequestsConcat(a: seq<ClickEffect>, b: seq<ClickEffect>)
    ensures DeleteRequests(a + b) == DeleteRequests(a) + DeleteRequests(b)
  {
    if a != [] {
      assert (a + b)[0] == a[0] && (a + b)[1..] == a[1..] + b;
      DeleteRequestsConcat(a[1..], b);
    } else {
      assert a + b == b;
    }
  }

  /**
   * A click: the download is triggered first; a delete is requested only when
   * both `s3Bucket` and `s3Key` are non-empty, with exactly those values; a
   * failed delete is logged and the handler still completes normally.
   */
  method HandleDownloadAndMaybeDelete(url: string, s3Bucket: Option<string>, s3Key: Option<string>, outcome: DeleteOutcome)
    returns (effects: seq<ClickEffect>)
    ensures |effects| >= 1 && effects[0] == TriggerDownload(url, DownloadFileName(url))
    ensures DeleteRequests(effects) == (if Present(s3Bucket) && Present(s3Key) then 1 else 0)
    ensures !(Present(s3Bucket) && Present(s3Key)) ==> effects == [TriggerDownload(url, DownloadFileName(url))]
    ensures Present(s3Bucket) && Present(s3Key) ==>
      && |effects| >= 2
      && effects[1] == PostDelete(s3Bucket.value, s3Key.value)
      && (outcome.DeleteOk? ==> |effects| == 2)
      && (!outcome.DeleteOk? ==> |effects| == 3 && effects[2] == LogDeleteError(DeleteErrorMessage(outcome)))
  {
    effects := [TriggerDownload(url, DownloadFileName(url))];
    if Present(s3Bucket) && Present(s3Key) {
      DeleteRequestsConcat(effects, [PostDelete(s3Bucket.value, s3Key.value)]);
      effects := effects + [PostDelete(s3Bucket.value, s3Key.value)];
      if !outcome.DeleteOk? {
        DeleteRequestsConcat(effects, [LogDeleteError(DeleteErrorMessage(outcome))]);
        effects := effects + [LogDeleteError(DeleteErrorMessage(outcome))];
      }
    }
  }
}
