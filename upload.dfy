/**
 * The upload page (frontend/src/components/UploadPage.tsx): six state cells
 * changed by seven handlers, plus the model selector's click and the render
 * guards. The browser's object-URL service is the class ObjectUrls, an
 * allocator of abstract handles that records every revocation.
 */
module Upload {
  import opened Wrappers
  import opened Api

  datatype AppState = UploadState | Processing | Results | ErrorState

  /** A URL string: one made by `URL.createObjectURL`, or any other text (a data URL). */
  datatype Url = ObjectUrl(handle: nat) | Text(text: string)

  /** The ids of the MODELS catalogue, in order; the first is the initial choice. */
  const ModelIds: seq<string> := ["fast", "balanced", "accurate"]
  const ModelNames: seq<string> := ["Fast", "Balanced", "Accurate"]

  /** `MODELS.find((m) => m.id === id)?.name || id` */
  function ModelName(id: string): (name: string)
    ensures id == "fast" ==> name == "Fast"
    ensures id == "balanced" ==> name == "Balanced"
    ensures id == "accurate" ==> name == "Accurate"
    ensures id !in ModelIds ==> name == id
  {
    if id == ModelIds[0] then ModelNames[0]
    else if id == ModelIds[1] then ModelNames[1]
    else if id == ModelIds[2] then ModelNames[2]
    else id
  }

  /** `err instanceof Error ? err.message : "An unexpected error occurred. Please try again."` */
  function FailureDetails(reason: Thrown): (details: string)
    ensures reason.ErrorObject? ==> details == reason.message
    ensures reason.NonError? ==> details == "An unexpected error occurred. Please try again."
  {
    match reason
    case ErrorObject(message) => message
    case NonError => "An unexpected error occurred. Please try again."
  }

  /** The browser's object URLs: the live handles, the next fresh one, and the revocation log. */
  class ObjectUrls {
    var live: set<nat>
    var next: nat
    var revoked: seq<Url>

    ghost predicate Valid()
      reads this
    {
      forall h :: h in live ==> h < next
    }

    constructor ()
      ensures Valid() && live == {} && next == 0 && revoked == []
    {
      live, next, revoked := {}, 0, [];
    }

    /** `URL.createObjectURL`: a handle never handed out before. */
    method Create() returns (u: Url)
      requires Valid()
      modifies this
      ensures Valid()
      ensures u == ObjectUrl(old(next)) && old(next) !in old(live)
      ensures live == old(live) + {old(next)} && next == old(next) + 1
      ensures revoked == old(revoked)
    {
      u := ObjectUrl(next);
      live := live + {next};
      next := next + 1;
    }

    /** `URL.revokeObjectURL`: only an object URL stops being live; every call is logged. */
    method Revoke(u: Url)
      requires Valid()
      modifies this
      ensures Valid()
      ensures live == (if u.ObjectUrl? then old(live) - {u.handle} else old(live))
      ensures next == old(next)
      ensures revoked == old(revoked) + [u]
    {
      if u.ObjectUrl? {
        live := live - {u.handle};
      }
      revoked := revoked + [u];
    }
  }

  class UploadPage {
    var appState: AppState
    var selectedFile: Option<File>
    var selectedModel: string
    var error: Option<UploadError>
    var result: Option<Segmentation>
    var originalImageUrl: Option<Url>
    const urls: ObjectUrls

    /**
     * A file is selected exactly when its preview URL is held; that URL is a
     * live object URL; the selected model is one of the catalogue.
     */
    ghost predicate Valid()
      reads this, urls
    {
      && urls.Valid()
      && (selectedFile.Some? <==> originalImageUrl.Some?)
      && (originalImageUrl.Some? ==>
            originalImageUrl.value.ObjectUrl? && originalImageUrl.value.handle in urls.live)
      && selectedModel in ModelIds
    }

    constructor (urls: ObjectUrls)
      requires urls.Valid()
      ensures Valid() && this.urls == urls
      ensures appState == UploadState && selectedModel == "fast"
      ensures selectedFile == None && error == None && result == None && originalImageUrl == None
    {
      appState := UploadState;
      selectedFile := None;
      selectedModel := ModelIds[0];
      error := None;
      result := None;
      originalImageUrl := None;
      this.urls := urls;
    }

    /**
     * handleFileSelect. An invalid file only sets the error. A valid one
     * clears the error, becomes the selected file and gets a fresh object
     * URL; the URL held before is not revoked.
     */
    method HandleFileSelect(file: File)
      requires Valid()
      modifies this, urls
      ensures Valid()
      ensures appState == old(appState) && selectedModel == old(selectedModel) && result == old(result)
      ensures var v := ValidateFile(file);
        if !v.valid && v.error.Some? then
          && error == v.error
          && selectedFile == old(selectedFile) && originalImageUrl == old(originalImageUrl)
          && urls.live == old(urls.live) && urls.next == old(urls.next) && urls.revoked == old(urls.revoked)
        else
          && error == None && selectedFile == Some(file)
          && originalImageUrl == Some(ObjectUrl(old(urls.next)))
          && urls.live == old(urls.live) + {old(urls.next)} && urls.next == old(urls.next) + 1
          && urls.revoked == old(urls.revoked)
    {
      var validation := ValidateFile(file);
      if !validation.valid && validation.error.Some? {
        error := Some(UploadError(validation.error.value.kind, validation.error.value.message,
          validation.error.value.details));
        return;
      }
      error := None;
      selectedFile := Some(file);
      var u := urls.Create();
      originalImageUrl := Some(u);
    }

    /** handleClearFile, also the banner's retry: revoke the held URL, clear file, URL and error. */
    method HandleClearFile()
      requires Valid()
      modifies this, urls
      ensures Valid()
      ensures selectedFile == None && originalImageUrl == None && error == None
      ensures appState == old(appState) && selectedModel == old(selectedModel) && result == old(result)
      ensures urls.revoked == old(urls.revoked) + (if old(originalImageUrl).Some? then [old(originalImageUrl).value] else [])
      ensures urls.live == (if old(originalImageUrl).Some? then old(urls.live) - {old(originalImageUrl).value.handle} else old(urls.live))
      ensures urls.next == old(urls.next)
    {
      if originalImageUrl.Some? {
        urls.Revoke(originalImageUrl.value);
      }
      selectedFile := None;
      originalImageUrl := None;
      error := None;
    }

    /** handleDismissError: only the error goes. */
    method HandleDismissError()
      requires Valid()
      modifies this
      ensures Valid()
      ensures error == None
      ensures appState == old(appState) && selectedFile == old(selectedFile) && selectedModel == old(selectedModel)
      ensures result == old(result) && originalImageUrl == old(originalImageUrl)
    {
      error := None;
    }

    /**
     * The synchronous part of handleProcess. With no file nothing happens;
     * otherwise the state becomes "processing" and `segmentImage(file)` is
     * called with no options; the selected model is not part of the request.
     */
    method SubmitStart() returns (request: Option<Request>)
      requires Valid()
      modifies this
      ensures Valid()
      ensures request == if old(selectedFile).None? then None else Some(SegmentRequest(old(selectedFile).value, NoOptions))
      ensures appState == if old(selectedFile).None? then old(appState) else Processing
      ensures selectedFile == old(selectedFile) && selectedModel == old(selectedModel) && error == old(error)
      ensures result == old(result) && originalImageUrl == old(originalImageUrl)
      ensures old(!ProcessDisabled()) ==> request.Some?
    {
      if selectedFile.None? {
        return None;
      }
      appState := Processing;
      request := Some(SegmentRequest(selectedFile.value, NoOptions));
    }

    /**
     * The continuation of handleProcess after the await. It is applied
     * whatever the state is by then, also after a cancel.
     */
    method SubmitComplete(settled: Settled)
      requires Valid()
      modifies this
      ensures Valid()
      ensures selectedFile == old(selectedFile) && selectedModel == old(selectedModel)
      ensures originalImageUrl == old(originalImageUrl)
      ensures settled.Fulfilled? ==>
        result == Some(settled.value) && appState == Results && error == old(error)
      ensures settled.Rejected? ==>
        && error == Some(UploadError(Network, "Processing failed", FailureDetails(settled.reason)))
        && appState == ErrorState && result == old(result)
    {
      match settled
      case Fulfilled(segmentation) =>
        result := Some(segmentation);
        appState := Results;
      case Rejected(reason) =>
        error := Some(UploadError(Network, "Processing failed", FailureDetails(reason)));
        appState := ErrorState;
    }

    /** handleCancel: back to "upload"; the request in flight is neither aborted nor ignored. */
    method HandleCancel()
      requires Valid()
      modifies this
      ensures Valid()
      ensures appState == UploadState
      ensures selectedFile == old(selectedFile) && selectedModel == old(selectedModel) && error == old(error)
      ensures result == old(result) && originalImageUrl == old(originalImageUrl)
    {
      appState := UploadState;
    }

    /** handleBack: back to "upload", keeping file, URL and result. */
    method HandleBack()
      requires Valid()
      modifies this
      ensures Valid()
      ensures appState == UploadState
      ensures selectedFile == old(selectedFile) && selectedModel == old(selectedModel) && error == old(error)
      ensures result == old(result) && originalImageUrl == old(originalImageUrl)
    {
      appState := UploadState;
    }

    /** handleNewImage: revoke the original URL and the result's mask, clear everything, "upload". */
    method HandleNewImage()
      requires Valid()
      modifies this, urls
      ensures Valid()
      ensures selectedFile == None && originalImageUrl == None && result == None && error == None
      ensures appState == UploadState && selectedModel == old(selectedModel)
      ensures urls.revoked == old(urls.revoked)
        + (if old(originalImageUrl).Some? then [old(originalImageUrl).value] else [])
        + (if old(result).Some? && old(result).value.mask != "" then [Text(old(result).value.mask)] else [])
      ensures urls.live == (if old(originalImageUrl).Some? then old(urls.live) - {old(originalImageUrl).value.handle} else old(urls.live))
      ensures urls.next == old(urls.next)
    {
      if originalImageUrl.Some? {
        urls.Revoke(originalImageUrl.value);
      }
      if result.Some? && result.value.mask != "" {
        urls.Revoke(Text(result.value.mask));
      }
      selectedFile := None;
      originalImageUrl := None;
      result := None;
      error := None;
      appState := UploadState;
    }

    /** A click on a model card: ignored while processing (the selector is disabled then). */
    method SelectModel(id: string)
      requires Valid() && id in ModelIds
      modifies this
      ensures Valid()
      ensures selectedModel == if old(appState) == Processing then old(selectedModel) else id
      ensures appState == old(appState) && selectedFile == old(selectedFile) && error == old(error)
      ensures result == old(result) && originalImageUrl == old(originalImageUrl)
    {
      if appState != Processing {
        selectedModel := id;
      }
    }

    /** The results view replaces the page only in "results" with a result and an original URL. */
    function ShowsResults(): (shown: bool)
      reads this
      ensures shown ==> appState == Results
      ensures shown <==> appState == Results && result.Some? && originalImageUrl.Some?
    {
      appState == Results && result.Some? && originalImageUrl.Some?
    }

    /** The process button is disabled without a file or while processing. */
    function ProcessDisabled(): (disabled: bool)
      reads this
      ensures InputsDisabled() ==> disabled
      ensures !disabled <==> selectedFile.Some? && appState != Processing
    {
      selectedFile.None? || appState == Processing
    }

    /** The drop zone and the model selector are disabled while processing. */
    function InputsDisabled(): (disabled: bool)
      reads this
      ensures disabled <==> appState == Processing
    {
      appState == Processing
    }

    /** When the results view is rendered, a file is still selected. */
    lemma ResultsViewHasFile()
      requires Valid() && ShowsResults()
      ensures selectedFile.Some? && originalImageUrl.value.handle in urls.live
    {
    }
  }

  /**
   * Select an acceptable image, process it, receive a reply, start over: the
   * original URL is revoked once, the mask's data URL is passed to revoke
   * too, and no object URL stays live.
   */
  method HappyPathScenario(file: File, body: Envelope)
    requires file.size <= MaxSize && TypeAllowed(file)
  {
    var urls := new ObjectUrls();
    var page := new UploadPage(urls);
    page.HandleFileSelect(file);
    assert page.selectedFile == Some(file) && page.originalImageUrl == Some(ObjectUrl(0));
    var request := page.SubmitStart();
    assert page.appState == Processing && request.Some?;
    var settled := SegmentImage(file, Replied(Reply(200, body)));
    page.SubmitComplete(settled);
    assert page.ShowsResults();
    assert page.result.value.imageName == file.name && page.result.value.width == body.width;
    page.HandleNewImage();
    assert urls.revoked == [ObjectUrl(0), Text(PngDataPrefix + body.mask)];
    assert urls.live == {};
  }

  /** Cancelling does not stop a late reply from taking the page to "results". */
  method LateReplyAfterCancelScenario(file: File, body: Envelope)
    requires file.size <= MaxSize && TypeAllowed(file)
  {
    var urls := new ObjectUrls();
    var page := new UploadPage(urls);
    page.HandleFileSelect(file);
    var request := page.SubmitStart();
    page.HandleCancel();
    assert page.appState == UploadState;
    page.SubmitComplete(SegmentImage(file, Replied(Reply(200, body))));
    assert page.appState == Results;
  }

  /** A second valid selection leaves the first object URL live and unrevoked. */
  method ReselectLeakScenario(first: File, second: File)
    requires first.size <= MaxSize && TypeAllowed(first)
    requires second.size <= MaxSize && TypeAllowed(second)
  {
    var urls := new ObjectUrls();
    var page := new UploadPage(urls);
    page.HandleFileSelect(first);
    page.HandleFileSelect(second);
    page.HandleClearFile();
    assert urls.revoked == [ObjectUrl(1)];
    assert urls.live == {0};
  }

  /** An oversized file leaves the page as it was, apart from the error. */
  method OversizedSelectionScenario(file: File)
    requires file.size > MaxSize
  {
    var urls := new ObjectUrls();
    var page := new UploadPage(urls);
    page.HandleFileSelect(file);
    assert page.error.value.kind == Size;
    assert page.selectedFile == None && page.appState == UploadState && urls.live == {};
    var request := page.SubmitStart();
    assert request == None && page.appState == UploadState;
  }
}
