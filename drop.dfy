/**
 * The drop zone (frontend/src/components/DropZone.tsx): a dragging flag and
 * a preview slot changed by the drag, drop, file-input and clear handlers.
 * The callbacks to the parent and the start of a FileReader are returned as
 * values; the reader's completion is the separate event PreviewLoaded.
 */
module Drop {
  import opened Wrappers
  import opened Api
  import Upload

  /** A call the zone makes into its parent. */
  datatype Callback = FileSelected(file: File) | ClearRequested

  /** `files[0]` read as "the first file, if any". */
  function FirstFile(files: seq<File>): (first: Option<File>)
    ensures first.Some? <==> |files| > 0
    ensures first.Some? ==> first.value == files[0] && first.value in files
  {
    if |files| > 0 then Some(files[0]) else None
  }

  /** What a drop or a file input forwards: the first file, at most once, and the reader it starts. */
  function Forward(files: seq<File>): (out: (seq<Callback>, Option<File>))
    ensures |out.0| <= 1
    ensures |out.0| == 1 <==> |files| > 0
    ensures |files| > 0 ==> out.0 == [FileSelected(files[0])] && out.1 == Some(files[0])
    ensures |files| == 0 ==> out.1 == None
  {
    match FirstFile(files)
    case None => ([], None)
    case Some(file) => ([FileSelected(file)], Some(file))
  }

  class DropZone {
    var isDragging: bool
    var preview: Option<string>

    constructor ()
      ensures !isDragging && preview == None
    {
      isDragging := false;
      preview := None;
    }

    /** handleDragOver: a drag over an enabled zone highlights it; a disabled zone keeps its flag. */
    method DragOver(disabled: bool)
      modifies this
      ensures isDragging == (if disabled then old(isDragging) else true)
      ensures preview == old(preview)
    {
      if !disabled {
        isDragging := true;
      }
    }

    /** handleDragLeave. */
    method DragLeave()
      modifies this
      ensures !isDragging && preview == old(preview)
    {
      isDragging := false;
    }

    /**
     * handleDrop: the highlight always goes; a disabled zone forwards
     * nothing; otherwise the first dropped file, if any, is forwarded and
     * its preview read starts.
     */
    method Drop(disabled: bool, files: seq<File>) returns (calls: seq<Callback>, reading: Option<File>)
      modifies this
      ensures !isDragging && preview == old(preview)
      ensures disabled ==> calls == [] && reading == None
      ensures !disabled ==> (calls, reading) == Forward(files)
    {
      isDragging := false;
      if disabled {
        return [], None;
      }
      calls, reading := [], None;
      if |files| > 0 {
        var file := files[0];
        calls := [FileSelected(file)];
        reading := Some(file);
      }
    }

    /**
     * handleFileInput: the same forwarding, with no `disabled` test of its
     * own; `files` is None when the input reports no file list.
     */
    method FileInput(files: Option<seq<File>>) returns (calls: seq<Callback>, reading: Option<File>)
      modifies this
      ensures isDragging == old(isDragging) && preview == old(preview)
      ensures files.None? ==> calls == [] && reading == None
      ensures files.Some? ==> (calls, reading) == Forward(files.value)
    {
      calls, reading := [], None;
      if files.Some? && |files.value| > 0 {
        var file := files.value[0];
        calls := [FileSelected(file)];
        reading := Some(file);
      }
    }

    /** A FileReader started by a drop or an input finishes with a data URL. */
    method PreviewLoaded(dataUrl: string)
      modifies this
      ensures preview == Some(dataUrl) && isDragging == old(isDragging)
    {
      preview := Some(dataUrl);
    }

    /** handleClear: drop the preview, then ask the parent to clear. */
    method Clear() returns (calls: seq<Callback>)
      modifies this
      ensures preview == None && isDragging == old(isDragging)
      ensures calls == [ClearRequested]
    {
      preview := None;
      calls := [ClearRequested];
    }

    /** The preview card replaces the drop target only when a file is selected and a non-empty preview is loaded. */
    function ShowsPreview(selectedFile: Option<File>): (shown: bool)
      reads this
      ensures shown <==> selectedFile.Some? && preview.Some? && preview.value != ""
    {
      selectedFile.Some? && preview.Some? && preview.value != ""
    }
  }

  /** Dropping several files forwards only the first; a drop on a disabled zone forwards none. */
  method MultiFileDropScenario(a: File, b: File)
  {
    var zone := new DropZone();
    zone.DragOver(false);
    assert zone.isDragging;
    var calls, reading := zone.Drop(false, [a, b]);
    assert calls == [FileSelected(a)] && reading == Some(a) && !zone.isDragging;
    zone.DragOver(true);
    assert !zone.isDragging;
    calls, reading := zone.Drop(true, [b]);
    assert calls == [] && reading == None;
  }

  /**
   * The zone wired to the upload page. The reader is started even for a
   * file the page rejects, so after a rejected drop the preview shows the
   * rejected image beside the file selected before.
   */
  method RejectedDropKeepsPreviewScenario(good: File, bad: File, goodData: string, badData: string)
    requires good.size <= MaxSize && TypeAllowed(good)
    requires bad.size > MaxSize
    requires badData != ""
  {
    var urls := new Upload.ObjectUrls();
    var page := new Upload.UploadPage(urls);
    var zone := new DropZone();
    var calls, reading := zone.Drop(page.InputsDisabled(), [good]);
    page.HandleFileSelect(calls[0].file);
    zone.PreviewLoaded(goodData);
    calls, reading := zone.Drop(page.InputsDisabled(), [bad]);
    page.HandleFileSelect(calls[0].file);
    zone.PreviewLoaded(badData);
    assert page.selectedFile == Some(good) && page.error.Some?;
    assert zone.ShowsPreview(page.selectedFile) && zone.preview == Some(badData);
  }
}
