/**
 * The results view (frontend/src/components/ResultsView.tsx): a zoom level
 * and an overlay mode changed by buttons, the copy-endpoint flag, and the
 * pure mappings from the declared result record to the segmented pane, the
 * three downloads and the endpoint text.
 */
module Results {

  /** The metadata block of the declared SegmentationResult record. */
  datatype Metadata = Metadata(classes: seq<string>, width: int, height: int)

  /**
   * The declared SegmentationResult record the view reads (processing time
   * and confidence are only displayed and left out).
   */
  datatype ViewResult = ViewResult(
    originalImage: string, segmentedImage: string, maskImage: string,
    modelUsed: string, metadata: Metadata)

  datatype OverlayMode = Mask | Blend

  datatype DownloadKind = MaskPng | FullJpg | MetadataJson

  /** The anchor that handleDownload clicks: its href and its download name. */
  datatype Download = Download(url: string, filename: string)

  /** The segmented pane's image source and its opacity in percent. */
  datatype Pane = Pane(src: string, opacityPercent: nat)

  const MinZoom: int := 50
  const MaxZoom: int := 200
  const ZoomStep: int := 25
  const InitialZoom: int := 100

  /** The zoom levels the buttons can reach from the initial 100. */
  predicate ZoomReachable(z: int) {
    MinZoom <= z <= MaxZoom && z % ZoomStep == 0
  }

  /** The zoom-in button: one step up, capped at the maximum. */
  function ZoomedIn(z: int): (r: int)
    ensures r <= MaxZoom
    ensures z <= MaxZoom ==> z <= r
    ensures r == MaxZoom || r == z + ZoomStep
    ensures ZoomReachable(z) ==> ZoomReachable(r)
  {
    if z + ZoomStep < MaxZoom then z + ZoomStep else MaxZoom
  }

  /** The zoom-out button: one step down, floored at the minimum. */
  function ZoomedOut(z: int): (r: int)
    ensures r >= MinZoom
    ensures z >= MinZoom ==> r <= z
    ensures r == MinZoom || r == z - ZoomStep
    ensures ZoomReachable(z) ==> ZoomReachable(r)
  {
    if z - ZoomStep > MinZoom then z - ZoomStep else MinZoom
  }

  /** At the bounds the buttons change nothing. */
  lemma ZoomSaturates()
    ensures ZoomedIn(MaxZoom) == MaxZoom && ZoomedOut(MinZoom) == MinZoom
  {
  }

  /** Below the cap, zooming in then out returns to the start, and the converse above the floor. */
  lemma ZoomRoundTrip(z: int)
    requires ZoomReachable(z)
    ensures z < MaxZoom ==> ZoomedOut(ZoomedIn(z)) == z
    ensures z > MinZoom ==> ZoomedIn(ZoomedOut(z)) == z
  {
  }

  /** The zoom level after a sequence of clicks (true = in, false = out), starting from `start`. */
  function ZoomAfter(start: int, clicks: seq<bool>): (z: int)
    ensures clicks == [] ==> z == start
    ensures MinZoom <= start <= MaxZoom ==> MinZoom <= z <= MaxZoom
  {
    if clicks == [] then start
    else
      var z := ZoomAfter(start, clicks[..|clicks| - 1]);
      if clicks[|clicks| - 1] then ZoomedIn(z) else ZoomedOut(z)
  }

  /** Every sequence of clicks from the initial level ends at a reachable level. */
  lemma {:induction false} ZoomStaysReachable(clicks: seq<bool>)
    ensures ZoomReachable(ZoomAfter(InitialZoom, clicks))
  {
    if clicks != [] {
      ZoomStaysReachable(clicks[..|clicks| - 1]);
    }
  }

  /** `k` clicks of one kind, in a row. */
  function Repeat(b: bool, k: nat): (r: seq<bool>)
    ensures |r| == k && forall i :: 0 <= i < k ==> r[i] == b
  {
    if k == 0 then [] else Repeat(b, k - 1) + [b]
  }

  lemma {:induction false} ZoomInRepeated(k: nat)
    requires InitialZoom + k * ZoomStep <= MaxZoom
    ensures ZoomAfter(InitialZoom, Repeat(true, k)) == InitialZoom + k * ZoomStep
  {
    if k > 0 {
      assert Repeat(true, k)[..k - 1] == Repeat(true, k - 1);
      ZoomInRepeated(k - 1);
    }
  }

  lemma {:induction false} ZoomOutRepeated(k: nat)
    requires InitialZoom - k * ZoomStep >= MinZoom
    ensures ZoomAfter(InitialZoom, Repeat(false, k)) == InitialZoom - k * ZoomStep
  {
    if k > 0 {
      assert Repeat(false, k)[..k - 1] == Repeat(false, k - 1);
      ZoomOutRepeated(k - 1);
    }
  }

  /** Conversely, every reachable level is the result of some sequence of clicks. */
  lemma {:induction false} ZoomLevelsAllReachable(z: int)
    requires ZoomReachable(z)
    ensures exists clicks :: ZoomAfter(InitialZoom, clicks) == z
    decreases if z < InitialZoom then InitialZoom - z else z - InitialZoom
  {
    if z == InitialZoom {
      assert ZoomAfter(InitialZoom, []) == z;
    } else {
      var click := z > InitialZoom;
      var prev := if click then z - ZoomStep else z + ZoomStep;
      ZoomLevelsAllReachable(prev);
      var clicks :| ZoomAfter(InitialZoom, clicks) == prev;
      assert (clicks + [click])[..|clicks|] == clicks;
      assert ZoomAfter(InitialZoom, clicks + [click]) == z;
    }
  }

  /** The segmented pane: the mask at full opacity, or the segmented image at 80%. */
  function SegmentedPane(mode: OverlayMode, r: ViewResult): (p: Pane)
    ensures p.opacityPercent <= 100
    ensures p.opacityPercent == 100 <==> mode == Mask
    ensures p.src in {r.maskImage, r.segmentedImage}
    ensures mode == Mask ==> p == Pane(r.maskImage, 100)
    ensures mode == Blend ==> p == Pane(r.segmentedImage, 80)
  {
    match mode
    case Mask => Pane(r.maskImage, 100)
    case Blend => Pane(r.segmentedImage, 80)
  }

  const JsonDataPrefix: string := "data:application/json;charset=utf-8,"

  /**
   * handleDownload's choice of href and name. `encode` stands for
   * `encodeURIComponent(JSON.stringify(metadata, null, 2))`, which is not
   * part of this model.
   */
  function DownloadFor(kind: DownloadKind, r: ViewResult, encode: Metadata -> string): (d: Download)
    ensures kind == MaskPng ==> d == Download(r.maskImage, "segmentation-mask.png")
    ensures kind == FullJpg ==> d == Download(r.segmentedImage, "segmented-result.jpg")
    ensures kind == MetadataJson ==>
      d == Download(JsonDataPrefix + encode(r.metadata), "segmentation-metadata.json")
  {
    match kind
    case MaskPng => Download(r.maskImage, "segmentation-mask.png")
    case FullJpg => Download(r.segmentedImage, "segmented-result.jpg")
    case MetadataJson => Download(JsonDataPrefix + encode(r.metadata), "segmentation-metadata.json")
  }

  /** The image downloads are what the two overlay modes show. */
  lemma DownloadMatchesPane(r: ViewResult, encode: Metadata -> string)
    ensures DownloadFor(MaskPng, r, encode).url == SegmentedPane(Mask, r).src
    ensures DownloadFor(FullJpg, r, encode).url == SegmentedPane(Blend, r).src
  {
  }

  /** The three downloads are saved under three different names. */
  lemma DownloadNamesDistinct(k1: DownloadKind, k2: DownloadKind, r: ViewResult, encode: Metadata -> string)
    requires k1 != k2
    ensures DownloadFor(k1, r, encode).filename != DownloadFor(k2, r, encode).filename
  {
    var a, b, c := "segmentation-mask.png", "segmented-result.jpg", "segmentation-metadata.json";
    assert a[9] != b[9] && a[14] != c[14] && b[9] != c[9];
  }

  /** The metadata download is a JSON data URL whose payload is exactly the encoded metadata. */
  lemma MetadataDownloadPayload(r: ViewResult, encode: Metadata -> string)
    ensures var url := DownloadFor(MetadataJson, r, encode).url;
      |url| >= |JsonDataPrefix| && url[..|JsonDataPrefix|] == JsonDataPrefix
      && url[|JsonDataPrefix|..] == encode(r.metadata)
  {
    var url := JsonDataPrefix + encode(r.metadata);
    assert url[..|JsonDataPrefix|] == JsonDataPrefix;
    assert url[|JsonDataPrefix|..] == encode(r.metadata);
  }

  const EndpointPrefix: string := "POST /segment?model="

  /** The endpoint text shown and copied. */
  function Endpoint(model: string): (e: string)
    ensures |e| == |EndpointPrefix| + |model|
    ensures e[..|EndpointPrefix|] == EndpointPrefix && e[|EndpointPrefix|..] == model
  {
    EndpointPrefix + model
  }

  /** The model can be read back from the endpoint text, so distinct models show distinct texts. */
  lemma EndpointInjective(m1: string, m2: string)
    requires Endpoint(m1) == Endpoint(m2)
    ensures m1 == m2
  {
    assert m1 == Endpoint(m1)[|EndpointPrefix|..];
  }

  /** The view's own state: zoom, overlay mode and the "copied" tick. */
  class ResultsView {
    const result: ViewResult
    var zoom: int
    var overlayMode: OverlayMode
    var copied: bool

    ghost predicate Valid()
      reads this
    {
      ZoomReachable(zoom)
    }

    constructor (result: ViewResult)
      ensures Valid() && this.result == result
      ensures zoom == InitialZoom && overlayMode == Mask && !copied
    {
      this.result := result;
      zoom := InitialZoom;
      overlayMode := Mask;
      copied := false;
    }

    method ZoomIn()
      requires Valid()
      modifies this
      ensures Valid()
      ensures zoom == ZoomedIn(old(zoom))
      ensures overlayMode == old(overlayMode) && copied == old(copied)
    {
      zoom := ZoomedIn(zoom);
    }

    method ZoomOut()
      requires Valid()
      modifies this
      ensures Valid()
      ensures zoom == ZoomedOut(old(zoom))
      ensures overlayMode == old(overlayMode) && copied == old(copied)
    {
      zoom := ZoomedOut(zoom);
    }

    /** The Mask and Blend toggle buttons. */
    method SetOverlayMode(mode: OverlayMode)
      requires Valid()
      modifies this
      ensures Valid()
      ensures overlayMode == mode
      ensures zoom == old(zoom) && copied == old(copied)
    {
      overlayMode := mode;
    }

    /** handleCopyEndpoint once the clipboard write resolves: the copied text, and the tick shown. */
    method CopyEndpoint() returns (clipboard: string)
      requires Valid()
      modifies this
      ensures Valid()
      ensures clipboard == Endpoint(result.modelUsed) && copied
      ensures zoom == old(zoom) && overlayMode == old(overlayMode)
    {
      clipboard := EndpointPrefix + result.modelUsed;
      copied := true;
    }

    /** The two-second timer set by handleCopyEndpoint fires. */
    method CopiedTimerFires()
      requires Valid()
      modifies this
      ensures Valid()
      ensures !copied
      ensures zoom == old(zoom) && overlayMode == old(overlayMode)
    {
      copied := false;
    }

    /** What the segmented pane shows now. */
    function CurrentPane(): (p: Pane)
      reads this
      ensures p.src == (if overlayMode == Mask then result.maskImage else result.segmentedImage)
    {
      SegmentedPane(overlayMode, result)
    }
  }

  /** Clicking zoom-in five times from a fresh view stops at 200. */
  method ZoomCapScenario(r: ViewResult)
  {
    var view := new ResultsView(r);
    view.ZoomIn();
    view.ZoomIn();
    view.ZoomIn();
    view.ZoomIn();
    assert view.zoom == MaxZoom;
    view.ZoomIn();
    assert view.zoom == MaxZoom;
    view.ZoomOut();
    assert view.zoom == 175;
  }
}
