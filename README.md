# Semantic segmentation web client and helpers, modelled in Dafny

This project models the logic of a single-page semantic-segmentation client
and two small Python helpers from the same repository:

- **File validation and the service call** (`frontend/src/services/api.ts`).
  The model covers the size limit, the MIME-type and extension whitelist,
  and the error messages, including the `toFixed(1)` megabyte figure. It
  also covers the `URLSearchParams` query of the segmentation request, the
  `Server error: <status>` rejection, and how the JSON envelope becomes the
  result record with `data:image/png;base64,` URLs. Module `Api`.
- **The upload page** (`frontend/src/components/UploadPage.tsx`). Class
  `Upload.UploadPage` holds the six state cells and implements every
  handler. Class `Upload.ObjectUrls` stands for the browser's
  `URL.createObjectURL` / `revokeObjectURL`: it hands out fresh handles and
  logs every revocation.
- **The drop zone** (`frontend/src/components/DropZone.tsx`). Class
  `Drop.DropZone` has the dragging flag and the preview slot. The calls it
  makes into its parent are returned as values.
- **The results view** (`frontend/src/components/ResultsView.tsx`). This
  covers the zoom buttons, the overlay mode, the copy-endpoint tick, the
  segmented pane, and the three downloads. Class `Results.ResultsView`
  holds this state, and pure functions give the mappings.
- **The colour palette** (`inference/predictor.py`, `_build_color_palette`).
  The nested loop is imperative Dafny over an array. It is proved equal to
  a reference bit-interleaving colour map, `Predictor.Color`. The
  ValueError that Python raises for labels from 2^24 on is part of the
  model.
- **The project scaffolder** (`template.py`, `create_project_structure`).
  The file system is abstract: a set of directories and a map from file
  paths to contents. The loop is an imperative method over a `FileSystem`
  object, proved equal to a pure specification, `Template.Scaffold`.

Helpers shared by the modules are in `strings.dfy`: ASCII case mapping, the
last `split(".")` segment, the one-occurrence `replace`, substring search,
and decimal rendering.

The model keeps the following behaviour of the code as it is written:

- The zoom buttons move in steps of 25 and clamp to 50–200%
  (`ResultsView.tsx:17-18`).
- *Cancel* does not stop the request in flight, and the page applies its
  outcome when it settles (`UploadPage.tsx:72-81`). After a cancel the page
  therefore still moves to "results" or "error".
  `Upload.LateReplyAfterCancelScenario` shows this.
- Object URLs are not always released:
  - Selecting a second valid file leaves the first file's URL live
    (`Upload.ReselectLeakScenario`).
  - `handleNewImage` passes the mask's `data:` URL to `revokeObjectURL`
    (`Upload.HappyPathScenario`).
- The view reads fields of the declared `SegmentationResult` type
  (`maskImage`, `segmentedImage`, `metadata`, `modelUsed`). `segmentImage`
  builds a different record (`mask`, `overlay`, `original`, ...). The two
  are kept as separate datatypes (`Results.ViewResult`, `Api.Segmentation`)
  and are not reconciled.
- The page never sends the selected model: `segmentImage` is called without
  options (`UploadPage.tsx:72`).

## Model

| member | source | states |
|---|---|---|
| Strings.LowerChars | frontend/src/services/api.ts:61 | `toLowerCase` keeps the length and maps every character on its own |
| Strings.UpperChars | frontend/src/services/api.ts:63 | `toUpperCase` keeps the length and maps every character on its own |
| Strings.UpperOfLower | frontend/src/services/api.ts:61-63 | upper-casing the lower-cased extension gives the same text as upper-casing the original |
| Strings.LastSegment | frontend/src/services/api.ts:61 | `split(".").pop()` is the suffix after the last dot, contains no dot, and is the whole name when there is no dot |
| Strings.LastSegmentOfJoin | frontend/src/services/api.ts:61 | the last segment of `front + "." + seg` is `seg` whenever `seg` has no dot |
| Strings.FirstIndex | frontend/src/services/api.ts:63 | the position a one-character `replace` acts on holds that character, and no earlier position does |
| Strings.RemoveFirst | frontend/src/services/api.ts:63 | `replace(".", "")` removes exactly one character when there is a dot, the leading one if it leads, and nothing otherwise |
| Strings.RemoveFirstAt | frontend/src/services/api.ts:63 | with a dot present, the result is the text before the first dot followed by the text after it |
| Strings.NatToString | frontend/src/services/api.ts:21 | a number renders as decimal digits with no leading zero |
| Strings.NatToStringRoundTrip | frontend/src/services/api.ts:21 | reading the rendered decimal digits back gives the number |
| Strings.NatToStringInjective | frontend/src/services/api.ts:21 | distinct statuses render as distinct texts |
| Strings.ContainsInfix | template.py:156 | `"setup.py" in name` holds for any name built around `setup.py` |
| Strings.ContainsAt | template.py:156 | conversely, when `"setup.py" in name` holds, `setup.py` occurs at some position of the name |
| Api.Extension | frontend/src/services/api.ts:61 | the extension starts with a dot and has no other dot; for a dotless name it is a dot followed by the lower-cased name |
| Api.SizeTenths | frontend/src/services/api.ts:48 | `(size / 2^20).toFixed(1)` picks the nearest count of tenths of a MiB, rounding a tie up |
| Api.SizeInMegabytes | frontend/src/services/api.ts:48 | the text is decimal digits, a dot and one digit. The digits before the dot read back as the whole MiB, and the last digit is the tenths |
| Api.DetectedFormat | frontend/src/services/api.ts:63 | the format shown is the MIME type when there is one, else the upper-cased extension without its dot |
| Api.ValidateFile | frontend/src/services/api.ts:38-76 | valid iff there is no error. A size error occurs iff the size is over 10 MiB. A format error occurs iff the size is within the limit and neither the MIME type nor the extension is allowed |
| Api.OversizedRejectedForSize | frontend/src/services/api.ts:47-58 | an oversized file is rejected for size whatever its name and type, with the MB message and the size advice |
| Api.FormatRuleWithinLimit | frontend/src/services/api.ts:60-75 | within the limit: valid iff the type or the extension is allowed; otherwise the format error names the detected format |
| Api.ExtensionOfJoin | frontend/src/services/api.ts:61 | the extension of `front.seg` is `"." + lower(seg)` |
| Api.JpgExtension | frontend/src/services/api.ts:61 | "photo.JPG" has the extension ".jpg" |
| Api.DotlessExtension | frontend/src/services/api.ts:61 | a dotless name such as "PNG" is its own extension, ".png" |
| Api.TiffSegment | frontend/src/services/api.ts:61 | "scan.tiff" ends in the segment "tiff" |
| Api.SizeBoundaryPasses | frontend/src/services/api.ts:42-47 | a file of exactly 10 MiB with an allowed extension passes (the size test is strict) |
| Api.MimeTypeCaseSensitive | frontend/src/services/api.ts:43-62 | the MIME whitelist is compared exactly: "IMAGE/PNG" is rejected and "image/png" accepted for a `.gif` name |
| Api.PngExtensionPasses | frontend/src/services/api.ts:44-62 | a `.png` extension is enough, whatever the MIME type |
| Api.GifRejected | frontend/src/services/api.ts:62-72 | a `.gif` typed `image/gif` is rejected with "Unsupported format: image/gif" |
| Api.TiffNotAllowed | frontend/src/services/api.ts:62-63 | an untyped `.tiff` is allowed by neither rule, and its detected format is "TIFF" |
| Api.UntypedFormatMessage | frontend/src/services/api.ts:62-72 | an untyped `.tiff` gets "Unsupported format: TIFF" |
| Api.ElevenMegabyteMessage | frontend/src/services/api.ts:47-53 | an 11 MiB file reports "File too large (11.0 MB)" |
| Api.WithoutName | frontend/src/services/api.ts:11-13 | removing a name keeps exactly the other pairs, and leaves a list without that name unchanged |
| Api.WithoutNameAppend | frontend/src/services/api.ts:11-13 | the removal works pair by pair over a concatenation, so the kept pairs stay in order and keep their repetitions |
| Api.FirstNamed | frontend/src/services/api.ts:11-13 | the first pair with a name: it has that name and no earlier pair does |
| Api.SetParam | frontend/src/services/api.ts:11-13 | `URLSearchParams.set`: appends when the name is new. Afterwards the pair is present, every pair with that name has the new value, and every other pair is kept |
| Api.SetParamAt | frontend/src/services/api.ts:11-13 | with the name present, the pairs before its first occurrence stay, the new pair takes that place, and what follows stays minus the other pairs of that name |
| Api.QueryParams | frontend/src/services/api.ts:10-13 | `mask_format=png` comes first. Each flag pair is present iff its option is set. Names are distinct |
| Api.BuildQuery | frontend/src/services/api.ts:10-13 | the successive `set` calls produce exactly QueryParams |
| Api.Serialize | frontend/src/services/api.ts:15 | the text is empty iff there are no pairs |
| Api.SerializeHead | frontend/src/services/api.ts:15 | the text starts with the first `name=value`, then ends there for one pair or continues with `&` |
| Api.SerializeCons | frontend/src/services/api.ts:15 | serialisation joins `name=value` pairs with `&` |
| Api.QueryString | frontend/src/services/api.ts:10-15 | the query starts with `mask_format=png`; it is exactly that iff no option is set, and a `&` follows otherwise |
| Api.QueryStringShape | frontend/src/services/api.ts:10-15 | the query string for every combination of options, flags in order and only when set |
| Api.SegmentRequest | frontend/src/services/api.ts:7-18 | the request is a POST whose form holds only the image |
| Api.DefaultRequestUrl | frontend/src/services/api.ts:15 | `segmentImage(file)` posts to `/api/segment?mask_format=png` |
| Api.Normalise | frontend/src/services/api.ts:26-35 | the record keeps success, size, classes and the file name; overlay and original are present iff the envelope field is truthy |
| Api.NormalisePayloads | frontend/src/services/api.ts:28-30 | each image URL is a PNG data URL whose payload is exactly the server's field |
| Api.SegmentImage | frontend/src/services/api.ts:15-35 | given a reply whose body parsed as JSON: fulfils iff the status is 200–299, with the normalised record. A transport failure rejects with its own reason. Any other status rejects with "Server error: <status>" |
| Api.ServerErrorNamesStatus | frontend/src/services/api.ts:20-22 | the status can be read back from the error message |
| Api.ServerErrorExample | frontend/src/services/api.ts:20-22 | a 500 reply rejects with "Server error: 500" |
| Upload.ModelName | frontend/src/components/UploadPage.tsx:103 | the catalogue ids map to their display names; an unknown id is shown as itself |
| Upload.FailureDetails | frontend/src/components/UploadPage.tsx:79 | an `Error` contributes its message; anything else thrown gives the fixed fallback text |
| Upload.ObjectUrls.constructor | frontend/src/components/UploadPage.tsx:53 | no URL is live and none has been revoked |
| Upload.ObjectUrls.Create | frontend/src/components/UploadPage.tsx:53 | `createObjectURL` returns a handle never handed out before and makes it live |
| Upload.ObjectUrls.Revoke | frontend/src/components/UploadPage.tsx:94-95 | `revokeObjectURL` logs the URL; only an object URL stops being live |
| Upload.UploadPage.constructor | frontend/src/components/UploadPage.tsx:34-39 | the start state is "upload" with model "fast", and no file, error, result or URL |
| Upload.UploadPage.HandleFileSelect | frontend/src/components/UploadPage.tsx:41-54 | an invalid file only sets the error. A valid one clears the error, becomes the selected file and gets a fresh live URL; the previous URL is not revoked |
| Upload.UploadPage.HandleClearFile | frontend/src/components/UploadPage.tsx:56-61 | revokes the held URL, if any, and clears the file, the URL and the error; nothing else changes |
| Upload.UploadPage.HandleDismissError | frontend/src/components/UploadPage.tsx:63-65 | only the error is cleared |
| Upload.UploadPage.SubmitStart | frontend/src/components/UploadPage.tsx:67-72 | without a file nothing happens. Otherwise the state becomes "processing" and the default request for the file is issued. An enabled process button always issues a request |
| Upload.UploadPage.SubmitComplete | frontend/src/components/UploadPage.tsx:72-82 | a fulfilled call stores the result and shows "results". A rejected one sets the network error, with the thrown message or the fallback text, and shows "error" |
| Upload.UploadPage.HandleCancel | frontend/src/components/UploadPage.tsx:85-87 | back to "upload"; nothing else changes |
| Upload.UploadPage.HandleBack | frontend/src/components/UploadPage.tsx:89-91 | back to "upload", keeping file, URL and result |
| Upload.UploadPage.HandleNewImage | frontend/src/components/UploadPage.tsx:93-101 | revokes the original URL and the mask URL, clears everything and shows "upload" |
| Upload.UploadPage.SelectModel | frontend/src/components/UploadPage.tsx:187-192 | a model click changes the choice except while processing |
| Upload.UploadPage.ShowsResults | frontend/src/components/UploadPage.tsx:106 | the results view is rendered iff the state is "results" and both a result and the original URL are held |
| Upload.UploadPage.ProcessDisabled | frontend/src/components/UploadPage.tsx:198 | the process button is enabled iff a file is selected and nothing is processing; it is disabled whenever the inputs are |
| Upload.UploadPage.InputsDisabled | frontend/src/components/UploadPage.tsx:176-191 | the drop zone and the model buttons are disabled iff the state is "processing" |
| Upload.UploadPage.ResultsViewHasFile | frontend/src/components/UploadPage.tsx:106 | when the results view is shown, a file is selected and its URL is live |
| Drop.FirstFile | frontend/src/components/DropZone.tsx:36-37 | `files[0]` is present iff the list is non-empty |
| Drop.Forward | frontend/src/components/DropZone.tsx:36-42 | at most one file is forwarded: the first one, and its preview read starts; nothing happens for an empty list |
| Drop.DropZone.constructor | frontend/src/components/DropZone.tsx:14-15 | not dragging, no preview |
| Drop.DropZone.DragOver | frontend/src/components/DropZone.tsx:17-23 | an enabled zone becomes highlighted; a disabled one keeps its flag |
| Drop.DropZone.DragLeave | frontend/src/components/DropZone.tsx:25-28 | the highlight goes |
| Drop.DropZone.Drop | frontend/src/components/DropZone.tsx:30-45 | the highlight always goes. A disabled zone forwards nothing; otherwise the first file is forwarded |
| Drop.DropZone.FileInput | frontend/src/components/DropZone.tsx:47-58 | the first chosen file is forwarded, with no `disabled` test; a missing file list forwards nothing |
| Drop.DropZone.PreviewLoaded | frontend/src/components/DropZone.tsx:40 | the reader's data URL becomes the preview |
| Drop.DropZone.Clear | frontend/src/components/DropZone.tsx:60-63 | the preview goes and the parent is asked to clear |
| Drop.DropZone.ShowsPreview | frontend/src/components/DropZone.tsx:84 | the preview card shows iff a file is selected and a non-empty preview is loaded |
| Results.ZoomedIn | frontend/src/components/ResultsView.tsx:17 | one step up, capped at 200; reachable levels stay reachable |
| Results.ZoomedOut | frontend/src/components/ResultsView.tsx:18 | one step down, floored at 50; reachable levels stay reachable |
| Results.ZoomSaturates | frontend/src/components/ResultsView.tsx:17-18 | at the bounds the buttons change nothing |
| Results.ZoomRoundTrip | frontend/src/components/ResultsView.tsx:17-18 | below the cap, in then out is the identity; above the floor, out then in is too |
| Results.ZoomAfter | frontend/src/components/ResultsView.tsx:17-18 | no clicks keep the level; from a level within 50–200 any clicks stay within 50–200 |
| Results.ZoomStaysReachable | frontend/src/components/ResultsView.tsx:13-18 | any sequence of clicks from 100 ends at a multiple of 25 between 50 and 200 |
| Results.Repeat | frontend/src/components/ResultsView.tsx:17-18 | `k` clicks of one kind |
| Results.ZoomInRepeated | frontend/src/components/ResultsView.tsx:13-17 | `k` zoom-ins from 100 give `100 + 25k` while that is at most 200 |
| Results.ZoomOutRepeated | frontend/src/components/ResultsView.tsx:13-18 | `k` zoom-outs from 100 give `100 - 25k` while that is at least 50 |
| Results.ZoomLevelsAllReachable | frontend/src/components/ResultsView.tsx:13-18 | conversely, every multiple of 25 between 50 and 200 is reached by some sequence of clicks |
| Results.SegmentedPane | frontend/src/components/ResultsView.tsx:140-146 | mask mode shows the mask at 100% and blend mode the segmented image at 80%; the opacity is full iff the mode is mask |
| Results.DownloadFor | frontend/src/components/ResultsView.tsx:26-45 | mask gives the mask image as `segmentation-mask.png`, full the segmented image as `segmented-result.jpg`, metadata the JSON data URL of the encoded metadata as `segmentation-metadata.json` |
| Results.DownloadMatchesPane | frontend/src/components/ResultsView.tsx:30-38 | the mask and full downloads are exactly the two pane images |
| Results.DownloadNamesDistinct | frontend/src/components/ResultsView.tsx:30-45 | the three downloads are saved under distinct names |
| Results.MetadataDownloadPayload | frontend/src/components/ResultsView.tsx:39-43 | the metadata download is a JSON data URL whose payload is exactly the encoded metadata |
| Results.Endpoint | frontend/src/components/ResultsView.tsx:21 | the endpoint text is the fixed prefix followed by the model name |
| Results.EndpointInjective | frontend/src/components/ResultsView.tsx:21 | distinct models show distinct endpoint texts |
| Results.ResultsView.constructor | frontend/src/components/ResultsView.tsx:13-15 | 100%, mask mode, not copied |
| Results.ResultsView.ZoomIn | frontend/src/components/ResultsView.tsx:17 | zoom becomes ZoomedIn of the old zoom; reachability is kept; nothing else changes |
| Results.ResultsView.ZoomOut | frontend/src/components/ResultsView.tsx:18 | zoom becomes ZoomedOut of the old zoom; reachability is kept; nothing else changes |
| Results.ResultsView.SetOverlayMode | frontend/src/components/ResultsView.tsx:98-119 | only the mode changes |
| Results.ResultsView.CopyEndpoint | frontend/src/components/ResultsView.tsx:20-22 | the clipboard receives the endpoint text and the tick shows |
| Results.ResultsView.CopiedTimerFires | frontend/src/components/ResultsView.tsx:23 | the tick goes; nothing else changes |
| Results.ResultsView.CurrentPane | frontend/src/components/ResultsView.tsx:140 | the pane source follows the current mode |
| Predictor.BitOrBits | inference/predictor.py:24-26 | the modelled `|` is bitwise or: a bit is set iff it is set in either operand |
| Predictor.BitOrBelow | inference/predictor.py:24-26 | or-ing one bit below an accumulator that has none there adds it |
| Predictor.ShiftLeftIsProduct | inference/predictor.py:24-26 | `x << k` is `x * 2^k` |
| Predictor.ShiftVanishes | inference/predictor.py:23-27 | `x >> k` is 0 iff `x < 2^k` |
| Predictor.ShiftAdd | inference/predictor.py:27 | successive shifts add up |
| Predictor.ShiftByThree | inference/predictor.py:27 | `lab >>= 3` divides by 8 |
| Predictor.GatheredBit | inference/predictor.py:24-26 | bit `j` of the packed value is label bit `3(n-1-j)+c` |
| Predictor.GatheredBound | inference/predictor.py:24-26 | n packed bits stay below 2^n |
| Predictor.GatheredPadding | inference/predictor.py:23-28 | zero bits past the end of the label only shift the packed value left |
| Predictor.ChannelIsByte | inference/predictor.py:24-26 | every component of a colour is at most 255 |
| Predictor.ChannelBits | inference/predictor.py:24-26 | bit `7-i` of component `c` is bit `3i+c` of the label |
| Predictor.SingleDigitColor | inference/predictor.py:23-28 | a label below 8 sets only the top bit of each component |
| Predictor.FirstColors | inference/predictor.py:16-30 | labels 0–3 are black, (128,0,0), (0,128,0) and (128,128,0) |
| Predictor.BitsDiffer | inference/predictor.py:24-26 | two different numbers below 2^n differ at some bit below n |
| Predictor.ColorsDifferAt | inference/predictor.py:24-26 | labels that differ at a low bit get different colours |
| Predictor.ColorInjective | inference/predictor.py:16-30 | distinct labels below 2^24 get distinct colours |
| Predictor.OctalDigitsBound | inference/predictor.py:23-28 | the inner loop makes at most k passes iff the label is below 2^(3k) |
| Predictor.PassesBounded | inference/predictor.py:17-28 | at most 8 passes below 2^24, and at most 3 for the 256 documented classes |
| Predictor.LabelLimitIsPow2 | inference/predictor.py:24-26 | the first label that needs a ninth pass is 2^24 |
| Predictor.ChannelStep | inference/predictor.py:24-26 | one pass adds the next label bit to a component accumulator |
| Predictor.DigitStep | inference/predictor.py:27-28 | one pass drops one octal digit of what is left of the label |
| Predictor.PassPreserves | inference/predictor.py:23-28 | one pass keeps the loop invariant and makes progress |
| Predictor.PassesExhausted | inference/predictor.py:23-29 | when the loop ends the accumulators hold the label's colour |
| Predictor.NinthPass | inference/predictor.py:23-26 | a ninth pass, whose shift count is negative, happens only for labels of 2^24 and above |
| Predictor.ColorOf | inference/predictor.py:20-28 | the inner loop yields the reference colour iff the label is below 2^24, and otherwise raises |
| Predictor.FlattenLayout | inference/predictor.py:29 | a colour list flattens to `[r0, g0, b0, r1, ...]` with label `k`'s component `c` at `3k+c` |
| Predictor.Colors | inference/predictor.py:19 | the colours of labels 0 to n-1, in order |
| Predictor.PaletteLayout | inference/predictor.py:18-29 | the palette has 3n entries, and label L's colour sits at 3L, 3L+1 and 3L+2 |
| Predictor.PaletteGrows | inference/predictor.py:19-29 | one more class appends its colour |
| Predictor.PaletteStep | inference/predictor.py:29 | writing a label's colour into its slots extends the filled prefix to the next palette |
| Predictor.StoreColor | inference/predictor.py:29 | the slice assignment extends the filled prefix by one colour and leaves the later slots alone |
| Predictor.FillSlots | inference/predictor.py:19-29 | one turn of the outer loop stores the label's colour, or fails iff the label is 2^24 or more |
| Predictor.BuildColorPalette | inference/predictor.py:16-30 | the result is the reference palette of `max(n, 0)` classes, and the call raises iff n exceeds 2^24 |
| Template.Parent | template.py:142 | the parent drops the last component |
| Template.Suffix | template.py:151-153 | `Path.suffix` is empty or a dot followed by the last dotted segment |
| Template.SuffixWhenDotInside | template.py:151-153 | the suffix is non-empty iff the last dot of the name is neither its first nor its last character |
| Template.Content | template.py:151-166 | a new file gets the setup script iff its name contains "setup.py", else nothing |
| Template.SetupNamesGetScript | template.py:156-164 | every name with `setup.py` inside gets the setup script |
| Template.MakeDirsIn | template.py:146 | `mkdir(parents=True, exist_ok=True)` raises iff the path or an ancestor is a regular file, else adds the path and its ancestors |
| Template.WriteIn | template.py:167-168 | `open(path, 'w')` raises iff the parent is not a directory or the path is one, else sets the file's contents |
| Template.PlaceFailsIffBlocked | template.py:141-168 | an entry raises iff one of its ancestors is a regular file, and then leaves the state as it was |
| Template.MakeDirsKeepsValid | template.py:146 | creating directories keeps the file system a tree |
| Template.WriteKeepsValid | template.py:167-168 | writing a file keeps the file system a tree |
| Template.PlaceKeepsValid | template.py:141-168 | one entry keeps the file system a tree |
| Template.PlaceEffect | template.py:141-168 | after a successful entry it exists and its ancestors are directories. Nothing old is removed or rewritten. The only new file is the entry, with its content |
| Template.PlaceExisting | template.py:145-150 | an entry that exists under a directory is skipped |
| Template.ScaffoldSplit | template.py:140 | processing `a + b` is processing `a` and then, unless it raised, `b` |
| Template.ScaffoldKeepsValid | template.py:140-169 | the whole call keeps the file system a tree, also when it stops early |
| Template.ScaffoldFailsAtBlockedEntry | template.py:140-169 | the call raises iff an entry reached in order has a regular file as an ancestor |
| Template.PlacedKept | template.py:140-169 | growing the file system keeps placed entries placed |
| Template.ScaffoldCreatesEntries | template.py:128-169 | after a call that returned, every entry exists and all its ancestors are directories |
| Template.ScaffoldPreserves | template.py:128-169 | nothing that existed is removed or rewritten; every new file is an entry of the list with the content its name calls for |
| Template.ScaffoldLeavesOthers | template.py:128-169 | paths that are neither entries nor ancestors of entries are untouched |
| Template.ScaffoldIdempotent | template.py:128-169 | a second call on the result changes nothing and does not raise |
| Template.AgainIsIdle | template.py:145-150 | over placed entries, every prefix of the list is a no-op |
| Template.FileSystem.constructor | template.py:128 | the object starts with the given directories and files |
| Template.FileSystem.MakeDirs | template.py:146 | the in-place `mkdir` does what MakeDirsIn says, or nothing when it raises |
| Template.FileSystem.Write | template.py:167-168 | the in-place write does what WriteIn says, or nothing when it raises |
| Template.CreateProjectStructure | template.py:128-169 | the loop leaves exactly the state Scaffold specifies and returns false exactly where the script raises. Every new file holds Content of its name, so the `.py` and `.yaml` placeholders the loop picks first are always overwritten |

The scenario methods `Upload.HappyPathScenario`,
`Upload.LateReplyAfterCancelScenario`, `Upload.ReselectLeakScenario`,
`Upload.OversizedSelectionScenario`, `Drop.MultiFileDropScenario`,
`Drop.RejectedDropKeepsPreviewScenario` and `Results.ZoomCapScenario` drive
several objects through a sequence of handler calls and prove the
behaviour noted above with assertions.

## Left out

- The network call (`fetch`, `FormData`, `response.json()`): the transport
  outcome and the parsed envelope are inputs of `Api.SegmentImage`. JSON
  fields of the wrong type are not modelled.
- Api.SegmentImage: a 2xx reply whose body is not JSON is not modelled. There
  `response.json()` (`api.ts:24`) rejects with a `SyntaxError`, whose message
  `Upload.UploadPage.SubmitComplete` would show as the error details.
- Percent-encoding by `URLSearchParams.toString()`: every name and value the
  client sets is made of letters, digits and `_`, which the serializer
  leaves as they are.
- `JSON.stringify` and `encodeURIComponent` of the metadata download: the
  encoding is a function parameter of `Results.DownloadFor`.
- Case mapping beyond ASCII: `toLowerCase` and `toUpperCase` are modelled on
  ASCII letters only.
- File sizes of 2^53 bytes and more, where JavaScript's floating point is no
  longer exact. `Api.SizeTenths` treats `size / 2^20` as exact.
- The React rendering, animations, the DOM anchor that performs a download,
  the clipboard API's failure path and the 2-second timer's scheduling. The
  timer firing is the separate event `Results.ResultsView.CopiedTimerFires`.
- The FileReader: its completion is the separate event
  `Drop.DropZone.PreviewLoaded`. A read that fails never calls it.
- Drop.DropZone: the page unmounts the drop zone while the results view
  shows (`UploadPage.tsx:106-115`), so after *back* it starts again with no
  highlight and no preview. The model keeps one `DropZone` object across
  views, and its old preview survives *back*.
- The zoom scale transform and the displayed statistics (processing time,
  confidence), which are display-only.
- The model tier and selector catalogue beyond ids and names: icons and
  descriptions are not modelled.
- The prints of `template.py`, `PROJECT_FOLDER` and absolute paths, and the
  real file system:
  - Paths are sequences of components, and the empty path is the start
    directory.
  - `..`, symbolic links, permissions and I/O errors other than a regular
    file in the way are not modelled.
  - The module-level call with the fixed `structure` list is not modelled;
    `Template.CreateProjectStructure` takes any list.
- The rest of the repository: training, datasets, model wrappers, the
  inference pipeline around the palette, the backend and the remaining
  components.
