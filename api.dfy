/**
 * The client's service layer (frontend/src/services/api.ts): the file
 * validation policy, the query string of the segmentation request, and the
 * normalisation of the server's JSON envelope into a result record.
 * The fetch itself is not modelled: its outcome is an input.
 */
module Api {
  import opened Wrappers
  import opened Strings

  /** The three properties of a browser `File` the client reads. */
  datatype File = File(name: string, mimeType: string, size: nat)

  datatype ErrorKind = Size | Format | Network | Unknown

  /** The error record shown by the banner; every error the core builds has details. */
  datatype UploadError = UploadError(kind: ErrorKind, message: string, details: string)

  /** The `{ valid, error? }` verdict of `validateFile`. */
  datatype Validation = Validation(valid: bool, error: Option<UploadError>)

  // ---------------------------------------------------------------------
  // validateFile
  // ---------------------------------------------------------------------

  const MaxSize: nat := 10 * 1024 * 1024
  const AllowedTypes: seq<string> := ["image/jpeg", "image/png", "image/jpg"]
  const AllowedExtensions: seq<string> := [".jpg", ".jpeg", ".png"]
  const SizeDetails: string :=
    "Maximum file size is 10MB. Try compressing your image using tools like TinyPNG.com or reduce the resolution."
  const FormatDetails: string :=
    "We only support JPG and PNG formats. You can convert your image using CloudConvert.com or similar tools."

  /** `"." + name.split(".").pop().toLowerCase()` */
  function Extension(name: string): (ext: string)
    ensures |ext| >= 1 && ext[0] == '.'
    ensures '.' !in ext[1..]
    ensures '.' !in name ==> ext == "." + Lower(name)
  {
    LowerChars(LastSegment(name, '.'));
    "." + Lower(LastSegment(name, '.'))
  }

  predicate TypeAllowed(file: File) {
    file.mimeType in AllowedTypes
  }

  predicate ExtensionAllowed(file: File) {
    Extension(file.name) in AllowedExtensions
  }

  /**
   * `(size / 2^20).toFixed(1)` as a count of tenths: the quotient is exact in
   * binary floating point, and toFixed picks the nearest count of tenths,
   * the larger one on a tie.
   */
  function SizeTenths(size: nat): (n: nat)
    ensures n * 1048576 <= size * 10 + 524288 < (n + 1) * 1048576
  {
    (size * 10 + 524288) / 1048576
  }

  /** The text `toFixed(1)` produces for `size / 2^20`. */
  function SizeInMegabytes(size: nat): (text: string)
    ensures |text| >= 3 && text[|text| - 2] == '.'
    ensures IsDigits(text[..|text| - 2]) && DigitsValue(text[..|text| - 2]) == SizeTenths(size) / 10
    ensures '0' <= text[|text| - 1] <= '9' && text[|text| - 1] as int - 48 == SizeTenths(size) % 10
  {
    var n := SizeTenths(size);
    var whole := NatToString(n / 10);
    NatToStringRoundTrip(n / 10);
    assert (whole + "." + NatToString(n % 10))[..|whole|] == whole;
    whole + "." + NatToString(n % 10)
  }

  /** `file.type || extension.toUpperCase().replace(".", "")` */
  function DetectedFormat(file: File): (f: string)
    ensures file.mimeType != "" ==> f == file.mimeType
    ensures file.mimeType == "" ==> f == Upper(LastSegment(file.name, '.'))
  {
    if file.mimeType != "" then file.mimeType
    else
      var upper := Upper(Extension(file.name));
      assert upper == "." + Upper(LastSegment(file.name, '.')) by {
        UpperOfLower(LastSegment(file.name, '.'));
        assert Upper(Extension(file.name)) == "." + Upper(Lower(LastSegment(file.name, '.')));
      }
      RemoveFirst(upper, '.')
  }

  /** The client-side file policy: size first, then MIME type or extension. */
  function ValidateFile(file: File): (v: Validation)
    ensures v.valid <==> v.error.None?
    ensures v.error.Some? ==> v.error.value.kind == Size || v.error.value.kind == Format
    ensures v.error.Some? && v.error.value.kind == Size <==> file.size > MaxSize
    ensures v.error.Some? && v.error.value.kind == Format <==>
      file.size <= MaxSize && !TypeAllowed(file) && !ExtensionAllowed(file)
  {
    if file.size > MaxSize then
      Validation(false, Some(UploadError(Size, "File too large (" + SizeInMegabytes(file.size) + " MB)", SizeDetails)))
    else if !TypeAllowed(file) && !ExtensionAllowed(file) then
      Validation(false, Some(UploadError(Format, "Unsupported format: " + DetectedFormat(file), FormatDetails)))
    else
      Validation(true, None)
  }

  /** Oversized files are rejected for size whatever their name and type; the size check comes first. */
  lemma OversizedRejectedForSize(file: File)
    requires file.size > MaxSize
    ensures !ValidateFile(file).valid
    ensures ValidateFile(file).error.value.kind == Size
    ensures ValidateFile(file).error.value.message ==
      "File too large (" + SizeInMegabytes(file.size) + " MB)"
    ensures ValidateFile(file).error.value.details == SizeDetails
  {
  }

  /** Within the limit a file passes iff its MIME type or its extension is allowed. */
  lemma FormatRuleWithinLimit(file: File)
    requires file.size <= MaxSize
    ensures ValidateFile(file).valid <==> TypeAllowed(file) || ExtensionAllowed(file)
    ensures !ValidateFile(file).valid ==>
      ValidateFile(file).error.value == UploadError(Format, "Unsupported format: " + DetectedFormat(file), FormatDetails)
  {
  }

  /** The extension of `front + "." + seg`, where `seg` has no dot, is `"." + Lower(seg)`. */
  lemma ExtensionOfJoin(front: string, seg: string)
    requires '.' !in seg
    ensures Extension(front + "." + seg) == "." + Lower(seg)
  {
    LastSegmentOfJoin(front, '.', seg);
  }

  /** The extension of "photo.JPG" is ".jpg". */
  lemma JpgExtension()
    ensures Extension("photo" + "." + "JPG") == ".jpg"
  {
    ExtensionOfJoin("photo", "JPG");
    assert Lower("JPG") == "jpg";
  }

  /** A name without a dot is its own extension: "PNG" has the extension ".png". */
  lemma DotlessExtension()
    ensures Extension("PNG") == ".png"
  {
    assert '.' !in "PNG";
    var lower := Lower("PNG");
    assert lower[0] == 'p' && lower[1] == 'n' && lower[2] == 'g';
  }

  /** The segment after the last dot of "scan.tiff" is "tiff". */
  lemma TiffSegment()
    ensures LastSegment("scan" + "." + "tiff", '.') == "tiff"
  {
    LastSegmentOfJoin("scan", '.', "tiff");
  }

  /** A file of exactly 10 MiB with an allowed extension (such as "photo.JPG") passes the size check. */
  lemma SizeBoundaryPasses(file: File)
    requires Extension(file.name) == ".jpg" && file.size == MaxSize
    ensures ValidateFile(file).valid
  {
    assert Extension(file.name) == AllowedExtensions[0];
    FormatRuleWithinLimit(file);
  }

  /**
   * The MIME type is compared exactly: for a name whose extension is not
   * allowed (such as "photo.gif"), "IMAGE/PNG" is rejected and "image/png"
   * accepted.
   */
  lemma MimeTypeCaseSensitive(file: File)
    requires Extension(file.name) == ".gif" && file.size <= MaxSize
    ensures file.mimeType == "IMAGE/PNG" ==> !ValidateFile(file).valid
    ensures file.mimeType == "image/png" ==> ValidateFile(file).valid
  {
    assert !ExtensionAllowed(file) by {
      var ext := Extension(file.name);
      assert ext[1] == 'g';
      assert AllowedExtensions[0][1] == 'j' && AllowedExtensions[1][1] == 'j' && AllowedExtensions[2][1] == 'p';
    }
    FormatRuleWithinLimit(file);
    if file.mimeType == "IMAGE/PNG" {
      assert file.mimeType[0] == 'I';
      assert AllowedTypes[0][0] == 'i' && AllowedTypes[1][0] == 'i' && AllowedTypes[2][0] == 'i';
    }
    if file.mimeType == "image/png" {
      assert file.mimeType == AllowedTypes[1];
    }
  }

  /** A name with the extension ".png" (by DotlessExtension, the name "PNG" too) passes whatever its type. */
  lemma PngExtensionPasses(file: File)
    requires Extension(file.name) == ".png" && file.size <= MaxSize
    ensures ValidateFile(file).valid
  {
    assert Extension(file.name) == AllowedExtensions[2];
    FormatRuleWithinLimit(file);
  }

  /** A `.gif` declared as `image/gif` is rejected, naming its MIME type. */
  lemma GifRejected(file: File)
    requires Extension(file.name) == ".gif" && file.mimeType == "image/gif" && file.size <= MaxSize
    ensures ValidateFile(file).error ==
      Some(UploadError(Format, "Unsupported format: " + "image/gif", FormatDetails))
  {
    MimeTypeCaseSensitive(file);
    assert !TypeAllowed(file) by {
      assert file.mimeType[6] == 'g';
      assert AllowedTypes[0][6] == 'j' && AllowedTypes[1][6] == 'p' && AllowedTypes[2][6] == 'j';
    }
    FormatRuleWithinLimit(file);
  }

  /** A "scan.tiff"-like name without a MIME type: nothing allows it and the format shown is "TIFF". */
  lemma TiffNotAllowed(file: File)
    requires LastSegment(file.name, '.') == "tiff" && file.mimeType == ""
    ensures !TypeAllowed(file) && !ExtensionAllowed(file)
    ensures DetectedFormat(file) == "TIFF"
  {
    TiffExtensionRefused(file.name);
    TiffCase();
  }

  lemma TiffExtensionRefused(name: string)
    requires LastSegment(name, '.') == "tiff"
    ensures Extension(name) !in AllowedExtensions
  {
    TiffCase();
    var ext := Extension(name);
    assert ext[1] == 't';
    assert AllowedExtensions[0][1] == 'j' && AllowedExtensions[1][1] == 'j' && AllowedExtensions[2][1] == 'p';
  }

  lemma TiffCase()
    ensures Lower("tiff") == "tiff" && Upper("tiff") == "TIFF"
  {
  }

  /** Without a MIME type the message names the upper-cased extension, dot removed. */
  lemma UntypedFormatMessage(file: File)
    requires LastSegment(file.name, '.') == "tiff" && file.mimeType == "" && file.size <= MaxSize
    ensures ValidateFile(file).error ==
      Some(UploadError(Format, "Unsupported format: " + "TIFF", FormatDetails))
  {
    TiffNotAllowed(file);
    FormatRuleWithinLimit(file);
  }

  /** An 11 MiB file reports "File too large (11.0 MB)". */
  lemma ElevenMegabyteMessage(file: File)
    requires file.size == 11 * 1024 * 1024
    ensures ValidateFile(file).error.value.message == "File too large (" + "11" + "." + "0" + " MB)"
  {
    assert SizeTenths(file.size) == 110;
    assert NatToString(11) == "11";
    assert NatToString(0) == "0";
  }

  // ---------------------------------------------------------------------
  // segmentImage: the query string
  // ---------------------------------------------------------------------

  /** The `options` argument; `segmentImage(file)` passes neither flag. */
  datatype Options = Options(overlay: bool, returnOriginal: bool)

  const NoOptions: Options := Options(false, false)

  datatype Param = Param(name: string, value: string)

  predicate HasName(ps: seq<Param>, name: string) {
    exists i :: 0 <= i < |ps| && ps[i].name == name
  }

  function WithoutName(ps: seq<Param>, name: string): (r: seq<Param>)
    ensures !HasName(r, name)
    ensures forall p :: p in r <==> p in ps && p.name != name
    ensures !HasName(ps, name) ==> r == ps
  {
    if ps == [] then []
    else if ps[0].name == name then WithoutName(ps[1..], name)
    else
      assert !HasName(ps, name) ==> !HasName(ps[1..], name) by {
        if HasName(ps[1..], name) {
          var i :| 0 <= i < |ps[1..]| && ps[1..][i].name == name;
          assert ps[i + 1].name == name;
        }
      }
      [ps[0]] + WithoutName(ps[1..], name)
  }

  /**
   * Removing a name works pair by pair: the survivors keep their order and
   * their repetitions.
   */
  lemma {:induction false} WithoutNameAppend(a: seq<Param>, b: seq<Param>, name: string)
    ensures WithoutName(a + b, name) == WithoutName(a, name) + WithoutName(b, name)
  {
    if a == [] {
      assert a + b == b;
    } else {
      var ab := a + b;
      assert ab[0] == a[0] && ab[1..] == a[1..] + b;
      if a[0].name == name {
        calc {
          WithoutName(ab, name);
          WithoutName(a[1..] + b, name);
          { WithoutNameAppend(a[1..], b, name); }
          WithoutName(a[1..], name) + WithoutName(b, name);
        }
      } else {
        calc {
          WithoutName(ab, name);
          [a[0]] + WithoutName(a[1..] + b, name);
          { WithoutNameAppend(a[1..], b, name); }
          [a[0]] + (WithoutName(a[1..], name) + WithoutName(b, name));
          ([a[0]] + WithoutName(a[1..], name)) + WithoutName(b, name);
        }
      }
    }
  }

  /** The position of the first pair with this name. */
  function FirstNamed(ps: seq<Param>, name: string): (i: nat)
    requires HasName(ps, name)
    ensures i < |ps| && ps[i].name == name && !HasName(ps[..i], name)
  {
    if ps[0].name == name then 0
    else
      assert HasName(ps[1..], name) by {
        var k :| 0 <= k < |ps| && ps[k].name == name;
        assert ps[1..][k - 1].name == name;
      }
      var j := FirstNamed(ps[1..], name);
      assert ps[..j + 1] == [ps[0]] + ps[1..][..j];
      j + 1
  }

  /**
   * `URLSearchParams.set`: the first pair with this name takes the new value
   * and the others with this name go; with none, the pair is appended.
   */
  function SetParam(ps: seq<Param>, name: string, value: string): (r: seq<Param>)
    ensures !HasName(ps, name) ==> r == ps + [Param(name, value)]
    ensures Param(name, value) in r
    ensures forall p :: p in r && p.name == name ==> p.value == value
    ensures forall p :: p in ps && p.name != name ==> p in r
  {
    if ps == [] then [Param(name, value)]
    else if ps[0].name == name then [Param(name, value)] + WithoutName(ps[1..], name)
    else
      assert HasName(ps, name) ==> HasName(ps[1..], name) by {
        if HasName(ps, name) {
          var i :| 0 <= i < |ps| && ps[i].name == name;
          assert ps[1..][i - 1].name == name;
        }
      }
      [ps[0]] + SetParam(ps[1..], name, value)
  }

  /**
   * With the name present, `set` keeps every pair before its first
   * occurrence, puts the new pair in that place, and keeps what follows
   * minus the other pairs of that name.
   */
  lemma {:induction false} SetParamAt(ps: seq<Param>, name: string, value: string)
    requires HasName(ps, name)
    ensures var i := FirstNamed(ps, name);
      SetParam(ps, name, value) == ps[..i] + [Param(name, value)] + WithoutName(ps[i + 1..], name)
  {
    var p := Param(name, value);
    if ps[0].name == name {
      assert FirstNamed(ps, name) == 0;
      assert ps[..0] + [p] == [p];
    } else {
      var tail := ps[1..];
      assert HasName(tail, name) by {
        var k :| 0 <= k < |ps| && ps[k].name == name;
        assert tail[k - 1].name == name;
      }
      var j := FirstNamed(tail, name);
      assert FirstNamed(ps, name) == j + 1;
      SetParamAt(tail, name, value);
      assert SetParam(ps, name, value) == [ps[0]] + SetParam(tail, name, value);
      ConsAroundSplit(ps, j, p, WithoutName(tail[j + 1..], name));
    }
  }

  /** Putting back the head of a sequence in front of a split of its tail. */
  lemma ConsAroundSplit<T>(s: seq<T>, j: nat, x: T, w: seq<T>)
    requires j + 1 < |s|
    ensures [s[0]] + (s[1..][..j] + [x] + w) == s[..j + 1] + [x] + w
    ensures s[j + 2..] == s[1..][j + 1..]
  {
    assert s[..j + 1] == [s[0]] + s[1..][..j];
  }

  /** The parameters `segmentImage` sends, in order. */
  function QueryParams(options: Options): (ps: seq<Param>)
    ensures |ps| >= 1 && ps[0] == Param("mask_format", "png")
    ensures Param("overlay", "true") in ps <==> options.overlay
    ensures Param("return_original", "true") in ps <==> options.returnOriginal
    ensures forall i, j :: 0 <= i < j < |ps| ==> ps[i].name != ps[j].name
  {
    [Param("mask_format", "png")]
    + (if options.overlay then [Param("overlay", "true")] else [])
    + (if options.returnOriginal then [Param("return_original", "true")] else [])
  }

  /** Lines 10-13: the parameters are built by successive `set` calls. */
  method BuildQuery(options: Options) returns (params: seq<Param>)
    ensures params == QueryParams(options)
  {
    params := [];
    params := SetParam(params, "mask_format", "png");
    if options.overlay {
      params := SetParam(params, "overlay", "true");
    }
    if options.returnOriginal {
      assert !HasName(params, "return_original");
      params := SetParam(params, "return_original", "true");
    }
  }

  /**
   * `URLSearchParams.toString()`: pairs joined by `&`. Every name and value
   * this client sets is made of letters, digits and `_`, which the
   * form-urlencoded serializer leaves as they are.
   */
  function Serialize(ps: seq<Param>): (s: string)
    ensures s == [] <==> ps == []
  {
    if ps == [] then ""
    else if |ps| == 1 then ps[0].name + "=" + ps[0].value
    else ps[0].name + "=" + ps[0].value + "&" + Serialize(ps[1..])
  }

  /** The text starts with the first pair, and a `&` follows it exactly when more pairs do. */
  lemma SerializeHead(ps: seq<Param>)
    requires ps != []
    ensures var s, k := Serialize(ps), |ps[0].name| + 1 + |ps[0].value|;
      |s| >= k && s[..k] == ps[0].name + "=" + ps[0].value
      && (|ps| == 1 ==> |s| == k) && (|ps| > 1 ==> |s| > k && s[k] == '&')
  {
    if |ps| > 1 {
      var head := ps[0].name + "=" + ps[0].value;
      assert Serialize(ps) == head + "&" + Serialize(ps[1..]);
      assert (head + "&" + Serialize(ps[1..]))[..|head|] == head;
    }
  }

  /** The query string always leads with the mask format; a `&` follows only when a flag is set. */
  function QueryString(options: Options): (q: string)
    ensures |q| >= 15 && q[..15] == "mask_format=png"
    ensures |q| == 15 <==> options == NoOptions
    ensures options != NoOptions ==> q[15] == '&'
  {
    assert "mask_format" + "=" + "png" == "mask_format=png";
    SerializeHead(QueryParams(options));
    Serialize(QueryParams(options))
  }

  datatype FormField = FormField(name: string, file: File)

  /** The POST that `segmentImage` issues: URL with the query, and a form holding only the image. */
  datatype Request = Request(method_: string, url: string, form: seq<FormField>)

  function SegmentRequest(file: File, options: Options): (r: Request)
    ensures r.method_ == "POST"
    ensures r.form == [FormField("image", file)]
  {
    Request("POST", "/api/segment?" + QueryString(options), [FormField("image", file)])
  }

  lemma SerializeCons(p: Param, rest: seq<Param>)
    ensures Serialize([p] + rest) ==
      p.name + "=" + p.value + (if rest == [] then "" else "&" + Serialize(rest))
  {
    assert ([p] + rest)[1..] == rest;
  }

  /** The query string for every combination of options: flags appear in order, only when set. */
  lemma QueryStringShape(options: Options)
    ensures QueryString(options) ==
      "mask_format=png"
      + (if options.overlay then "&overlay=true" else "")
      + (if options.returnOriginal then "&return_original=true" else "")
  {
    var a := Param("mask_format", "png");
    var tail := (if options.overlay then [OverlayPair] else []) + (if options.returnOriginal then [OriginalPair] else []);
    assert QueryParams(options) == [a] + tail;
    SerializeCons(a, tail);
    assert "mask_format" + "=" + "png" == "mask_format=png";
    if options.overlay && options.returnOriginal {
      BothFlagsText();
    } else if options.overlay {
      assert tail == [OverlayPair];
      OverlayFlagText();
    } else if options.returnOriginal {
      assert tail == [OriginalPair];
      OriginalFlagText();
    }
  }

  const OverlayPair: Param := Param("overlay", "true")
  const OriginalPair: Param := Param("return_original", "true")

  lemma OverlayFlagText()
    ensures "&" + Serialize([OverlayPair]) == "&overlay=true"
  {
    assert "&" + ("overlay" + "=" + "true") == "&overlay=true";
  }

  lemma OriginalFlagText()
    ensures "&" + Serialize([OriginalPair]) == "&return_original=true"
  {
    assert "&" + ("return_original" + "=" + "true") == "&return_original=true";
  }

  lemma BothFlagsText()
    ensures "&" + Serialize([OverlayPair, OriginalPair]) == "&overlay=true" + "&return_original=true"
  {
    SerializeCons(OverlayPair, [OriginalPair]);
    assert [OverlayPair] + [OriginalPair] == [OverlayPair, OriginalPair];
    OverlayFlagText();
    OriginalFlagText();
  }

  /** `segmentImage(file)` posts to `/api/segment?mask_format=png`. */
  lemma DefaultRequestUrl(file: File)
    ensures SegmentRequest(file, NoOptions).url == "/api/segment?mask_format=png"
  {
    QueryStringShape(NoOptions);
  }

  // ---------------------------------------------------------------------
  // segmentImage: the response
  // ---------------------------------------------------------------------

  /** The JSON envelope; an optional field is `None` when the server omits it. */
  datatype Envelope = Envelope(
    success: bool, mask: string, overlay: Option<string>, original: Option<string>,
    width: int, height: int, classes: seq<string>)

  /** The record `segmentImage` resolves with. */
  datatype Segmentation = Segmentation(
    success: bool, mask: string, overlay: Option<string>, original: Option<string>,
    width: int, height: int, classes: seq<string>, imageName: string)

  datatype Reply = Reply(status: nat, body: Envelope)

  /** A value thrown by the fetch or raised by `segmentImage`. */
  datatype Thrown = ErrorObject(message: string) | NonError

  /** What the fetch produced: a reply, or a rejection before any reply. */
  datatype Transport = Replied(reply: Reply) | TransportFailed(reason: Thrown)

  /** A settled promise. */
  datatype Settled = Fulfilled(value: Segmentation) | Rejected(reason: Thrown)

  const PngDataPrefix: string := "data:image/png;base64,"

  /** JavaScript truthiness of an optional string field. */
  predicate Truthy(field: Option<string>) {
    field.Some? && field.value != ""
  }

  /** `data.overlay ? prefix + data.overlay : undefined` */
  function PrefixIfPresent(field: Option<string>): Option<string> {
    if Truthy(field) then Some(PngDataPrefix + field.value) else None
  }

  /** The payload of a PNG data URL, if the URL is one. */
  function Payload(url: string): Option<string> {
    if |url| >= |PngDataPrefix| && url[..|PngDataPrefix|] == PngDataPrefix
    then Some(url[|PngDataPrefix|..]) else None
  }

  /** Lines 26-35: the envelope turned into the result record. */
  function Normalise(file: File, data: Envelope): (r: Segmentation)
    ensures r.imageName == file.name
    ensures r.success == data.success && r.width == data.width && r.height == data.height
    ensures r.classes == data.classes
    ensures r.overlay.Some? <==> Truthy(data.overlay)
    ensures r.original.Some? <==> Truthy(data.original)
  {
    Segmentation(data.success, PngDataPrefix + data.mask, PrefixIfPresent(data.overlay),
      PrefixIfPresent(data.original), data.width, data.height, data.classes, file.name)
  }

  /** The images of the record are data URLs that carry exactly the server's payloads. */
  lemma NormalisePayloads(file: File, data: Envelope)
    ensures Payload(Normalise(file, data).mask) == Some(data.mask)
    ensures Truthy(data.overlay) ==> Payload(Normalise(file, data).overlay.value) == data.overlay
    ensures Truthy(data.original) ==> Payload(Normalise(file, data).original.value) == data.original
  {
    var r := Normalise(file, data);
    assert (PngDataPrefix + data.mask)[..|PngDataPrefix|] == PngDataPrefix;
    if Truthy(data.overlay) {
      assert (PngDataPrefix + data.overlay.value)[..|PngDataPrefix|] == PngDataPrefix;
    }
    if Truthy(data.original) {
      assert (PngDataPrefix + data.original.value)[..|PngDataPrefix|] == PngDataPrefix;
    }
  }

  /** `response.ok`: a status in the range 200-299. */
  predicate StatusOk(status: nat) {
    200 <= status <= 299
  }

  /** What the promise returned by `segmentImage` settles to. */
  function SegmentImage(file: File, transport: Transport): (s: Settled)
    ensures s.Fulfilled? <==> transport.Replied? && StatusOk(transport.reply.status)
    ensures s.Fulfilled? ==> s.value == Normalise(file, transport.reply.body)
    ensures transport.TransportFailed? ==> s == Rejected(transport.reason)
    ensures transport.Replied? && !StatusOk(transport.reply.status) ==>
      s == Rejected(ErrorObject("Server error: " + NatToString(transport.reply.status)))
  {
    match transport
    case TransportFailed(reason) => Rejected(reason)
    case Replied(reply) =>
      if !StatusOk(reply.status) then Rejected(ErrorObject("Server error: " + NatToString(reply.status)))
      else Fulfilled(Normalise(file, reply.body))
  }

  /** The status can be read back from the error message. */
  lemma ServerErrorNamesStatus(file: File, reply: Reply)
    requires !StatusOk(reply.status)
    ensures var s := SegmentImage(file, Replied(reply));
      s.Rejected? && s.reason.ErrorObject? &&
      |s.reason.message| > 14 && s.reason.message[..14] == "Server error: " &&
      IsDigits(s.reason.message[14..]) && DigitsValue(s.reason.message[14..]) == reply.status
  {
    var m := "Server error: " + NatToString(reply.status);
    assert m[14..] == NatToString(reply.status);
    assert m[..14] == "Server error: ";
    NatToStringRoundTrip(reply.status);
  }

  lemma ServerErrorExample(file: File, reply: Reply)
    requires reply.status == 500
    ensures SegmentImage(file, Replied(reply)) == Rejected(ErrorObject("Server error: 500"))
  {
    assert NatToString(500) == "500";
    assert "Server error: " + "500" == "Server error: 500";
  }
}
