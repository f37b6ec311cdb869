/**
  The request handler of BarcodeGeneratorController: GET {barcodeFormat}/{content} with the optional
  query parameters width, height, imageFormat and outputOption.

  `Decide` is the pure decision the handler takes: reject with a fixed message, or accept with the
  encoder options, the resolved codec and format spelling, and the delivery target. `Get` runs that
  decision against the collaborators the handler calls (the ZXing writer, the in-memory codec and
  the file write), which are parameters here, as are the GUID and the configured output directory.
*/
module BarcodeGeneratorController {
  import opened Wrappers
  import opened Text

  // ---------------------------------------------------------------- constants of the controller

  const OK: int := 200
  const PartialContent: int := 206

  /** The `types` constant shown after an unrecognised symbology: a line break before each listed name. */
  const Types: string := "\n        PDF_417,\n        QR_CODE"
  const InvalidFormatMessage: string := "BarcodeFormat invalid type. Check out the valid types:" + Types
  const MissingContentMessage: string := "Missing Parameter message Content."

  // ---------------------------------------------------------------- data model

  /** The controller's private OutputOption enum, in declaration order. */
  datatype OutputOption = Image | FileSystem
  const OutputOptionNames: seq<string> := ["image", "fileSystem"]
  const OutputOptions: seq<OutputOption> := [Image, FileSystem]

  /**
    The three System.Drawing codecs the controller can choose. The controller's private
    ImageExtension enum has members of the same names and maps each to the same-named codec.
  */
  datatype ImageFormat = Png | Jpeg | Bmp
  const ImageExtensionNames: seq<string> := ["Png", "Jpeg", "Bmp"]
  const ImageFormats: seq<ImageFormat> := [Png, Jpeg, Bmp]

  /** The route and query values as bound by the framework; `None` is a null string. */
  datatype RawRequest = RawRequest(
    barcodeFormat: Option<string>,
    content: Option<string>,
    width: int,
    height: int,
    imageFormat: Option<string>,
    outputOption: Option<string>)

  /** ZXing's EncodingOptions as the handler fills them in. */
  datatype EncodingOptions = EncodingOptions(width: int, height: int, margin: int, pureBarcode: bool)

  /** Where an accepted request's image goes: the response body, or a file named in the confirmation. */
  datatype Delivery = InlineImage(contentType: string) | SavedFile(fileName: string)

  datatype Decision =
    | Rejected(message: string)
    | Accepted(format: string, content: string, options: EncodingOptions,
               codec: ImageFormat, imageFormat: string, delivery: Delivery)

  datatype Content = StringContent(text: string) | ByteArrayContent(bytes: seq<bv8>, contentType: string)

  datatype Response = Response(status: int, content: Content)

  /** What the handler does: return a response, or let an exception from a collaborator escape. */
  datatype Fault = WriterFailed | SaveFailed
  datatype Outcome = Returned(response: Response) | Raised(fault: Fault)

  // ---------------------------------------------------------------- enum parsing

  /** The first of `names` that equals `s` ignoring case. */
  function FindName(names: seq<string>, s: string): (r: Option<nat>)
    ensures r.Some? ==> r.value < |names| && EqualsIgnoreCase(names[r.value], s)
    ensures r.Some? ==> forall j :: 0 <= j < r.value ==> !EqualsIgnoreCase(names[j], s)
    ensures r.None? <==> forall j :: 0 <= j < |names| ==> !EqualsIgnoreCase(names[j], s)
  {
    if names == [] then None
    else if EqualsIgnoreCase(names[0], s) then Some(0)
    else match FindName(names[1..], s)
      case None => None
      case Some(i) => Some(i + 1)
  }

  /** Enum.TryParse with ignoreCase set, as a lookup of the member names: the index of the member parsed. */
  function TryParseName(names: seq<string>, s: Option<string>): (r: Option<nat>)
    ensures r.Some? <==> s.Some? && exists j :: 0 <= j < |names| && EqualsIgnoreCase(names[j], s.value)
    ensures r.Some? ==> r.value < |names| && EqualsIgnoreCase(names[r.value], s.value)
  {
    if s.None? then None else FindName(names, s.value)
  }

  /**
    The symbology parsed from the route; `formats` lists the names of ZXing's BarcodeFormat enum in
    declaration order. The result is the member name, spelled as declared.
  */
  function ParseBarcodeFormat(formats: seq<string>, s: Option<string>): (r: Option<string>)
    ensures r.Some? <==> s.Some? && exists j :: 0 <= j < |formats| && EqualsIgnoreCase(formats[j], s.value)
    ensures r.Some? ==> r.value in formats && EqualsIgnoreCase(r.value, s.value)
  {
    match TryParseName(formats, s)
    case None => None
    case Some(i) => Some(formats[i])
  }

  /** Every spelling of a declared symbology name that differs only in letter case parses. */
  lemma AnySpellingOfFormatParses(formats: seq<string>, name: string, s: string)
    requires name in formats && EqualsIgnoreCase(name, s)
    ensures ParseBarcodeFormat(formats, Some(s)).Some?
    ensures ParseBarcodeFormat(formats, Some(ToUpper(s))).Some?
    ensures ParseBarcodeFormat(formats, Some(ToLower(s))).Some?
  {
  }

  /** The output option: one of the OutputOption names in any case, otherwise `image`. */
  function ResolveOutputOption(s: Option<string>): (r: OutputOption)
    ensures r == FileSystem <==> s.Some? && EqualsIgnoreCase("fileSystem", s.value)
    ensures r == Image <==> s.None? || !EqualsIgnoreCase("fileSystem", s.value)
  {
    assert OutputOptionNames[1] == "fileSystem";
    match TryParseName(OutputOptionNames, s)
    case Some(i) => OutputOptions[i]
    case None => Image
  }

  /** The controller's TryParseImageExtension: `Some(codec)` for true, `None` (a null codec) for false. */
  function TryParseImageExtension(s: Option<string>): (r: Option<ImageFormat>)
    ensures r == Some(Png) <==> s.Some? && EqualsIgnoreCase("Png", s.value)
    ensures r == Some(Jpeg) <==> s.Some? && EqualsIgnoreCase("Jpeg", s.value)
    ensures r == Some(Bmp) <==> s.Some? && EqualsIgnoreCase("Bmp", s.value)
  {
    assert ImageExtensionNames[1] == "Jpeg" && ImageExtensionNames[2] == "Bmp";
    PngIsNotBmp(s);
    match TryParseName(ImageExtensionNames, s)
    case Some(i) => Some(ImageFormats[i])
    case None => None
  }

  /** "Png" and "Bmp" have the same length, so only their first letter keeps them apart. */
  lemma PngIsNotBmp(s: Option<string>)
    ensures s.Some? ==> !(EqualsIgnoreCase("Png", s.value) && EqualsIgnoreCase("Bmp", s.value))
  {
    if s.Some? && EqualsIgnoreCase("Png", s.value) {
      assert UpperChar(s.value[0]) == 'P';
    }
  }

  /** One of the ImageExtension member names, in any letter case. */
  predicate IsImageExtensionName(s: string)
  {
    EqualsIgnoreCase("Png", s) || EqualsIgnoreCase("Jpeg", s) || EqualsIgnoreCase("Bmp", s)
  }

  /**
    The codec and the format spelling used afterwards: a recognised name keeps the caller's
    spelling, anything else (null included) becomes the Png codec spelled "png"; never a rejection.
  */
  function ResolveImageFormat(s: Option<string>): (r: (ImageFormat, string))
    ensures s.Some? && IsImageExtensionName(s.value) ==> TryParseImageExtension(s) == Some(r.0) && r.1 == s.value
    ensures !(s.Some? && IsImageExtensionName(s.value)) ==> r == (Png, "png")
  {
    match TryParseImageExtension(s)
    case Some(codec) => (codec, s.value)
    case None => (Png, "png")
  }

  // ---------------------------------------------------------------- responses

  /** string.Format prints a null argument as the empty string. */
  function Formatted(s: Option<string>): string
  {
    if s.None? then "" else s.value
  }

  /** The content type of an inline image: "image/" followed by the format spelling. */
  function MediaType(imageFormat: string): (r: string)
    ensures |r| == 6 + |imageFormat| && r[..6] == "image/" && r[6..] == imageFormat
  {
    "image/" + imageFormat
  }

  /** The file written in file-system mode: directory, backslash, GUID, dot, format spelling. */
  function FileName(fileSystemPath: Option<string>, guid: string, imageFormat: string): (r: string)
    ensures |r| == |Formatted(fileSystemPath)| + |guid| + |imageFormat| + 2
    ensures r[..|Formatted(fileSystemPath)|] == Formatted(fileSystemPath) && r[|Formatted(fileSystemPath)|] == '\\'
    ensures r[|Formatted(fileSystemPath)| + 1..|Formatted(fileSystemPath)| + 1 + |guid|] == guid
    ensures r[|r| - |imageFormat| - 1..] == "." + imageFormat
  {
    Formatted(fileSystemPath) + "\\" + guid + "." + imageFormat
  }

  /** The confirmation returned after the file was written. */
  function SavedMessage(fileName: string): string
  {
    "Image " + fileName + " generated successful."
  }

  /** Guid.ToString(): 32 lower-case hexadecimal digits in groups of 8, 4, 4, 4 and 12. */
  predicate IsGuidText(g: string)
  {
    && |g| == 36
    && forall i :: 0 <= i < 36 ==>
         if i == 8 || i == 13 || i == 18 || i == 23 then g[i] == '-'
         else '0' <= g[i] <= '9' || 'a' <= g[i] <= 'f'
  }

  /** Two writes with different GUIDs never target the same file, whatever the formats. */
  lemma DistinctGuidsDistinctFiles(path: Option<string>, g1: string, g2: string, f1: string, f2: string)
    requires IsGuidText(g1) && IsGuidText(g2) && g1 != g2
    ensures FileName(path, g1, f1) != FileName(path, g2, f2)
  {
  }

  // ---------------------------------------------------------------- the handler

  /**
    The decision of Get(barcodeFormat, content, width, height, imageFormat, outputOption):
    both optional names are defaulted first, then the symbology is checked, then the content.
  */
  function Decide(req: RawRequest, formats: seq<string>, fileSystemPath: Option<string>, guid: string): (d: Decision)
    ensures d.Accepted? ==> d.format in formats && !IsNullOrWhiteSpace(Some(d.content))
  {
    var mode := ResolveOutputOption(req.outputOption);
    var (codec, imageFormat) := ResolveImageFormat(req.imageFormat);
    match ParseBarcodeFormat(formats, req.barcodeFormat)
    case None => Rejected(InvalidFormatMessage)
    case Some(format) =>
      if IsNullOrWhiteSpace(req.content) then Rejected(MissingContentMessage)
      else
        var delivery := match mode
          case Image => InlineImage(MediaType(imageFormat))
          case FileSystem => SavedFile(FileName(fileSystemPath, guid, imageFormat));
        Accepted(format, req.content.value, EncodingOptions(req.width, req.height, 0, true),
                 codec, imageFormat, delivery)
  }

  /**
    The whole handler. `write` is BarcodeWriter.Write (None: it threw), `serialize` is Image.Save
    to a memory stream with a codec, `saveFile` is Image.Save to a path (false: it threw).
  */
  function Get<Img>(req: RawRequest, formats: seq<string>, fileSystemPath: Option<string>, guid: string,
                    write: (string, string, EncodingOptions) -> Option<Img>,
                    serialize: (Img, ImageFormat) -> seq<bv8>,
                    saveFile: (Img, string) -> bool): (o: Outcome)
    ensures o.Returned? && o.response.status == PartialContent <==> Decide(req, formats, fileSystemPath, guid).Rejected?
  {
    match Decide(req, formats, fileSystemPath, guid)
    case Rejected(message) => Returned(Response(PartialContent, StringContent(message)))
    case Accepted(format, content, options, codec, imageFormat, delivery) =>
      match write(format, content, options)
      case None => Raised(WriterFailed)
      case Some(img) =>
        var bytes := serialize(img, codec);
        match delivery
        case InlineImage(contentType) => Returned(Response(OK, ByteArrayContent(bytes, contentType)))
        case SavedFile(fileName) =>
          if saveFile(img, fileName) then Returned(Response(OK, StringContent(SavedMessage(fileName))))
          else Raised(SaveFailed)
  }

  // ---------------------------------------------------------------- properties of the handler

  /**
    An unrecognised symbology is answered with 206 and the list of valid types, whatever the
    content and the optional parameters are, and nothing else produces that answer.
  */
  lemma UnrecognisedFormatReportedFirst<Img>(
    req: RawRequest, formats: seq<string>, path: Option<string>, guid: string,
    write: (string, string, EncodingOptions) -> Option<Img>,
    serialize: (Img, ImageFormat) -> seq<bv8>, saveFile: (Img, string) -> bool)
    ensures ParseBarcodeFormat(formats, req.barcodeFormat).None? <==>
            Get(req, formats, path, guid, write, serialize, saveFile)
              == Returned(Response(PartialContent, StringContent(InvalidFormatMessage)))
  {
  }

  /**
    With a recognised symbology, null, empty or white-space content is answered with 206 and the
    missing-content message, and nothing else produces that answer.
  */
  lemma MissingContentReported<Img>(
    req: RawRequest, formats: seq<string>, path: Option<string>, guid: string,
    write: (string, string, EncodingOptions) -> Option<Img>,
    serialize: (Img, ImageFormat) -> seq<bv8>, saveFile: (Img, string) -> bool)
    ensures ParseBarcodeFormat(formats, req.barcodeFormat).Some? && IsNullOrWhiteSpace(req.content) <==>
            Get(req, formats, path, guid, write, serialize, saveFile)
              == Returned(Response(PartialContent, StringContent(MissingContentMessage)))
  {
  }

  /**
    Only the symbology and the content can cause a rejection: defaulting the image format and the
    output option never does, and width and height are not checked.
  */
  lemma RejectionDependsOnFormatAndContent(req: RawRequest, formats: seq<string>, path: Option<string>, guid: string)
    ensures Decide(req, formats, path, guid).Rejected? <==>
            ParseBarcodeFormat(formats, req.barcodeFormat).None? || IsNullOrWhiteSpace(req.content)
  {
  }

  /** A rejected request calls no collaborator and uses neither the GUID nor the configured path. */
  lemma RejectionCallsNoCollaborator<Img>(
    req: RawRequest, formats: seq<string>,
    path1: Option<string>, guid1: string, write1: (string, string, EncodingOptions) -> Option<Img>,
    serialize1: (Img, ImageFormat) -> seq<bv8>, saveFile1: (Img, string) -> bool,
    path2: Option<string>, guid2: string, write2: (string, string, EncodingOptions) -> Option<Img>,
    serialize2: (Img, ImageFormat) -> seq<bv8>, saveFile2: (Img, string) -> bool)
    requires Decide(req, formats, path1, guid1).Rejected?
    ensures Get(req, formats, path1, guid1, write1, serialize1, saveFile1)
            == Get(req, formats, path2, guid2, write2, serialize2, saveFile2)
  {
  }

  /**
    An accepted request hands the writer the parsed symbology, the content unchanged, and options
    with the requested width and height (unchecked, negatives included), margin 0 and a pure barcode.
  */
  lemma AcceptedEncoderOptions(req: RawRequest, formats: seq<string>, path: Option<string>, guid: string)
    requires Decide(req, formats, path, guid).Accepted?
    ensures Decide(req, formats, path, guid).format == ParseBarcodeFormat(formats, req.barcodeFormat).value
    ensures Decide(req, formats, path, guid).content == req.content.value
    ensures Decide(req, formats, path, guid).options == EncodingOptions(req.width, req.height, 0, true)
  {
  }

  /**
    The writer is consulted at one point only: two writers that agree on the parsed symbology, the
    content and the fixed options give the same outcome.
  */
  lemma WriterSeesParsedRequestOnly<Img>(
    req: RawRequest, formats: seq<string>, path: Option<string>, guid: string,
    write1: (string, string, EncodingOptions) -> Option<Img>, write2: (string, string, EncodingOptions) -> Option<Img>,
    serialize: (Img, ImageFormat) -> seq<bv8>, saveFile: (Img, string) -> bool)
    requires ParseBarcodeFormat(formats, req.barcodeFormat).Some? && !IsNullOrWhiteSpace(req.content)
    requires write1(ParseBarcodeFormat(formats, req.barcodeFormat).value, req.content.value,
                    EncodingOptions(req.width, req.height, 0, true))
          == write2(ParseBarcodeFormat(formats, req.barcodeFormat).value, req.content.value,
                    EncodingOptions(req.width, req.height, 0, true))
    ensures Get(req, formats, path, guid, write1, serialize, saveFile)
            == Get(req, formats, path, guid, write2, serialize, saveFile)
  {
  }

  /** An exception from the writer escapes the handler; it is never turned into a response. */
  lemma WriterFailurePropagates<Img>(
    req: RawRequest, formats: seq<string>, path: Option<string>, guid: string,
    write: (string, string, EncodingOptions) -> Option<Img>,
    serialize: (Img, ImageFormat) -> seq<bv8>, saveFile: (Img, string) -> bool)
    requires ParseBarcodeFormat(formats, req.barcodeFormat).Some? && !IsNullOrWhiteSpace(req.content)
    requires write(ParseBarcodeFormat(formats, req.barcodeFormat).value, req.content.value,
                   EncodingOptions(req.width, req.height, 0, true)).None?
    ensures Get(req, formats, path, guid, write, serialize, saveFile) == Raised(WriterFailed)
  {
  }

  /**
    Inline delivery (an output option other than fileSystem): 200, the bytes of the resolved codec,
    and the content type "image/" followed by the format spelling after defaulting.
  */
  lemma InlineImageResponse<Img>(
    req: RawRequest, formats: seq<string>, path: Option<string>, guid: string,
    write: (string, string, EncodingOptions) -> Option<Img>,
    serialize: (Img, ImageFormat) -> seq<bv8>, saveFile: (Img, string) -> bool, img: Img)
    requires ParseBarcodeFormat(formats, req.barcodeFormat).Some? && !IsNullOrWhiteSpace(req.content)
    requires ResolveOutputOption(req.outputOption) == Image
    requires write(ParseBarcodeFormat(formats, req.barcodeFormat).value, req.content.value,
                   EncodingOptions(req.width, req.height, 0, true)) == Some(img)
    ensures Get(req, formats, path, guid, write, serialize, saveFile)
            == Returned(Response(OK, ByteArrayContent(serialize(img, ResolveImageFormat(req.imageFormat).0),
                                                      "image/" + ResolveImageFormat(req.imageFormat).1)))
  {
  }

  /**
    File-system delivery: the image goes to directory\GUID.format; a successful write answers 200
    with a confirmation naming that file, a failed write escapes and never reports success.
  */
  lemma SavedFileResponse<Img>(
    req: RawRequest, formats: seq<string>, path: Option<string>, guid: string,
    write: (string, string, EncodingOptions) -> Option<Img>,
    serialize: (Img, ImageFormat) -> seq<bv8>, saveFile: (Img, string) -> bool, img: Img)
    requires ParseBarcodeFormat(formats, req.barcodeFormat).Some? && !IsNullOrWhiteSpace(req.content)
    requires ResolveOutputOption(req.outputOption) == FileSystem
    requires write(ParseBarcodeFormat(formats, req.barcodeFormat).value, req.content.value,
                   EncodingOptions(req.width, req.height, 0, true)) == Some(img)
    ensures var fileName := Formatted(path) + "\\" + guid + "." + ResolveImageFormat(req.imageFormat).1;
            Get(req, formats, path, guid, write, serialize, saveFile)
            == if saveFile(img, fileName)
               then Returned(Response(OK, StringContent("Image " + fileName + " generated successful.")))
               else Raised(SaveFailed)
  {
  }

  /**
    In file-system mode the codec chosen by the image format only names the file: what is written is
    decided by the image and the path, so the in-memory encoding does not affect the outcome.
  */
  lemma SavedFileIgnoresCodec<Img>(
    req: RawRequest, formats: seq<string>, path: Option<string>, guid: string,
    write: (string, string, EncodingOptions) -> Option<Img>,
    serialize1: (Img, ImageFormat) -> seq<bv8>, serialize2: (Img, ImageFormat) -> seq<bv8>,
    saveFile: (Img, string) -> bool)
    requires ResolveOutputOption(req.outputOption) == FileSystem
    ensures Get(req, formats, path, guid, write, serialize1, saveFile)
            == Get(req, formats, path, guid, write, serialize2, saveFile)
  {
  }

  // ---------------------------------------------------------------- example requests

  /** GET PDF_417/Hello World: 200 with the PNG bytes and content type image/png. */
  lemma PdfHelloWorldIsInlinePng<Img>(
    formats: seq<string>, path: Option<string>, guid: string,
    write: (string, string, EncodingOptions) -> Option<Img>,
    serialize: (Img, ImageFormat) -> seq<bv8>, saveFile: (Img, string) -> bool, img: Img)
    requires "PDF_417" in formats
    requires forall j :: 0 <= j < |formats| && EqualsIgnoreCase(formats[j], "PDF_417") ==> formats[j] == "PDF_417"
    requires write("PDF_417", "Hello World", EncodingOptions(0, 0, 0, true)) == Some(img)
    ensures Get(RawRequest(Some("PDF_417"), Some("Hello World"), 0, 0, Some("png"), Some("image")),
                formats, path, guid, write, serialize, saveFile)
            == Returned(Response(OK, ByteArrayContent(serialize(img, Png), "image/png")))
  {
    var req := RawRequest(Some("PDF_417"), Some("Hello World"), 0, 0, Some("png"), Some("image"));
    var j :| 0 <= j < |formats| && formats[j] == "PDF_417";
    EqualsIgnoreCaseIsEquivalence("PDF_417", "PDF_417", "PDF_417");
    assert ParseBarcodeFormat(formats, req.barcodeFormat).Some?;
    var parsed := ParseBarcodeFormat(formats, req.barcodeFormat).value;
    assert parsed in formats;
    EqualsIgnoreCaseIsEquivalence(parsed, "PDF_417", "PDF_417");
    assert parsed == "PDF_417";
    assert !IsNullOrWhiteSpace(req.content) by { assert req.content.value[0] == 'H'; }
    assert EqualsIgnoreCase("Png", "png");
    assert TryParseImageExtension(req.imageFormat) == Some(Png);
    assert ResolveImageFormat(req.imageFormat) == (Png, "png");
    assert ResolveOutputOption(req.outputOption) == Image;
    assert "image/" + "png" == "image/png";
    InlineImageResponse(req, formats, path, guid, write, serialize, saveFile, img);
  }

  /** GET QR_CODE/test?outputOption=fileSystem&imageFormat=jpeg: the file name ends in ".jpeg". */
  lemma QrToFileIsJpeg<Img>(
    formats: seq<string>, path: Option<string>, guid: string,
    write: (string, string, EncodingOptions) -> Option<Img>,
    serialize: (Img, ImageFormat) -> seq<bv8>, saveFile: (Img, string) -> bool, img: Img)
    requires "QR_CODE" in formats
    requires forall j :: 0 <= j < |formats| && EqualsIgnoreCase(formats[j], "QR_CODE") ==> formats[j] == "QR_CODE"
    requires write("QR_CODE", "test", EncodingOptions(0, 0, 0, true)) == Some(img)
    requires saveFile(img, FileName(path, guid, "jpeg"))
    ensures Get(RawRequest(Some("QR_CODE"), Some("test"), 0, 0, Some("jpeg"), Some("fileSystem")),
                formats, path, guid, write, serialize, saveFile)
            == Returned(Response(OK, StringContent(SavedMessage(FileName(path, guid, "jpeg")))))
  {
    var req := RawRequest(Some("QR_CODE"), Some("test"), 0, 0, Some("jpeg"), Some("fileSystem"));
    var j :| 0 <= j < |formats| && formats[j] == "QR_CODE";
    EqualsIgnoreCaseIsEquivalence("QR_CODE", "QR_CODE", "QR_CODE");
    assert ParseBarcodeFormat(formats, req.barcodeFormat).Some?;
    var parsed := ParseBarcodeFormat(formats, req.barcodeFormat).value;
    assert parsed in formats;
    EqualsIgnoreCaseIsEquivalence(parsed, "QR_CODE", "QR_CODE");
    assert parsed == "QR_CODE";
    assert !IsNullOrWhiteSpace(req.content) by { assert req.content.value[0] == 't'; }
    assert IsImageExtensionName("jpeg");
    SavedFileResponse(req, formats, path, guid, write, serialize, saveFile, img);
  }
}
