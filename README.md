# Barcode generator controller, modelled in Dafny

The service answers two routes through `BarcodeGeneratorController`:

- `GET /` returns a plain-text usage guide whose example URLs start with the request's own URL.
- `GET /{barcodeFormat}/{content}?width=&height=&imageFormat=&outputOption=` turns untrusted strings into a barcode image. It delivers the image either inline or as a file written under a configured directory.

The handler works in a fixed order. It first defaults the output option: anything other than `image` or `fileSystem`, in any letter case, becomes `image`. It then defaults the image format: anything other than `Png`, `Jpeg` or `Bmp`, in any case, becomes the Png codec spelled `png`. Only then does it reject. An unknown symbology is rejected first; null, empty or white-space content second. Both rejections answer status 206 with a fixed message. An accepted request goes to the ZXing writer with the requested width and height, margin 0 and a pure barcode. The image is encoded with the resolved codec and then delivered:

- inline: status 200, content type `image/<format>`;
- file system: written to `<directory>\<guid>.<format>`, then status 200 with `Image <file> generated successful.`.

The model is made of pure functions, as the handler is a branch tree without loops:

- `wrappers.dfy` (`Wrappers`): `Option`. A .NET `null` string is `None`.
- `text.dfy` (`Text`): the .NET string behaviour the controller relies on. This covers case-insensitive name comparison, `Char.IsWhiteSpace` and `String.IsNullOrWhiteSpace`, with `Trim` as an independent reference. It also covers the text that `StringBuilder.AppendLine` builds, with line splitting as its inverse.
- `controller.dfy` (`BarcodeGeneratorController`): the enums and their parsing, and `TryParseImageExtension`. `Decide` is the pure decision: a rejection with its message, or an accepted request with its encoder options, codec, format spelling and delivery target. `Get` runs that decision against the collaborators.
- `usage.dfy` (`UsageText`): the usage guide of the parameterless `Get()`.

The collaborators are parameters of `Get`:
- `write` stands for `BarcodeWriter.Write`; `None` means it threw.
- `serialize` stands for `Image.Save` to a memory stream with a codec.
- `saveFile` stands for `Image.Save` to a path; `false` means it threw.
- The symbology names (the member names of ZXing's `BarcodeFormat`) are a parameter `formats`. The lookup returns the first name in the list that matches ignoring case. ZXing's names are distinct ignoring case, so the order of the list does not matter. The example lemmas state this distinctness as a hypothesis for the name they use.
- The configured directory (`None` when the setting is absent) and the GUID text are parameters too.

An exception that escapes the handler is the outcome `Raised`. It is never a response.

Details of the code that the model keeps:
- The two rejecting checks are ordered. The symbology is checked before the content, so a request with both faults reports only the symbology.
- Width and height are passed through unchecked, negatives included.
- The content type and the file extension keep the caller's spelling of a recognised format (`image/JPEG`). They are not lower-cased. Only the fallback is spelled `png`.
- The file name joins directory and GUID with a backslash. A missing directory setting formats as the empty string.
- The file write gets the image and the path only, not the resolved codec (`SavedFileIgnoresCodec`).

## Model

| member | source | states |
|---|---|---|
| `Text.EqualsIgnoreCaseIsUpperEquality` | BarCodeGenerator/Controllers/BarcodeGeneratorController.cs:102 | comparing names ignoring case is exactly comparing their upper-cased forms |
| `Text.EqualsIgnoreCaseIsEquivalence` | BarCodeGenerator/Controllers/BarcodeGeneratorController.cs:151 | comparison ignoring case is reflexive, symmetric and transitive |
| `Text.CaseChangesMatch` | BarCodeGenerator/Controllers/BarcodeGeneratorController.cs:90 | the all-upper and all-lower spellings of a name match the name |
| `Text.NullOrWhiteSpaceIsEmptyAfterTrim` | BarCodeGenerator/Controllers/BarcodeGeneratorController.cs:104 | a string is white space only exactly when trimming it leaves nothing |
| `Text.SplitJoined` | BarCodeGenerator/Controllers/BarcodeGeneratorController.cs:36-77 | splitting the text built by one AppendLine per line at its line breaks gives back the lines, if none holds a carriage return |
| `Text.JoinedAt` | BarCodeGenerator/Controllers/BarcodeGeneratorController.cs:36-77 | line k of the built text sits between the text of the lines before it and that of the lines after it, followed by a line break |
| `BarcodeGeneratorController.FindName` | BarCodeGenerator/Controllers/BarcodeGeneratorController.cs:151 | the result is the first member name that equals the input ignoring case; nothing is found exactly when no name matches |
| `BarcodeGeneratorController.TryParseName` | BarCodeGenerator/Controllers/BarcodeGeneratorController.cs:90 | parsing succeeds exactly when the input is non-null and matches some member name ignoring case, and then the index found matches |
| `BarcodeGeneratorController.ParseBarcodeFormat` | BarCodeGenerator/Controllers/BarcodeGeneratorController.cs:102 | a symbology parses exactly when it matches a declared name ignoring case, and the result is that declared name |
| `BarcodeGeneratorController.AnySpellingOfFormatParses` | BarCodeGenerator/Controllers/BarcodeGeneratorController.cs:102 | every letter-case variant of a declared symbology name is accepted, including the all-upper and all-lower spellings |
| `BarcodeGeneratorController.ResolveOutputOption` | BarCodeGenerator/Controllers/BarcodeGeneratorController.cs:90-93 | the mode is fileSystem exactly when the option equals "fileSystem" ignoring case; otherwise, null included, it is image |
| `BarcodeGeneratorController.TryParseImageExtension` | BarCodeGenerator/Controllers/BarcodeGeneratorController.cs:146-177 | the result is the Png, Jpeg or Bmp codec exactly when the name equals that member ignoring case, and null (false) otherwise |
| `BarcodeGeneratorController.ResolveImageFormat` | BarCodeGenerator/Controllers/BarcodeGeneratorController.cs:95-99 | a recognised name keeps its codec and the caller's spelling; any other name, null included, becomes Png spelled "png" |
| `BarcodeGeneratorController.MediaType` | BarCodeGenerator/Controllers/BarcodeGeneratorController.cs:15 | the content type is "image/" followed by exactly the format spelling |
| `BarcodeGeneratorController.FileName` | BarCodeGenerator/Controllers/BarcodeGeneratorController.cs:122 | the file name holds the GUID right after the directory and its separator, and ends with a dot and the format spelling |
| `BarcodeGeneratorController.DistinctGuidsDistinctFiles` | BarCodeGenerator/Controllers/BarcodeGeneratorController.cs:122 | writes with different GUIDs never target the same file, whatever the format spellings |
| `BarcodeGeneratorController.Decide` | BarCodeGenerator/Controllers/BarcodeGeneratorController.cs:83-143 | an accepted request always has a declared symbology and content that is not white space only |
| `BarcodeGeneratorController.Get` | BarCodeGenerator/Controllers/BarcodeGeneratorController.cs:83-143 | the handler answers 206 exactly when the decision is a rejection |
| `BarcodeGeneratorController.UnrecognisedFormatReportedFirst` | BarCodeGenerator/Controllers/BarcodeGeneratorController.cs:102-141 | an unknown symbology answers 206 with the valid-types message whatever the content, and no other request gets that answer |
| `BarcodeGeneratorController.MissingContentReported` | BarCodeGenerator/Controllers/BarcodeGeneratorController.cs:104-135 | with a known symbology, null, empty or white-space content answers 206 with "Missing Parameter message Content.", and no other request gets that answer |
| `BarcodeGeneratorController.RejectionDependsOnFormatAndContent` | BarCodeGenerator/Controllers/BarcodeGeneratorController.cs:90-104 | a request is rejected exactly when its symbology is unknown or its content is blank; defaulting and the size never reject |
| `BarcodeGeneratorController.RejectionCallsNoCollaborator` | BarCodeGenerator/Controllers/BarcodeGeneratorController.cs:131-141 | a rejected request gets the same answer whatever the writer, codec, file write, GUID and directory are |
| `BarcodeGeneratorController.AcceptedEncoderOptions` | BarCodeGenerator/Controllers/BarcodeGeneratorController.cs:106 | an accepted request carries the parsed symbology, the content unchanged, the width and height as given, margin 0 and a pure barcode |
| `BarcodeGeneratorController.WriterSeesParsedRequestOnly` | BarCodeGenerator/Controllers/BarcodeGeneratorController.cs:106-110 | the writer is consulted only on the parsed symbology, the content and those fixed options |
| `BarcodeGeneratorController.WriterFailurePropagates` | BarCodeGenerator/Controllers/BarcodeGeneratorController.cs:110 | an exception from the writer escapes the handler |
| `BarcodeGeneratorController.InlineImageResponse` | BarCodeGenerator/Controllers/BarcodeGeneratorController.cs:116-120 | inline mode answers 200 with the bytes of the resolved codec and content type "image/" plus the format spelling after defaulting |
| `BarcodeGeneratorController.SavedFileResponse` | BarCodeGenerator/Controllers/BarcodeGeneratorController.cs:121-127 | file mode writes to directory, backslash, GUID, dot, format; success answers 200 with the confirmation naming that file, and a failed write escapes |
| `BarcodeGeneratorController.SavedFileIgnoresCodec` | BarCodeGenerator/Controllers/BarcodeGeneratorController.cs:112-125 | in file mode the in-memory encoding does not affect the outcome |
| `BarcodeGeneratorController.PdfHelloWorldIsInlinePng` | BarCodeGenerator/Controllers/BarcodeGeneratorController.cs:83-120 | when no other listed name matches PDF_417 ignoring case and the writer draws PDF_417 "Hello World", the request with the defaults answers 200 with PNG bytes and content type image/png |
| `BarcodeGeneratorController.QrToFileIsJpeg` | BarCodeGenerator/Controllers/BarcodeGeneratorController.cs:121-127 | when no other listed name matches QR_CODE ignoring case, the writer draws QR_CODE "test" and the write succeeds, file mode with imageFormat=jpeg answers 200 naming directory\\GUID.jpeg |
| `UsageText.UsageLines` | BarCodeGenerator/Controllers/BarcodeGeneratorController.cs:38-73 | the guide has 36 lines |
| `UsageText.UsageLinesFixedElsewhere` | BarCodeGenerator/Controllers/BarcodeGeneratorController.cs:38-73 | with the same URL every line but the directory line is the same whatever the path, and with the same path every line but the three example lines is the same whatever the URL |
| `UsageText.ExamplesStartWithRequestUrl` | BarCodeGenerator/Controllers/BarcodeGeneratorController.cs:41-57 | each example line starts with the request URL |
| `UsageText.Usage` | BarCodeGenerator/Controllers/BarcodeGeneratorController.cs:34-80 | the root route answers 200 with the guide as text; every line sits in place followed by a line break, and the lines split back out when none holds a carriage return |

## Left out

- Enum parsing is modelled as a case-insensitive lookup of member names. .NET also trims the input and accepts numeric and comma-separated values. With those, "2" as output option parses to an undefined value that no switch case handles, and the handler returns null. " png" parses but then yields an invalid content type. A numeric symbology such as "1024" parses as a BarcodeFormat value and reaches the writer, where the model answers it with 206 as an unknown symbology (`UnrecognisedFormatReportedFirst`). The model has none of these paths.
- The parameter defaults declared on the handler (width 0, height 0, imageFormat "png", outputOption "image") belong to parameter binding. A `RawRequest` holds the values after binding, so an absent parameter must be supplied as its default. The two string defaults equal the fallbacks, so this changes no outcome.
- Case-insensitive comparison folds ASCII letters only. The .NET ordinal comparison also folds some non-ASCII letters onto ASCII ones.
- `Char.IsWhiteSpace` is modelled by the set documented for current .NET. Older Unicode tables differ on U+180E.
- The ZXing writer, the codec and the file write are function parameters (`write`, `serialize`, `saveFile`). Serialising to the memory stream is taken to succeed.
- `Guid.NewGuid()`, the `fileSystemPath` setting and `Request.RequestUri.OriginalString` are parameters.
- The HTTP layer is left out: routing, binding of width and height to 32-bit integers, response objects and concurrent requests. Responses are a status and a string or byte content.
- The `types` constant contains the line breaks of the source text. They are modelled as line feeds; a checkout with CR LF line endings would put "\r\n" in the message.
- Idempotence of interpretation has no lemma: every member is a function, so equal inputs give equal results.
- UsageText.Usage: the round trip through line splitting is stated only when no line holds a carriage return. The fixed lines of the guide are not proved free of carriage returns, because the solver cannot check long string literals character by character within the resource limit.
