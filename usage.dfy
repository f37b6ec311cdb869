/**
  The usage text answered at the root route (the parameterless Get of BarcodeGeneratorController):
  a fixed guide whose example URLs start with the request's own URL and which names the configured
  output directory. The text is what a StringBuilder holds after one AppendLine per line.
*/
module UsageText {
  import opened Wrappers
  import opened Text
  import BarcodeGeneratorController

  // The fixed runs of lines between the lines built from the request URL and the configured path.
  const Welcome: seq<string> := ["Welcome to BarcordeGenerator", "", "Usage:"]
  const Trying: seq<string> := ["", "Let's try make a PDF 417 barcode with 'Hello World' content."]
  const Parameters: seq<string> := [
    "",
    "barcodeFormat parameter:",
    "PDF_417 or QR_CODE.",
    "   PDF_417: This option will generate a PDF 417 barcode.",
    "   QR_CODE: This option will generate a QR code barcode.",
    "",
    "message parameter:",
    "   This option will be barcode's content.",
    "",
    "Optional parameters:",
    "",
    "Usage:"]
  const Defaults: seq<string> := [
    "",
    "If any parameter would be missing the default value will be used instead.",
    "",
    "outputOption: image or fileSystem.",
    "   Default value: image.",
    "   image: Service will return image file."]
  const Formats: seq<string> := [
    "imageFormat: Png, Jpeg or Bmp.",
    "   Default value: Png.",
    "   This option will generate image file as desired imageFormat parameter.",
    "height: number.",
    "   Default value: image default height.",
    "   This option will change image height.",
    "width: number.",
    "   Default value: image default width.",
    "   This option will change image width."]

  // What follows the request URL in the three example lines.
  const RouteSuffix: string := "[barcodeFormat]/[message]"
  const ExampleSuffix: string := "PDF_417/Hello World"
  const OptionsSuffix: string := "[barcodeFormat]/[message]?outputOption=fileSystem&imageFormat=jpeg&height=100&width=300"

  function DirectoryText(fileSystemPath: Option<string>): string
  {
    "   fileSystem: Service will generate image file at " + BarcodeGeneratorController.Formatted(fileSystemPath) + "."
  }

  /** The lines appended, in order; `baseUrl` is the request URL, `fileSystemPath` the configured directory. */
  function UsageLines(baseUrl: string, fileSystemPath: Option<string>): (lines: seq<string>)
    ensures |lines| == 36
  {
    Welcome + [baseUrl + RouteSuffix] + Trying + [baseUrl + ExampleSuffix] + Parameters
    + [baseUrl + OptionsSuffix] + Defaults + [DirectoryText(fileSystemPath)] + Formats
  }

  /** The lines built from the request URL: the three example URLs. */
  const ExampleLines: set<nat> := {3, 6, 19}

  /** The one line built from the configured directory. */
  const DirectoryLine: nat := 26

  /**
    Only the example lines depend on the request URL and only the directory line on the configured
    path; every other line is the same for every request.
  */
  lemma UsageLinesFixedElsewhere(url1: string, path1: Option<string>, url2: string, path2: Option<string>)
    ensures forall i :: 0 <= i < 36 && i !in ExampleLines && i != DirectoryLine ==>
              UsageLines(url1, path1)[i] == UsageLines(url2, path2)[i]
    ensures path1 == path2 ==> UsageLines(url1, path1)[DirectoryLine] == UsageLines(url2, path2)[DirectoryLine]
    ensures url1 == url2 ==> forall i :: 0 <= i < 36 && i != DirectoryLine ==>
              UsageLines(url1, path1)[i] == UsageLines(url2, path2)[i]
  {
  }

  /** Every example line starts with the request URL, so the examples point back at this service. */
  lemma ExamplesStartWithRequestUrl(baseUrl: string, path: Option<string>, i: nat)
    requires i in ExampleLines
    ensures |baseUrl| <= |UsageLines(baseUrl, path)[i]|
    ensures UsageLines(baseUrl, path)[i][..|baseUrl|] == baseUrl
  {
  }

  /**
    The response of the root route: 200 with the guide as plain text. Each line sits in the text
    between the lines before it and those after it, ended by a line break; and when no line holds a
    carriage return, splitting the text at its line breaks gives back exactly the lines.
  */
  function Usage(baseUrl: string, fileSystemPath: Option<string>): (r: BarcodeGeneratorController.Response)
    ensures r.status == BarcodeGeneratorController.OK && r.content.StringContent?
    ensures AllLines(UsageLines(baseUrl, fileSystemPath)) ==>
              SplitLines(r.content.text) == UsageLines(baseUrl, fileSystemPath)
    ensures forall k :: 0 <= k < 36 ==>
              r.content.text == Joined(UsageLines(baseUrl, fileSystemPath)[..k]) + UsageLines(baseUrl, fileSystemPath)[k]
                                + NewLine + Joined(UsageLines(baseUrl, fileSystemPath)[k + 1..])
  {
    var lines := UsageLines(baseUrl, fileSystemPath);
    EveryLineInPlace(lines);
    var text := Joined(lines);
    assert AllLines(lines) ==> SplitLines(text) == lines by {
      if AllLines(lines) { SplitJoined(lines); }
    }
    BarcodeGeneratorController.Response(BarcodeGeneratorController.OK,
      BarcodeGeneratorController.StringContent(text))
  }

  lemma EveryLineInPlace(lines: seq<string>)
    ensures forall k :: 0 <= k < |lines| ==>
              Joined(lines) == Joined(lines[..k]) + lines[k] + NewLine + Joined(lines[k + 1..])
  {
    forall k | 0 <= k < |lines|
      ensures Joined(lines) == Joined(lines[..k]) + lines[k] + NewLine + Joined(lines[k + 1..])
    {
      JoinedAt(lines, k);
    }
  }
}
