/**
 * The upload form of src/components/dashboard/BloodReportAnalysis.tsx: the
 * checks on a selected file, removing it, the guard of the submission, what
 * the submission does with the webhook's answer, and the clean-up of the
 * answer's `output` text before it is parsed as JSON. The file reader, the
 * network request and `JSON.parse` are passed in as their outcomes.
 */
module BloodReport {
  import opened Wrappers
  import opened Text
  import EcmaDate

  /** `MAX_FILE_SIZE`: 100 KB in bytes. */
  const MaxFileSize := 102400

  datatype File = File(name: string, size: nat, mimeType: string)

  // ---------------------------------------------------------------------------
  // File checks
  // ---------------------------------------------------------------------------

  /**
   * `(size / 1024).toFixed(2)` counted in hundredths: the whole number whose
   * hundredth part is nearest to `size / 1024`, the larger one on a tie.
   */
  function KbHundredths(size: nat): (n: nat)
    ensures size * 100 - 512 < n * 1024 <= size * 100 + 512
  {
    (size * 100 + 512) / 1024
  }

  /** A number of hundredths written with two decimals. */
  function FixedTwo(n: nat): string {
    NatToString(n / 100) + "." + EcmaDate.Pad(n % 100, 2)
  }

  function SizeError(size: nat): string {
    "File size must be less than 100KB. Current size: " + FixedTwo(KbHundredths(size)) + "KB"
  }

  const NotAnImage := "Please upload an image file"
  const NoFileSelected := "Please select an image file"

  /** The checks `handleFileSelect` makes, size first and type second: the error it reports, or none. */
  function FileError(f: File): Option<string> {
    if f.size > MaxFileSize then Some(SizeError(f.size))
    else if !StartsWith(f.mimeType, "image/") then Some(NotAnImage)
    else None
  }

  /**
   * A file is accepted exactly when it is at most 100 KB and its type starts
   * with `image/`; an oversized file reports its size whatever its type, and
   * a file of exactly 100 KB passes the size check.
   */
  lemma FileChecks(f: File)
    ensures FileError(f).None? <==> f.size <= MaxFileSize && StartsWith(f.mimeType, "image/")
    ensures f.size > MaxFileSize ==> FileError(f) == Some(SizeError(f.size))
    ensures f.size <= MaxFileSize && !StartsWith(f.mimeType, "image/") ==> FileError(f) == Some(NotAnImage)
    ensures f.size == 102400 && StartsWith(f.mimeType, "image/") ==> FileError(f).None?
  {
  }

  /**
   * A number of hundredths written with two decimals reads back: the digits
   * before the `.` are its whole part and the exactly two digits after it its
   * hundredths.
   */
  lemma FixedTwoReadsBack(n: nat)
    ensures var s := FixedTwo(n); var w := BeforeFirst(s, '.');
      && |s| == |w| + 3 && s[|w|] == '.'
      && AllDigits(w) && DigitsValue(w) == n / 100
      && AllDigits(s[|w| + 1..]) && DigitsValue(s[|w| + 1..]) == n % 100
  {
    var whole, frac := NatToString(n / 100), EcmaDate.Pad(n % 100, 2);
    assert '.' !in whole by {
      assert forall i :: 0 <= i < |whole| ==> IsDigit(whole[i]);
    }
    BeforeFirstOf(whole, '.', frac);
    NatToStringRoundTrip(n / 100);
    EcmaDate.PadTwoDigits(n % 100);
    EcmaDate.PadValue(n % 100, 2);
    var s := FixedTwo(n);
    assert s == whole + ['.'] + frac;
    assert s[|whole| + 1..] == frac;
  }

  /**
   * The size the error reports, read back from its digits, is `size / 1024`
   * to the nearest hundredth: within half a hundredth of a kilobyte of it.
   */
  lemma SizeErrorShowsKilobytes(size: nat)
    ensures var s := FixedTwo(KbHundredths(size)); var w := BeforeFirst(s, '.');
      && |s| == |w| + 3 && s[|w|] == '.' && AllDigits(w) && AllDigits(s[|w| + 1..])
      && var shown := DigitsValue(w) * 100 + DigitsValue(s[|w| + 1..]);
         size * 100 - 512 < shown * 1024 <= size * 100 + 512
  {
    FixedTwoReadsBack(KbHundredths(size));
  }

  // ---------------------------------------------------------------------------
  // The webhook's answer
  // ---------------------------------------------------------------------------

  /** A JSON value; numbers are kept to integers. */
  datatype Json =
    | JNull
    | JBool(b: bool)
    | JNumber(n: int)
    | JString(s: string)
    | JArray(items: seq<Json>)
    | JObject(fields: map<string, Json>)

  /** `data.output` when it is a non-empty string, the only case `parseAnalysisResponse` reworks. */
  function OutputText(data: Json): Option<string> {
    if data.JObject? && "output" in data.fields && data.fields["output"].JString? && data.fields["output"].s != ""
    then Some(data.fields["output"].s)
    else None
  }

  /** `s.replace(/```json\n?/g, "")`: every "```json" goes, with the newline after it if there is one. */
  function RemoveJsonFences(s: string): string
    decreases |s|
  {
    if |s| == 0 then s
    else if StartsWith(s, "```json\n") then RemoveJsonFences(s[8..])
    else if StartsWith(s, "```json") then RemoveJsonFences(s[7..])
    else [s[0]] + RemoveJsonFences(s[1..])
  }

  /** The removal of the code fences and the trim, applied only when "```json" occurs. */
  function StripFences(s: string): string {
    Trim(ReplaceAll(RemoveJsonFences(s), "```", ""))
  }

  /** `s.replace(/\\n/g, "\n")`: each backslash followed by `n` becomes a newline. */
  function UnescapeNewlines(s: string): string {
    ReplaceAll(s, "\\n", "\n")
  }

  /** The text `parseAnalysisResponse` hands to `JSON.parse`. */
  function PrepareOutput(s: string): string {
    UnescapeNewlines(if Contains(s, "```json") then StripFences(s) else s)
  }

  /**
   * `parseAnalysisResponse`; `parse` is `JSON.parse`, `None` where it throws.
   * Reading `output` of `null` throws, which the caller handles.
   */
  function ParseAnalysisResponse(data: Json, parse: string -> Option<Json>): Json
    requires !data.JNull?
  {
    match OutputText(data)
    case None => data
    case Some(text) =>
      match parse(PrepareOutput(text))
      case Some(v) => v
      case None => data
  }

  /**
   * The answer comes back as it is unless its `output` is a non-empty string
   * that parses; then it is what the prepared text parses to. Dafny
   * proves it by unfolding the definition; it states the three branches of
   * `parseAnalysisResponse` in terms of the input alone.
   */
  lemma ParseKeepsInputUnlessParsed(data: Json, parse: string -> Option<Json>)
    requires !data.JNull?
    ensures OutputText(data).None? ==> ParseAnalysisResponse(data, parse) == data
    ensures OutputText(data).Some? && parse(PrepareOutput(OutputText(data).value)).None?
            ==> ParseAnalysisResponse(data, parse) == data
    ensures OutputText(data).Some? && parse(PrepareOutput(OutputText(data).value)).Some?
            ==> ParseAnalysisResponse(data, parse) == parse(PrepareOutput(OutputText(data).value)).value
  {
  }

  /**
   * Without "```json" in the output, no fence is stripped: only the newline
   * escapes change. It holds by unfolding `PrepareOutput`; it records the
   * branch where a lone "```" survives.
   */
  lemma FencesKeptWithoutJsonTag(s: string)
    requires !Contains(s, "```json")
    ensures PrepareOutput(s) == UnescapeNewlines(s)
  {
  }

  /** When `ReplaceAll(t, "```", "")` starts with one or two backticks, so does `t`. */
  lemma {:induction false} BacktickRunStart(t: string)
    ensures var r := ReplaceAll(t, "```", "");
      && (|r| >= 1 && r[0] == '`' ==> |t| >= 1 && t[0] == '`')
      && (|r| >= 2 && r[0] == '`' && r[1] == '`' ==> |t| >= 2 && t[0] == '`' && t[1] == '`')
    decreases |t|
  {
    if |t| > 0 && !StartsWith(t, "```") {
      BacktickRunStart(t[1..]);
      assert ReplaceAll(t, "```", "") == [t[0]] + ReplaceAll(t[1..], "```", "");
    }
  }

  /** Removing every "```" leaves none: what is left of a run of backticks is shorter than three. */
  lemma {:induction false} NoFenceLeft(s: string)
    ensures !Contains(ReplaceAll(s, "```", ""), "```")
    decreases |s|
  {
    if |s| > 0 {
      if StartsWith(s, "```") {
        NoFenceLeft(s[3..]);
        assert ReplaceAll(s, "```", "") == ReplaceAll(s[3..], "```", "");
      } else {
        var r := ReplaceAll(s[1..], "```", "");
        NoFenceLeft(s[1..]);
        BacktickRunStart(s[1..]);
        assert ReplaceAll(s, "```", "") == [s[0]] + r;
        assert ([s[0]] + r)[1..] == r;
        assert StartsWith([s[0]] + r, "```") ==> StartsWith(s, "```");
      }
    }
  }

  /** A string that occurs in a slice occurs in the whole. */
  lemma ContainsOfSlice(s: string, i: nat, j: nat, p: string)
    requires i <= j <= |s| && Contains(s[i..j], p)
    ensures Contains(s, p)
  {
    ContainsIffOccurs(s[i..j], p);
    var k :| OccursAt(s[i..j], p, k);
    assert forall m | 0 <= m < |p| :: p[m] == s[i..j][k + m] == s[i + k + m];
    assert s[i + k..i + k + |p|] == p;
    assert OccursAt(s, p, i + k);
    ContainsIffOccurs(s, p);
  }

  /**
   * With "```json" in the output, the stripped text holds no "```" at all,
   * and neither starts nor ends with white space.
   */
  lemma StrippedHasNoFence(s: string)
    ensures !Contains(StripFences(s), "```")
    ensures var t := StripFences(s); t != [] ==> !IsWhitespace(t[0]) && !IsWhitespace(t[|t| - 1])
  {
    var r := ReplaceAll(RemoveJsonFences(s), "```", "");
    NoFenceLeft(RemoveJsonFences(s));
    TrimIsInfix(r);
    TrimDropsOnlyWhitespace(r);
    if Contains(Trim(r), "```") {
      ContainsOfSlice(r, Leading(r), Leading(r) + |Trim(r)|, "```");
    }
  }

  /** When `UnescapeNewlines(t)` starts with `n`, so does `t`. */
  lemma UnescapeStart(t: string)
    ensures var r := UnescapeNewlines(t); |r| >= 1 && r[0] == 'n' ==> |t| >= 1 && t[0] == 'n'
  {
    if |t| > 0 && !StartsWith(t, "\\n") {
      assert UnescapeNewlines(t) == [t[0]] + UnescapeNewlines(t[1..]);
    }
  }

  /**
   * Every two-character escape `\n` becomes a newline, none is left over,
   * and each one shortens the text by one character.
   */
  lemma {:induction false} NoEscapeLeft(s: string)
    ensures !Contains(UnescapeNewlines(s), "\\n")
    ensures |UnescapeNewlines(s)| == |s| - CountMatches(s, "\\n")
    decreases |s|
  {
    ReplaceAllLength(s, "\\n", "\n");
    if |s| > 0 {
      if StartsWith(s, "\\n") {
        var r := UnescapeNewlines(s[2..]);
        NoEscapeLeft(s[2..]);
        assert UnescapeNewlines(s) == "\n" + r;
        assert ("\n" + r)[1..] == r;
        assert ("\n" + r)[0] == '\n';
        assert !StartsWith("\n" + r, "\\n");
      } else {
        var r := UnescapeNewlines(s[1..]);
        NoEscapeLeft(s[1..]);
        UnescapeStart(s[1..]);
        assert UnescapeNewlines(s) == [s[0]] + r;
        assert ([s[0]] + r)[1..] == r;
        assert StartsWith([s[0]] + r, "\\n") ==> StartsWith(s, "\\n");
      }
    }
  }

  /** How a submission ends: the webhook's status when it is not ok, an error thrown on the way, or its body. */
  datatype Outcome = NotOk(status: nat) | Thrown(message: string) | Body(data: Json)

  /** The message a read of `output` on `null` throws with in V8. */
  const NullOutputMessage := "Cannot read properties of null (reading 'output')"

  // ---------------------------------------------------------------------------
  // The form
  // ---------------------------------------------------------------------------

  class ReportForm {
    var selectedFile: Option<File>
    var preview: Option<string>
    var uploading: bool
    var analysisResponse: Option<Json>
    var showResponse: bool
    var error: Option<string>

    /** The form as it is first shown: nothing selected, nothing sent. */
    constructor()
      ensures selectedFile.None? && preview.None? && !uploading && analysisResponse.None? && !showResponse
      ensures error.None?
    {
      selectedFile := None;
      preview := None;
      uploading := false;
      analysisResponse := None;
      showResponse := false;
      error := None;
    }

    /**
     * `handleFileSelect`: with no file nothing happens. Otherwise the error is
     * cleared and the file checked; a rejected file leaves the selection as it
     * was and only sets the error, an accepted one becomes the selection.
     */
    method HandleFileSelect(file: Option<File>)
      modifies this`error, this`selectedFile
      ensures file.None? ==> error == old(error) && selectedFile == old(selectedFile)
      ensures file.Some? ==> error == FileError(file.value)
      ensures file.Some? ==> selectedFile == (if FileError(file.value).None? then file else old(selectedFile))
    {
      if file.None? {
        return;
      }
      var f := file.value;
      error := None;
      if f.size > MaxFileSize {
        error := Some(SizeError(f.size));
        return;
      }
      if !StartsWith(f.mimeType, "image/") {
        error := Some(NotAnImage);
        return;
      }
      selectedFile := file;
    }

    /** The file reader's `onloadend`: the data URL becomes the preview. */
    method PreviewLoaded(dataUrl: string)
      modifies this`preview
      ensures preview == Some(dataUrl)
    {
      preview := Some(dataUrl);
    }

    /** `handleDeleteImage`: the file, its preview and the error are cleared. */
    method HandleDeleteImage()
      modifies this`selectedFile, this`preview, this`error
      ensures selectedFile.None? && preview.None? && error.None?
    {
      selectedFile := None;
      preview := None;
      error := None;
    }

    /**
     * `handleSubmit` up to sending: with no file it only sets the error;
     * otherwise it starts uploading and clears the error and the previous
     * answer.
     */
    method HandleSubmit()
      modifies this`error, this`uploading, this`analysisResponse
      ensures old(selectedFile).None? ==>
        error == Some(NoFileSelected) && uploading == old(uploading) && analysisResponse == old(analysisResponse)
      ensures old(selectedFile).Some? ==> uploading && error.None? && analysisResponse.None?
    {
      if selectedFile.None? {
        error := Some(NoFileSelected);
        return;
      }
      uploading := true;
      error := None;
      analysisResponse := None;
    }

    /**
     * The end of a submission: an answer is parsed and shown and the form is
     * reset; any failure is reported with its message. Uploading stops
     * either way.
     */
    method SubmitDone(outcome: Outcome, parse: string -> Option<Json>)
      modifies this`analysisResponse, this`showResponse, this`selectedFile, this`preview, this`error, this`uploading
      ensures !uploading
      ensures outcome.Body? && !outcome.data.JNull? ==>
        && analysisResponse == Some(ParseAnalysisResponse(outcome.data, parse)) && showResponse
        && selectedFile.None? && preview.None? && error == old(error)
      ensures !(outcome.Body? && !outcome.data.JNull?) ==>
        && error == Some("Failed to submit analysis: " + FailureMessage(outcome))
        && analysisResponse == old(analysisResponse) && showResponse == old(showResponse)
        && selectedFile == old(selectedFile) && preview == old(preview)
    {
      if outcome.Body? && !outcome.data.JNull? {
        analysisResponse := Some(ParseAnalysisResponse(outcome.data, parse));
        showResponse := true;
        selectedFile := None;
        preview := None;
      } else {
        error := Some("Failed to submit analysis: " + FailureMessage(outcome));
      }
      uploading := false;
    }
  }

  /** The message of what a failed submission threw. */
  function FailureMessage(outcome: Outcome): string
    requires !(outcome.Body? && !outcome.data.JNull?)
  {
    match outcome
    case NotOk(status) => "HTTP error! status: " + NatToString(status)
    case Thrown(message) => message
    case Body(_) => NullOutputMessage
  }
}
