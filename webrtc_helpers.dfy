/**
 * The pure pieces of the call hook (src/hooks/use-webrtc-call.ts): the
 * connection-quality classifier over a statistics report, the private-network
 * host test that decides the camera-access hint, and the mapping from a
 * camera/microphone failure to the message the user sees.
 */
module WebRtcHelpers {
  import opened Wrappers
  import opened Text

  // ---------------------------------------------------------------------------
  // Connection quality
  // ---------------------------------------------------------------------------

  datatype Quality = Excellent | Good | Fair | Poor | Unknown

  /** A higher rank is a better connection; `Unknown` ranks below every measured quality. */
  function Rank(q: Quality): nat {
    match q
    case Excellent => 4
    case Good => 3
    case Fair => 2
    case Poor => 1
    case Unknown => 0
  }

  /** The quality of a measured round-trip time, in whole milliseconds. */
  function QualityOf(rttMs: nat): (q: Quality)
    ensures q != Unknown
  {
    if rttMs < 100 then Excellent
    else if rttMs < 200 then Good
    else if rttMs < 400 then Fair
    else Poor
  }

  /** Each quality band is the half-open interval of round-trip times the thresholds 100, 200, 400 cut out. */
  lemma QualityBands(rttMs: nat)
    ensures QualityOf(rttMs) == Excellent <==> rttMs < 100
    ensures QualityOf(rttMs) == Good <==> 100 <= rttMs < 200
    ensures QualityOf(rttMs) == Fair <==> 200 <= rttMs < 400
    ensures QualityOf(rttMs) == Poor <==> 400 <= rttMs
  {
  }

  /** A longer round trip never yields a better quality. */
  lemma QualityMonotone(a: nat, b: nat)
    requires a <= b
    ensures Rank(QualityOf(b)) <= Rank(QualityOf(a))
  {
  }

  /**
   * One entry of a `getStats()` report: its `type`, its `state` and its
   * `currentRoundTripTime` in whole milliseconds (absent when not reported).
   */
  datatype Stat = Stat(kind: string, state: string, rttMs: Option<nat>)

  /**
   * The entry is a succeeded candidate pair with a truthy round-trip time (an
   * absent or zero value is skipped, as JavaScript's `if (x)` does).
   */
  predicate Measures(s: Stat) {
    s.kind == "candidate-pair" && s.state == "succeeded" && s.rttMs.Some? && s.rttMs.value != 0
  }

  /** The round-trip time of the last entry that measures one. */
  function LastRtt(report: seq<Stat>): Option<nat>
    decreases |report|
  {
    if report == [] then None
    else if Measures(report[|report| - 1]) then report[|report| - 1].rttMs
    else LastRtt(report[..|report| - 1])
  }

  /**
   * `LastRtt` finds a round-trip time exactly when some entry measures one, and
   * then it is that of a measuring entry after which none measures.
   */
  lemma {:induction false} LastRttIsLastMeasured(report: seq<Stat>)
    ensures LastRtt(report).Some? <==> exists k :: 0 <= k < |report| && Measures(report[k])
    ensures LastRtt(report).Some? ==>
      exists k :: 0 <= k < |report| && Measures(report[k]) && report[k].rttMs == LastRtt(report)
                  && forall j :: k < j < |report| ==> !Measures(report[j])
    decreases |report|
  {
    if report != [] && !Measures(report[|report| - 1]) {
      var prefix := report[..|report| - 1];
      LastRttIsLastMeasured(prefix);
      if exists k :: 0 <= k < |report| && Measures(report[k]) {
        var k :| 0 <= k < |report| && Measures(report[k]);
        assert prefix[k] == report[k];
      }
      if LastRtt(prefix).Some? {
        var k :| 0 <= k < |prefix| && Measures(prefix[k]) && prefix[k].rttMs == LastRtt(prefix)
                 && forall j :: k < j < |prefix| ==> !Measures(prefix[j]);
        assert report[k] == prefix[k];
        forall j | k < j < |report| ensures !Measures(report[j]) {
          if j < |prefix| {
            assert report[j] == prefix[j];
          }
        }
      }
    }
  }

  /** The quality a report yields: that of its last measured round trip, `Good` when there is none. */
  function ReportQuality(report: seq<Stat>): Quality {
    match LastRtt(report)
    case Some(rtt) => QualityOf(rtt)
    case None => Good
  }

  /** A report yields `Good` when no entry measures a round trip. */
  lemma ReportWithoutMeasurementIsGood(report: seq<Stat>)
    requires forall k :: 0 <= k < |report| ==> !Measures(report[k])
    ensures ReportQuality(report) == Good
  {
    LastRttIsLastMeasured(report);
  }

  /** The last measured entry wins: appending one decides the quality, appending any other changes nothing. */
  lemma ReportLastWins(report: seq<Stat>, s: Stat)
    ensures Measures(s) ==> ReportQuality(report + [s]) == QualityOf(s.rttMs.value)
    ensures !Measures(s) ==> ReportQuality(report + [s]) == ReportQuality(report)
  {
    assert (report + [s])[..|report|] == report;
  }

  /**
   * The `forEach` over the statistics report in `checkConnectionQuality`: start
   * from `Good`, and let every succeeded candidate pair with a round-trip time
   * overwrite the quality.
   */
  method ClassifyReport(report: seq<Stat>) returns (quality: Quality)
    ensures quality == ReportQuality(report)
  {
    quality := Good;
    var i := 0;
    while i < |report|
      invariant 0 <= i <= |report|
      invariant quality == ReportQuality(report[..i])
    {
      var stat := report[i];
      if stat.kind == "candidate-pair" && stat.state == "succeeded" {
        if stat.rttMs.Some? && stat.rttMs.value != 0 {
          quality := QualityOf(stat.rttMs.value);
        }
      }
      ReportLastWins(report[..i], stat);
      assert report[..i + 1] == report[..i] + [stat];
      i := i + 1;
    }
    assert report[..i] == report;
  }

  // ---------------------------------------------------------------------------
  // Private-network hosts
  // ---------------------------------------------------------------------------

  /** The two characters after `172.` form a number from 16 to 31. */
  predicate PrivateSecondOctet(a: char, b: char) {
    (a == '1' && '6' <= b <= '9') || (a == '2' && '0' <= b <= '9') || (a == '3' && '0' <= b <= '1')
  }

  /**
   * The regular expression `^(192\.168\.|10\.|172\.(1[6-9]|2[0-9]|3[0-1])\.)`
   * tested against the page's host name.
   */
  predicate IsLocalNetworkHost(h: string) {
    || StartsWith(h, "192.168.")
    || StartsWith(h, "10.")
    || (StartsWith(h, "172.") && |h| >= 7 && PrivateSecondOctet(h[4], h[5]) && h[6] == '.')
  }

  /**
   * The address blocks of section 3 of RFC 1918 written as dotted prefixes:
   * `10.`, `172.n.` for n from 16 to 31, and `192.168.`.
   */
  predicate InPrivateBlock(h: string) {
    || StartsWith(h, "10.")
    || StartsWith(h, "192.168.")
    || exists n: nat :: 16 <= n <= 31 && StartsWith(h, "172." + NatToString(n) + ".")
  }

  /** Every private-network host name starts with `19`, `10` or `17`. */
  lemma LocalNetworkHostShape(h: string)
    requires IsLocalNetworkHost(h)
    ensures |h| >= 3 && h[0] == '1' && (h[1] == '9' || h[1] == '0' || h[1] == '7')
  {
    if StartsWith(h, "192.168.") {
      assert h[..8][0] == '1' && h[..8][1] == '9';
    } else if StartsWith(h, "10.") {
      assert h[..3][0] == '1' && h[..3][1] == '0';
    } else {
      assert h[..4][0] == '1' && h[..4][1] == '7';
    }
  }

  /** The decimal form of a number from 10 to 99 is its two digits. */
  lemma TwoDigitString(n: nat)
    requires 10 <= n < 100
    ensures NatToString(n) == [DigitChar(n / 10), DigitChar(n % 10)]
  {
  }

  /** A host name the test accepts through its `172.` branch starts inside a `172.n.` block. */
  lemma Octet172InBlock(h: string)
    requires StartsWith(h, "172.") && |h| >= 7 && PrivateSecondOctet(h[4], h[5]) && h[6] == '.'
    ensures exists n: nat :: 16 <= n <= 31 && StartsWith(h, "172." + NatToString(n) + ".")
  {
    var n: nat := DigitValue(h[4]) * 10 + DigitValue(h[5]);
    TwoDigitString(n);
    assert NatToString(n) == [h[4], h[5]];
    assert h[..4] == "172.";
    assert h[..7] == "172." + NatToString(n) + ".";
  }

  /** A host name inside a `172.n.` block passes the `172.` branch of the test. */
  lemma BlockIn172Octet(h: string, n: nat)
    requires 16 <= n <= 31 && StartsWith(h, "172." + NatToString(n) + ".")
    ensures StartsWith(h, "172.") && |h| >= 7 && PrivateSecondOctet(h[4], h[5]) && h[6] == '.'
  {
    TwoDigitString(n);
    var p := "172." + NatToString(n) + ".";
    assert |p| == 7;
    assert h[..7] == p;
    assert h[4] == p[4] == DigitChar(n / 10) && h[5] == p[5] == DigitChar(n % 10) && h[6] == p[6] == '.';
    assert h[..4] == p[..4];
  }

  /** The host test accepts exactly the host names that start inside a private address block. */
  lemma LocalNetworkHostIsPrivateBlock(h: string)
    ensures IsLocalNetworkHost(h) <==> InPrivateBlock(h)
  {
    if StartsWith(h, "172.") && |h| >= 7 && PrivateSecondOctet(h[4], h[5]) && h[6] == '.' {
      Octet172InBlock(h);
    }
    if exists n: nat :: 16 <= n <= 31 && StartsWith(h, "172." + NatToString(n) + ".") {
      var n: nat :| 16 <= n <= 31 && StartsWith(h, "172." + NatToString(n) + ".");
      BlockIn172Octet(h, n);
    }
  }

  // ---------------------------------------------------------------------------
  // Camera and microphone failures
  // ---------------------------------------------------------------------------

  /** A rejected `getUserMedia` call: the error's `name` and its `message` (absent or empty counts as missing). */
  datatype MediaError = MediaError(name: string, message: Option<string>)

  /** The page's `location`: its protocol (`"https:"`, ...) and host name. */
  datatype Location = Location(protocol: string, hostname: string)

  /** `error.message` is truthy. */
  predicate HasMessage(e: MediaError) {
    e.message.Some? && e.message.value != ""
  }

  /** `error.message?.includes(p)`, false when the message is absent. */
  predicate MessageIncludes(e: MediaError, p: string) {
    e.message.Some? && Contains(e.message.value, p)
  }

  const HttpsHint := "Browser security requires HTTPS or localhost for camera access. Please access the app via http://localhost:8080 instead of the IP address, or set up HTTPS for your local server."

  /**
   * What `getUserMediaWithFallback` rethrows when the modern API rejects: a
   * permission or security refusal on a plain-HTTP private-network address
   * becomes a new `Error` carrying the HTTPS hint; anything else is rethrown as is.
   */
  function ModernApiFailure(e: MediaError, loc: Location): (r: MediaError)
    ensures r != e ==> r == MediaError("Error", Some(HttpsHint))
    ensures r != e <==>
      && (e.name == "NotAllowedError" || e.name == "SecurityError" || MessageIncludes(e, "secure"))
      && loc.protocol != "https:"
      && IsLocalNetworkHost(loc.hostname)
      && loc.hostname != "localhost" && loc.hostname != "127.0.0.1"
      && e != MediaError("Error", Some(HttpsHint))
  {
    var isHttps := loc.protocol == "https:";
    var isLocalhost := loc.hostname == "localhost" || loc.hostname == "127.0.0.1";
    if (e.name == "NotAllowedError" || e.name == "SecurityError" || MessageIncludes(e, "secure"))
      && !isHttps && IsLocalNetworkHost(loc.hostname) && !isLocalhost
    then MediaError("Error", Some(HttpsHint))
    else e
  }

  /**
   * The messages a camera or microphone failure is reported with: one per
   * recognised cause, and a generic one that carries the browser's own message.
   */
  datatype MediaMessage =
    | PermissionDenied
    | NoDevice
    | DeviceBusy
    | InsecureContext
    | CameraHardware
    | ApiUnavailable
    | Generic(detail: string)

  /** The text of each message. */
  function MediaMessageText(m: MediaMessage): string {
    match m
    case PermissionDenied =>
      "Camera/Microphone permission denied. Please allow access in your browser settings and try again."
    case NoDevice => "No camera or microphone found. Please check your device connections."
    case DeviceBusy =>
      "Camera/Microphone is in use by another application or browser window. If testing on the same device, make sure to: 1) Close other browser tabs/windows using the camera, 2) Use different browsers (Chrome + Firefox) instead of tabs, 3) Or close other apps using the camera (Zoom, Teams, etc.). Then refresh and try again."
    case InsecureContext => "Secure connection required for camera access. Please use HTTPS or localhost."
    case CameraHardware =>
      "Camera hardware error: Unable to start video input. This usually means: 1) Camera driver needs updating, 2) Camera is physically disconnected or damaged, 3) Another application has exclusive access to the camera, 4) Browser needs to be restarted. Try: Restart your browser, update camera drivers, or use a different camera if available."
    case ApiUnavailable =>
      "Camera/Microphone access is not available. Please check your browser permissions and ensure you are using HTTPS or localhost."
    case Generic(detail) => "Camera/Microphone access failed: " + detail
  }

  /** The error names that decide the message before its text is looked at. */
  predicate NamedCause(e: MediaError) {
    e.name in {"NotAllowedError", "PermissionDeniedError", "NotFoundError", "DevicesNotFoundError", "NotReadableError", "SecurityError"}
  }

  /** The message text names a failure to start the video source. */
  predicate MentionsVideoInput(e: MediaError) {
    HasMessage(e) && (
      || MessageIncludes(e, "videoinput")
      || MessageIncludes(e, "Starting videoinput")
      || MessageIncludes(e, "video input")
      || MessageIncludes(e, "TrackStartError")
      || MessageIncludes(e, "Could not start video source"))
  }

  /** The message the call start or answer fails with when the camera or microphone cannot be opened. */
  function MediaFailureMessage(e: MediaError): MediaMessage {
    if e.name == "NotAllowedError" || e.name == "PermissionDeniedError" then PermissionDenied
    else if e.name == "NotFoundError" || e.name == "DevicesNotFoundError" then NoDevice
    else if e.name == "NotReadableError" then DeviceBusy
    else if e.name == "SecurityError" then InsecureContext
    else if MentionsVideoInput(e) then CameraHardware
    else if HasMessage(e) && MessageIncludes(e, "getUserMedia") then ApiUnavailable
    else Generic(if HasMessage(e) then e.message.value else "Unknown error")
  }

  /**
   * The error name decides the message before the message text is looked at,
   * each message arises from exactly one rule, and the generic message carries
   * the browser's message, or "Unknown error" when it has none.
   */
  lemma MediaFailureRules(e: MediaError)
    ensures MediaFailureMessage(e) == PermissionDenied <==> e.name == "NotAllowedError" || e.name == "PermissionDeniedError"
    ensures MediaFailureMessage(e) == NoDevice <==> e.name == "NotFoundError" || e.name == "DevicesNotFoundError"
    ensures MediaFailureMessage(e) == DeviceBusy <==> e.name == "NotReadableError"
    ensures MediaFailureMessage(e) == InsecureContext <==> e.name == "SecurityError"
    ensures MediaFailureMessage(e) == CameraHardware <==> !NamedCause(e) && MentionsVideoInput(e)
    ensures MediaFailureMessage(e) == ApiUnavailable <==>
      !NamedCause(e) && !MentionsVideoInput(e) && MessageIncludes(e, "getUserMedia")
    ensures MediaFailureMessage(e).Generic? <==>
      !NamedCause(e) && !MentionsVideoInput(e) && !MessageIncludes(e, "getUserMedia")
    ensures MediaFailureMessage(e).Generic? ==>
      MediaFailureMessage(e).detail == (if HasMessage(e) then e.message.value else "Unknown error")
  {
  }

  /**
   * On a plain-HTTP private-network page a refused permission is rethrown as a
   * plain `Error` carrying the HTTPS hint, so it is no longer reported as a
   * permission, device or security problem.
   */
  lemma RefusalOnPrivateHttpHost(loc: Location)
    requires loc.protocol == "http:" && IsLocalNetworkHost(loc.hostname)
    ensures loc.hostname != "localhost" && loc.hostname != "127.0.0.1"
    ensures ModernApiFailure(MediaError("NotAllowedError", None), loc) == MediaError("Error", Some(HttpsHint))
    ensures MediaFailureMessage(ModernApiFailure(MediaError("NotAllowedError", None), loc))
      !in {PermissionDenied, NoDevice, DeviceBusy, InsecureContext}
  {
    LocalNetworkHostShape(loc.hostname);
  }
}
