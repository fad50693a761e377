/** utils/ApiClient.java: the HTTP calls to the monitoring API. Each call
    builds a request (URL, form fields or a multipart part) and decides
    from the response whether it succeeded. The transport is not
    modelled: a call's exchange is either no response (OkHttp's execute
    threw) or a status with an optional body, and Gson's decoding is a
    function parameter that gives a value, null (None) or, on malformed
    JSON, a JsonSyntaxException (Failure). */
module Api {
  import opened Wrappers
  import opened Text
  import Rpc

  // ---------------------------------------------------------------- requests

  /** A request body: URL-encoded form fields, or one multipart part. */
  datatype Body =
    | NoBody
    | Form(fields: seq<(string, string)>)
    | Multipart(field: string, filename: string, mime: string)

  datatype Request = Request(post: bool, url: string, body: Body)

  const CallsPath := "/api/v1/call/"

  /** createNewCallSession's request. */
  function NewSessionRequest(baseUrl: string, username: string): Request {
    Request(true, baseUrl + "/api/v1/call/new", Form([("username", username)]))
  }

  /** uploadAudioChunk's file name: "%s_%d.wav". */
  function ChunkFilename(channel: string, chunkIndex: int): string {
    channel + "_" + IntToDecimal(chunkIndex) + ".wav"
  }

  /** uploadAudioChunk's URL. */
  function AudioUrl(baseUrl: string, sessionId: string): string {
    baseUrl + CallsPath + sessionId + "/audio"
  }

  function AudioRequest(baseUrl: string, sessionId: string, channel: string, chunkIndex: int): Request {
    Request(true, AudioUrl(baseUrl, sessionId), Multipart("audio", ChunkFilename(channel, chunkIndex), "audio/wav"))
  }

  /** uploadScreenshot's URL. */
  function ScreenshotUrl(baseUrl: string, sessionId: string): string {
    baseUrl + CallsPath + sessionId + "/img"
  }

  /** uploadScreenshot's MIME type, chosen from the lower-cased name. */
  function MimeType(filename: string): string {
    var lower := ToLowerAscii(filename);
    if EndsWith(lower, ".png") then "image/png"
    else if EndsWith(lower, ".jpg") || EndsWith(lower, ".jpeg") then "image/jpeg"
    else "application/octet-stream"
  }

  function ScreenshotRequest(baseUrl: string, sessionId: string, filename: string): Request {
    Request(true, ScreenshotUrl(baseUrl, sessionId), Multipart("image", filename, MimeType(filename)))
  }

  function HealthRequest(baseUrl: string, version: string, username: string): Request {
    Request(true, baseUrl + "/api/v1/client/health", Form([("version", version), ("username", username)]))
  }

  /** closeCallSessionSync's path segments after the base URL (HttpUrl's
      percent-encoding of a segment is not modelled). */
  function ClosePath(sessionId: string): seq<string> {
    ["api", "v1", "call", sessionId, "close"]
  }

  // ------------------------------------------------------- chunk file names

  /** The index of the last occurrence of c in s. */
  function LastIndexOf(s: string, c: char): (r: Option<nat>)
    ensures r.Some? ==> r.value < |s| && s[r.value] == c
    ensures r.None? <==> c !in s
  {
    if s == [] then None
    else if s[|s| - 1] == c then Some(|s| - 1)
    else
      var r := LastIndexOf(s[..|s| - 1], c);
      assert s == s[..|s| - 1] + [s[|s| - 1]];
      r
  }

  /** Reads a chunk file name back: the channel before the last '_', and
      the index between it and ".wav". */
  function ParseChunkFilename(name: string): Option<(string, int)> {
    if !EndsWith(name, ".wav") then None
    else
      var stem := name[..|name| - 4];
      var u := LastIndexOf(stem, '_');
      if u.None? then None
      else
        var index := ParseJavaInteger(stem[u.value + 1..], IntMin, IntMax);
        if index.None? then None else Some((stem[..u.value], index.value))
  }

  lemma {:induction false} LastIndexOfAfter(a: string, c: char, b: string)
    requires c !in b
    ensures LastIndexOf(a + [c] + b, c) == Some(|a|)
  {
    if b != [] {
      var s := a + [c] + b;
      var init := b[..|b| - 1];
      assert s[..|s| - 1] == a + [c] + init;
      assert s[|s| - 1] == b[|b| - 1];
      LastIndexOfAfter(a, c, init);
    }
  }

  lemma NoUnderscoreInDecimal(n: int)
    ensures '_' !in IntToDecimal(n)
  {
    var d := NatToDecimal(if n < 0 then -n else n);
    assert AllDigits(d);
    if n < 0 {
      assert IntToDecimal(n) == "-" + d;
    }
  }

  /** Every chunk name of a 32-bit index reads back as its channel and
      index, whatever the channel name (even one containing '_'). */
  lemma ChunkFilenameRoundTrip(channel: string, chunkIndex: int)
    requires IntMin <= chunkIndex <= IntMax
    ensures ParseChunkFilename(ChunkFilename(channel, chunkIndex)) == Some((channel, chunkIndex))
  {
    var digits := IntToDecimal(chunkIndex);
    var name := ChunkFilename(channel, chunkIndex);
    var stem := channel + "_" + digits;
    assert name == stem + ".wav";
    assert name[|name| - 4..] == ".wav";
    assert name[..|name| - 4] == stem;
    NoUnderscoreInDecimal(chunkIndex);
    LastIndexOfAfter(channel, '_', digits);
    assert stem[|channel| + 1..] == digits;
    assert stem[..|channel|] == channel;
    ParseIntToDecimal(chunkIndex, IntMin, IntMax);
  }

  // -------------------------------------------------------------------- URLs

  /** The session id is recovered from each per-session URL by stripping
      the base, the fixed prefix and the endpoint suffix, and the audio and
      screenshot endpoints never share a URL. */
  lemma SessionUrls(baseUrl: string, sessionId: string, otherId: string)
    ensures var a := AudioUrl(baseUrl, sessionId);
      a[|baseUrl| + |CallsPath|..|a| - |"/audio"|] == sessionId
    ensures var i := ScreenshotUrl(baseUrl, sessionId);
      i[|baseUrl| + |CallsPath|..|i| - |"/img"|] == sessionId
    ensures AudioUrl(baseUrl, sessionId) != ScreenshotUrl(baseUrl, otherId)
  {
    var a := AudioUrl(baseUrl, sessionId);
    var i := ScreenshotUrl(baseUrl, otherId);
    assert a == (baseUrl + CallsPath) + sessionId + "/audio";
    assert ScreenshotUrl(baseUrl, sessionId) == (baseUrl + CallsPath) + sessionId + "/img";
    assert a[|a| - 1] == 'o' && i[|i| - 1] == 'g';
  }

  // -------------------------------------------------------------- MIME type

  lemma LowerIdempotent(s: string)
    ensures ToLowerAscii(ToLowerAscii(s)) == ToLowerAscii(s)
  {
  }

  lemma LowerAppend(a: string, b: string)
    ensures ToLowerAscii(a + b) == ToLowerAscii(a) + ToLowerAscii(b)
  {
    assert forall k :: 0 <= k < |a| ==> (a + b)[k] == a[k];
    assert forall k :: |a| <= k < |a| + |b| ==> (a + b)[k] == b[k - |a|];
  }

  /** The MIME choice ignores letter case, and any spelling of ".png",
      ".jpg" or ".jpeg" at the end of a name selects it. */
  lemma MimeTypeByExtension(stem: string, ext: string)
    ensures MimeType(ToLowerAscii(stem + ext)) == MimeType(stem + ext)
    ensures ToLowerAscii(ext) == ".png" ==> MimeType(stem + ext) == "image/png"
    ensures ToLowerAscii(ext) in {".jpg", ".jpeg"} ==> MimeType(stem + ext) == "image/jpeg"
  {
    LowerIdempotent(stem + ext);
    LowerAppend(stem, ext);
    var lower := ToLowerAscii(stem) + ToLowerAscii(ext);
    assert lower[|lower| - |ToLowerAscii(ext)|..] == ToLowerAscii(ext);
    if ToLowerAscii(ext) == ".jpeg" {
      assert !EndsWith(lower, ".png") by {
        assert lower[|lower| - 4..] == "jpeg";
      }
    }
    if ToLowerAscii(ext) == ".jpg" {
      assert !EndsWith(lower, ".png") by {
        assert lower[|lower| - 4..] == ".jpg";
      }
    }
  }

  /** The three MIME choices, each exactly when its test on the
      lower-cased name picks it: png first, then jpg/jpeg, and the binary
      default for every other name. */
  lemma MimeTypeCases(filename: string)
    ensures var lower := ToLowerAscii(filename);
      && (MimeType(filename) == "image/png" <==> EndsWith(lower, ".png"))
      && (MimeType(filename) == "image/jpeg" <==>
            !EndsWith(lower, ".png") && (EndsWith(lower, ".jpg") || EndsWith(lower, ".jpeg")))
      && (MimeType(filename) == "application/octet-stream" <==>
            !EndsWith(lower, ".png") && !EndsWith(lower, ".jpg") && !EndsWith(lower, ".jpeg"))
  {
    assert "image/png" != "image/jpeg" && "image/png"[6] != "application/octet-stream"[6];
  }

  // -------------------------------------------------------------- responses

  /** What execute() produced: nothing (it threw IOException), or a status
      with a body that may be null. */
  datatype Exchange = NoResponse | Got(status: int, body: Option<string>)

  /** Why a call failed. */
  datatype Failure =
    | Transport          // execute() threw
    | BadStatus(code: int)
    | MissingBody        // a null body where the call needs one
    | NullResult         // Gson returned null and the caller dereferenced it
    | BadJson            // Gson threw JsonSyntaxException on a malformed body

  /** The text createNewCallSession decodes: a null body reads as "". */
  function BodyText(e: Exchange): string
    requires e.Got?
  {
    if e.body.Some? then e.body.value else ""
  }

  /** createNewCallSession: the status is not checked; malformed JSON
      throws inside the `catch (Exception)` and is rethrown wrapped, and a
      null decode fails when it is logged. */
  function CreateNewCallSession<T>(e: Exchange, decode: string -> Result<Option<T>, ()>): Result<T, Failure> {
    if e.NoResponse? then Failure(Transport)
    else
      var v := decode(BodyText(e));
      if v.Failure? then Failure(BadJson)
      else if v.value.None? then Failure(NullResult)
      else Success(v.value.value)
  }

  /** uploadAudioChunk: succeeds whenever there is a response, whatever
      its status. A missing file is only logged; if reading it fails while
      the request is sent, that is a transport failure. */
  function UploadAudioChunk(e: Exchange): Result<(), Failure> {
    if e.NoResponse? then Failure(Transport) else Success(())
  }

  /** uploadScreenshot: a non-2xx status throws; a 2xx response without a
      body throws when its body is read for the log. */
  function UploadScreenshot(e: Exchange): Result<(), Failure> {
    if e.NoResponse? then Failure(Transport)
    else if !Rpc.IsSuccessful(e.status) then Failure(BadStatus(e.status))
    else if e.body.None? then Failure(MissingBody)
    else Success(())
  }

  /** postHealthStatusSync: a non-2xx status throws; the body is optional. */
  function PostHealthStatus(e: Exchange): Result<(), Failure> {
    if e.NoResponse? then Failure(Transport)
    else if !Rpc.IsSuccessful(e.status) then Failure(BadStatus(e.status))
    else Success(())
  }

  /** closeCallSessionSync: a non-2xx status or a null body throws; a
      malformed body makes Gson throw JsonSyntaxException, which the
      `catch (IOException)` does not catch, so it escapes; otherwise the
      decoded summary (which Gson may give as null). */
  function CloseCallSession<T>(e: Exchange, decode: string -> Result<Option<T>, ()>): Result<Option<T>, Failure> {
    if e.NoResponse? then Failure(Transport)
    else if !Rpc.IsSuccessful(e.status) then Failure(BadStatus(e.status))
    else if e.body.None? then Failure(MissingBody)
    else
      var v := decode(e.body.value);
      if v.Failure? then Failure(BadJson) else Success(v.value)
  }

  /** The acceptance rules of the five calls, side by side: the screenshot,
      health and close calls succeed only on a 2xx status, the health call
      on every 2xx response, the close call exactly when there is also a
      body that decodes; session creation succeeds exactly when the body
      decodes to a value; the audio upload and session creation never look
      at the status. */
  lemma AcceptanceRules<T>(e: Exchange, other: int, decode: string -> Result<Option<T>, ()>)
    ensures UploadScreenshot(e).Success? <==> e.Got? && Rpc.IsSuccessful(e.status) && e.body.Some?
    ensures PostHealthStatus(e).Success? <==> e.Got? && Rpc.IsSuccessful(e.status)
    ensures CloseCallSession(e, decode).Success? <==>
      e.Got? && Rpc.IsSuccessful(e.status) && e.body.Some? && decode(e.body.value).Success?
    ensures CloseCallSession(e, decode).Success? ==> CloseCallSession(e, decode).value == decode(e.body.value).value
    ensures e.Got? && Rpc.IsSuccessful(e.status) && e.body.Some? && decode(e.body.value).Failure? ==>
      CloseCallSession(e, decode) == Failure(BadJson)
    ensures CreateNewCallSession(e, decode).Success? <==>
      e.Got? && decode(BodyText(e)).Success? && decode(BodyText(e)).value.Some?
    ensures e.Got? && decode(BodyText(e)).Failure? ==> CreateNewCallSession(e, decode) == Failure(BadJson)
    ensures UploadAudioChunk(e).Success? <==> e.Got?
    ensures e.Got? ==>
      (UploadAudioChunk(e.(status := other)) == UploadAudioChunk(e)
       && CreateNewCallSession(e.(status := other), decode) == CreateNewCallSession(e, decode))
    ensures e.Got? && !Rpc.IsSuccessful(e.status) ==>
      UploadScreenshot(e) == PostHealthStatus(e) == Failure(BadStatus(e.status))
  {
  }
}
