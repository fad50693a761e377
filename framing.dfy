/** The length-prefixed framing between the recorder and the monitoring
    servers. The client writes a 4-byte big-endian length and then the
    payload: the UTF-8 username at the start of each audio connection, and
    every JPEG screenshot. The servers read the length with
    struct.unpack('>I') and then the payload.

    Socket reads are not modelled as a socket: each `recv` result is an
    input (what that call returned), so the readers below are exact for any
    delivery, and the round-trip lemmas state what happens when the network
    delivers the client's bytes in full. */
module Framing {
  import opened Wrappers
  import opened Bytes
  import Text

  function Min(a: int, b: int): int {
    if a <= b then a else b
  }

  /** ByteBuffer.allocate(4).putInt(length) followed by the payload bytes. */
  function Frame(payload: seq<Byte>): (f: seq<Byte>)
    requires |payload| <= Text.IntMax
    ensures |f| == 4 + |payload|
    ensures f[4..] == payload
  {
    BE32(|payload|) + payload
  }

  /** A reader for one frame at the head of a byte stream: the payload and
      what follows it, or None when the stream is too short. */
  function ParseFrame(stream: seq<Byte>): (r: Option<(seq<Byte>, seq<Byte>)>)
    ensures r.Some? ==> |stream| >= 4 && |r.value.0| == DecodeBE32(stream[..4])
    ensures r.Some? ==> stream == stream[..4] + r.value.0 + r.value.1
  {
    if |stream| < 4 then None
    else
      var n := DecodeBE32(stream[..4]);
      if |stream| - 4 < n then None
      else Some((stream[4..4 + n], stream[4 + n..]))
  }

  /** The first four bytes carry the payload length, big-endian. */
  lemma FrameHeader(payload: seq<Byte>)
    requires |payload| <= Text.IntMax
    ensures Frame(payload)[..4] == BE32(|payload|)
    ensures DecodeBE32(Frame(payload)[..4]) == |payload|
  {
    DecodeBE32OfBE32(|payload|);
    Low32OfSmall(|payload|);
  }

  /** Reading a frame back gives the payload and leaves the rest of the
      stream untouched, and a stream that parses is exactly such a frame. */
  lemma ParseFrameRoundTrip(payload: seq<Byte>, rest: seq<Byte>)
    requires |payload| <= Text.IntMax
    ensures ParseFrame(Frame(payload) + rest) == Some((payload, rest))
  {
    var s := Frame(payload) + rest;
    FrameHeader(payload);
    assert s[..4] == Frame(payload)[..4];
    assert s[4..4 + |payload|] == payload;
    assert s[4 + |payload|..] == rest;
  }

  lemma ParsedIsFrame(stream: seq<Byte>)
    requires ParseFrame(stream).Some?
    ensures var (payload, rest) := ParseFrame(stream).value;
      |payload| <= Text.IntMax ==> stream == Frame(payload) + rest
  {
    var (payload, rest) := ParseFrame(stream).value;
    if |payload| <= Text.IntMax {
      BE32OfDecodeBE32(stream[..4]);
      Low32OfSmall(|payload|);
    }
  }

  /** How the start of an audio connection ends in handle_client. */
  datatype Handshake =
    | Ended                         // an empty recv: the handler returns
    | Broken                        // struct.unpack raised: the connection is closed
    | Named(username: seq<Byte>)    // the username the server adopts

  /** handle_client's username read, in both servers: `lenData` is what
      recv(4) returned and `nameData` what recv(username_len) returned. */
  function ReadUsername(lenData: seq<Byte>, nameData: seq<Byte>): (h: Handshake)
    requires |lenData| <= 4
    requires |lenData| == 4 ==> |nameData| <= DecodeBE32(lenData)
    ensures h == Ended <==> |lenData| == 0 || (|lenData| == 4 && |nameData| == 0)
    ensures h == Broken <==> 0 < |lenData| < 4
    ensures h.Named? ==> h.username == nameData && 0 < |nameData| <= DecodeBE32(lenData)
  {
    if |lenData| == 0 then Ended
    else if |lenData| != 4 then Broken
    else if |nameData| == 0 then Ended
    else Named(nameData)
  }

  /** With full delivery the server adopts exactly the username the client
      framed (sendUsername and the servers' reader agree). */
  lemma UsernameRoundTrip(name: seq<Byte>)
    requires 0 < |name| <= Text.IntMax
    ensures var f := Frame(name);
      DecodeBE32(f[..4]) == |name| && ReadUsername(f[..4], f[4..]) == Named(name)
  {
    FrameHeader(name);
  }

  /** A zero-length username frame reads as a closed connection: recv(0)
      returns b'' and the handler returns before any audio is read. */
  lemma EmptyUsernameEndsHandler()
    ensures DecodeBE32(Frame([])[..4]) == 0 && ReadUsername(Frame([])[..4], []) == Ended
  {
    FrameHeader([]);
  }

  /** How one iteration of handle_screenshot_client ends. */
  datatype ScreenshotOutcome =
    | HeaderError                  // struct.unpack raised on a short size read: the connection closes
    | Incomplete(got: seq<Byte>)   // fewer than `size` bytes arrived: the frame is discarded
    | Complete(image: seq<Byte>)   // exactly `size` bytes: handed to the JPEG decoder

  /** What one screenshot read yields, given what recv(4) returned and the
      bytes the peer sends after it before closing. */
  function ScreenshotSpec(sizeData: seq<Byte>, wire: seq<Byte>): ScreenshotOutcome
    requires |sizeData| <= 4
  {
    if |sizeData| != 4 then HeaderError
    else
      var size := DecodeBE32(sizeData);
      if |wire| >= size then Complete(wire[..size]) else Incomplete(wire)
  }

  /** The inner receive loop: `recv(size - len(img_data))` until `size`
      bytes are in or a recv returns nothing. The k-th recv returns at most
      `segments[k]` bytes (at least one while bytes remain), modelling any
      segmentation by the network. */
  method AssembleImage(size: nat, wire: seq<Byte>, segments: seq<nat>) returns (img: seq<Byte>)
    ensures img == wire[..Min(size, |wire|)]
  {
    img := [];
    var k := 0;
    while |img| < size
      invariant |img| <= Min(size, |wire|)
      invariant img == wire[..|img|]
      decreases size - |img|
    {
      var want := size - |img|;
      var cap := if k < |segments| && segments[k] > 0 then segments[k] else want;
      var n := Min(want, Min(cap, |wire| - |img|));
      var packet := wire[|img|..|img| + n];
      if |packet| == 0 {
        break;
      }
      img := img + packet;
      k := k + 1;
    }
  }

  /** handle_screenshot_client for one frame: the size is unpacked before
      the emptiness test, so an empty or short size read raises; a frame
      is accepted only when exactly `size` bytes were assembled. */
  method ReceiveScreenshot(sizeData: seq<Byte>, wire: seq<Byte>, segments: seq<nat>) returns (r: ScreenshotOutcome)
    requires |sizeData| <= 4
    ensures r == ScreenshotSpec(sizeData, wire)
  {
    if |sizeData| != 4 {
      return HeaderError;
    }
    var size := DecodeBE32(sizeData);
    var img := AssembleImage(size, wire, segments);
    if |img| != size {
      r := Incomplete(img);
    } else {
      r := Complete(img);
    }
  }

  /** The screenshot writer and reader agree: whatever follows the frame
      on the wire, the server assembles exactly the JPEG bytes. */
  lemma ScreenshotRoundTrip(jpeg: seq<Byte>, later: seq<Byte>)
    requires |jpeg| <= Text.IntMax
    ensures var f := Frame(jpeg);
      ScreenshotSpec(f[..4], f[4..] + later) == Complete(jpeg)
  {
    FrameHeader(jpeg);
    var f := Frame(jpeg);
    assert (f[4..] + later)[..|jpeg|] == jpeg;
  }

  /** A connection that closes early never yields a frame: a short read is
      discarded, whatever was received. */
  lemma ShortScreenshotDiscarded(sizeData: seq<Byte>, wire: seq<Byte>)
    requires |sizeData| == 4 && |wire| < DecodeBE32(sizeData)
    ensures !ScreenshotSpec(sizeData, wire).Complete?
  {
  }
}
