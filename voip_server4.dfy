/** voip_server_4.py: the monitoring server with screenshot support. Each
    audio connection sends a username frame and then raw 16-bit PCM; the
    handler skips odd-length packets, extends the stream's waveform window
    and offers the packet to the stream's playback queue. A key press picks
    the stream that playback consumes. Sockets, pyaudio, matplotlib and
    OpenCV are not modelled; the screenshot frame reader is
    Framing.ReceiveScreenshot. */
module VoipServer4 {
  import opened Wrappers
  import opened Bytes
  import opened StreamBuffers
  import Framing

  /** One iteration of the audio loop for a non-empty packet: an odd length
      is reported and skipped, anything else is accepted. */
  function Step(b: Buffers, data: seq<Byte>): Buffers {
    if |data| % 2 != 0 then b else Accept(b, data)
  }

  /** The audio loop over the packets it processes, oldest first. */
  function Fold(b: Buffers, packets: seq<seq<Byte>>): Buffers {
    if packets == [] then b
    else Step(Fold(b, packets[..|packets| - 1]), packets[|packets| - 1])
  }

  /** Skipping odd packets is the same as never receiving them. */
  lemma {:induction false} FoldIsAcceptOfEvens(b: Buffers, packets: seq<seq<Byte>>)
    ensures Fold(b, packets) == FoldAccept(b, Evens(packets))
  {
    if packets != [] {
      var init, last := packets[..|packets| - 1], packets[|packets| - 1];
      FoldIsAcceptOfEvens(b, init);
      if |last| % 2 == 0 {
        assert Evens(packets) == Evens(init) + [last];
        assert (Evens(init) + [last])[..|Evens(init)|] == Evens(init);
      } else {
        assert Evens(packets) == Evens(init);
      }
    }
  }

  /** What an audio connection leaves in its stream's buffers: the window
      ends with the newest 2000 samples of the even packets received, and
      the queue gains those packets in order while it has room. */
  lemma FoldContents(b: Buffers, packets: seq<seq<Byte>>)
    requires |b.window| <= MaxWaveformPoints && |b.queue| <= QueueCapacity
    ensures Fold(b, packets).window == KeepLast(b.window, AllSamples(Evens(packets)), MaxWaveformPoints)
    ensures Fold(b, packets).queue == Admitted(b.queue, Evens(packets))
  {
    FoldIsAcceptOfEvens(b, packets);
    FoldAcceptContents(b, Evens(packets));
  }

  /** An odd packet changes nothing, and a full queue stays as it is. */
  lemma StepProperties(b: Buffers, data: seq<Byte>)
    ensures |data| % 2 != 0 ==> Step(b, data) == b
    ensures |b.queue| >= QueueCapacity ==> Step(b, data).queue == b.queue
    ensures |data| % 2 == 0 && |b.queue| < QueueCapacity ==> Step(b, data).queue == b.queue + [data]
  {
  }

  lemma FoldWellFormed(b: Buffers, packets: seq<seq<Byte>>)
    requires WellFormed(b)
    requires forall k :: 0 <= k < |packets| ==> 0 < |packets[k]| <= Chunk
    ensures WellFormed(Fold(b, packets))
  {
    FoldIsAcceptOfEvens(b, packets);
    EvensAreChunks(packets);
    FoldAcceptWellFormed(b, Evens(packets));
  }

  lemma {:induction false} EvensAreChunks(packets: seq<seq<Byte>>)
    requires forall k :: 0 <= k < |packets| ==> 0 < |packets[k]| <= Chunk
    ensures forall k :: 0 <= k < |Evens(packets)| ==> 0 < |Evens(packets)[k]| <= Chunk
  {
    if packets != [] {
      EvensAreChunks(packets[..|packets| - 1]);
    }
  }

  class AudioStreamServer {
    /** self.uplink_data and self.downlink_data: deque(maxlen=2000). */
    var uplinkData: seq<int>
    var downlinkData: seq<int>
    /** The module-level uplink_audio_queue and downlink_audio_queue. */
    var uplinkQueue: seq<seq<Byte>>
    var downlinkQueue: seq<seq<Byte>>
    /** The globals current_play_source and current_username. */
    var currentPlaySource: Source
    var currentUsername: seq<Byte>

    /** The buffers of one stream. */
    function Of(s: Source): Buffers
      reads this
    {
      if s == Uplink then Buffers(uplinkData, uplinkQueue) else Buffers(downlinkData, downlinkQueue)
    }

    ghost predicate Valid()
      reads this
    {
      WellFormed(Of(Uplink)) && WellFormed(Of(Downlink))
    }

    /** Start-up: empty windows and queues, playing the downlink, for an
        unknown user. */
    constructor ()
      ensures Valid()
      ensures Of(Uplink) == Buffers([], []) && Of(Downlink) == Buffers([], [])
      ensures currentPlaySource == Downlink
      ensures currentUsername == Ascii("Unknown User")
    {
      uplinkData, downlinkData := [], [];
      uplinkQueue, downlinkQueue := [], [];
      currentPlaySource := Downlink;
      currentUsername := Ascii("Unknown User");
    }

    /** handle_client: read the username frame, then process packets until
        a recv returns nothing. `lenData` and `nameData` are what the two
        handshake recvs returned, `packets` what each recv(CHUNK) returned. */
    method HandleClient(stream: Source, lenData: seq<Byte>, nameData: seq<Byte>, packets: seq<seq<Byte>>)
      requires Valid()
      requires |lenData| <= 4
      requires |lenData| == 4 ==> |nameData| <= DecodeBE32(lenData)
      requires forall k :: 0 <= k < |packets| ==> |packets[k]| <= Chunk
      modifies this
      ensures Valid()
      ensures var h := Framing.ReadUsername(lenData, nameData);
        if h.Named? then
          currentUsername == h.username && Of(stream) == Fold(old(Of(stream)), Delivered(packets))
        else
          currentUsername == old(currentUsername) && Of(stream) == old(Of(stream))
      ensures var other := if stream == Uplink then Downlink else Uplink;
        Of(other) == old(Of(other))
      ensures currentPlaySource == old(currentPlaySource)
    {
      var h := Framing.ReadUsername(lenData, nameData);
      if !h.Named? {
        return;
      }
      currentUsername := h.username;
      ReceivePackets(stream, packets);
    }

    /** The audio loop of handle_client: packets until a recv returns
        nothing, odd-length ones skipped. */
    method ReceivePackets(stream: Source, packets: seq<seq<Byte>>)
      requires Valid()
      requires forall k :: 0 <= k < |packets| ==> |packets[k]| <= Chunk
      modifies this
      ensures Valid()
      ensures Of(stream) == Fold(old(Of(stream)), Delivered(packets))
      ensures var other := if stream == Uplink then Downlink else Uplink;
        Of(other) == old(Of(other))
      ensures currentPlaySource == old(currentPlaySource) && currentUsername == old(currentUsername)
    {
      var i := 0;
      while i < |packets|
        invariant 0 <= i <= |packets|
        invariant forall k :: 0 <= k < i ==> packets[k] != []
        invariant Of(stream) == Fold(old(Of(stream)), packets[..i])
        invariant WellFormed(Of(stream))
        invariant var other := if stream == Uplink then Downlink else Uplink;
          Of(other) == old(Of(other))
        invariant currentPlaySource == old(currentPlaySource) && currentUsername == old(currentUsername)
      {
        var data := packets[i];
        if data == [] {
          break;
        }
        assert packets[..i + 1][..i] == packets[..i];
        if |data| % 2 != 0 {
          i := i + 1;
          continue;
        }
        Push(stream, data);
        i := i + 1;
      }
      DeliveredPrefix(packets, i);
    }

    /** One even-length packet: its samples go to the stream's waveform
        window, the packet itself to the stream's queue. */
    method Push(stream: Source, data: seq<Byte>)
      requires Valid() && 0 < |data| <= Chunk && |data| % 2 == 0
      modifies this
      ensures Valid()
      ensures Of(stream) == Accept(old(Of(stream)), data)
      ensures var other := if stream == Uplink then Downlink else Uplink;
        Of(other) == old(Of(other))
      ensures currentPlaySource == old(currentPlaySource) && currentUsername == old(currentUsername)
    {
      AcceptWellFormed(Of(stream), data);
      var samples := Samples(data);
      if stream == Uplink {
        uplinkData := KeepLast(uplinkData, samples, MaxWaveformPoints);
        uplinkQueue := Offer(uplinkQueue, data);
      } else {
        downlinkData := KeepLast(downlinkData, samples, MaxWaveformPoints);
        downlinkQueue := Offer(downlinkQueue, data);
      }
    }

    /** One turn of audio_playback: take the oldest packet of the selected
        stream's queue, or nothing when that queue is empty (the get times
        out). The other queue is never touched. */
    method PlayNext() returns (played: Option<seq<Byte>>)
      requires Valid()
      modifies this
      ensures Valid()
      ensures var q := old(Of(currentPlaySource).queue);
        && (q == [] ==> played == None && Of(currentPlaySource) == old(Of(currentPlaySource)))
        && (q != [] ==> played == Some(q[0]) && Of(currentPlaySource).queue == q[1..])
      ensures Of(currentPlaySource).window == old(Of(currentPlaySource).window)
      ensures var other := if currentPlaySource == Uplink then Downlink else Uplink;
        Of(other) == old(Of(other))
      ensures currentPlaySource == old(currentPlaySource) && currentUsername == old(currentUsername)
    {
      if currentPlaySource == Uplink {
        if uplinkQueue == [] {
          played := None;
        } else {
          played := Some(uplinkQueue[0]);
          uplinkQueue := uplinkQueue[1..];
        }
      } else {
        if downlinkQueue == [] {
          played := None;
        } else {
          played := Some(downlinkQueue[0]);
          downlinkQueue := downlinkQueue[1..];
        }
      }
    }

    /** on_key_press. */
    method OnKeyPress(key: Option<string>)
      modifies this`currentPlaySource
      ensures currentPlaySource == KeySelect(old(currentPlaySource), key)
    {
      if key == Some("u") || key == Some("U") {
        currentPlaySource := Uplink;
      } else if key == Some("d") || key == Some("D") {
        currentPlaySource := Downlink;
      }
    }
  }
}
