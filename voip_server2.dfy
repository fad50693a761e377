/** voip_server2.py: the earlier monitoring server without screenshots.
    The handler converts every packet with np.frombuffer(int16), which
    raises on an odd length; the exception ends the connection, so a
    stream stops at its first odd packet instead of skipping it. */
module VoipServer2 {
  import opened Wrappers
  import opened Bytes
  import opened StreamBuffers
  import Framing
  import VoipServer4

  /** On the packets both servers process, the two handlers agree. */
  lemma {:induction false} AgreesWithServer4(b: Buffers, packets: seq<seq<Byte>>)
    ensures FoldAccept(b, DeliveredEven(packets)) == VoipServer4.Fold(b, DeliveredEven(packets))
  {
    VoipServer4.FoldIsAcceptOfEvens(b, DeliveredEven(packets));
    EvensOfEvens(DeliveredEven(packets));
  }

  /** When no delivered packet has an odd length, the two servers read the
      same packets. */
  lemma SameDeliveryWithoutOddPackets(packets: seq<seq<Byte>>)
    requires forall k :: 0 <= k < |packets| ==> |packets[k]| % 2 == 0
    ensures DeliveredEven(packets) == Delivered(packets)
  {
    DeliveredEvenPrefix(packets, |Delivered(packets)|);
  }

  /** An odd packet ends the stream: nothing after it is read. */
  lemma OddPacketEndsStream(packets: seq<seq<Byte>>, i: nat)
    requires i < |packets| && |packets[i]| % 2 != 0
    ensures |DeliveredEven(packets)| <= i
  {
  }

  /** One more accepted packet extends the fold by one step. */
  lemma FoldAcceptNext(b: Buffers, packets: seq<seq<Byte>>, i: nat)
    requires i < |packets|
    requires forall k :: 0 <= k <= i ==> |packets[k]| % 2 == 0
    ensures FoldAccept(b, packets[..i + 1]) == Accept(FoldAccept(b, packets[..i]), packets[i])
  {
    assert packets[..i + 1][..i] == packets[..i];
  }

  class AudioStreamServer {
    var uplinkData: seq<int>
    var downlinkData: seq<int>
    var uplinkQueue: seq<seq<Byte>>
    var downlinkQueue: seq<seq<Byte>>
    var currentPlaySource: Source
    var currentUsername: seq<Byte>

    function Of(s: Source): Buffers
      reads this
    {
      if s == Uplink then Buffers(uplinkData, uplinkQueue) else Buffers(downlinkData, downlinkQueue)
    }

    ghost predicate Valid()
      reads this
    {
      WellFormed(Of(Uplink)) && WellFormed(Of(Downlink))
    }

    constructor ()
      ensures Valid()
      ensures Of(Uplink) == Buffers([], []) && Of(Downlink) == Buffers([], [])
      ensures currentPlaySource == Downlink
      ensures currentUsername == Ascii("Unknown User")
    {
      uplinkData, downlinkData := [], [];
      uplinkQueue, downlinkQueue := [], [];
      currentPlaySource := Downlink;
      currentUsername := Ascii("Unknown User");
    }

    /** handle_client: the username handshake, then packets until a recv
        returns nothing or a packet has an odd length. */
    method HandleClient(stream: Source, lenData: seq<Byte>, nameData: seq<Byte>, packets: seq<seq<Byte>>)
      requires Valid()
      requires |lenData| <= 4
      requires |lenData| == 4 ==> |nameData| <= DecodeBE32(lenData)
      requires forall k :: 0 <= k < |packets| ==> |packets[k]| <= Chunk
      modifies this
      ensures Valid()
      ensures var h := Framing.ReadUsername(lenData, nameData);
        if h.Named? then
          currentUsername == h.username && Of(stream) == FoldAccept(old(Of(stream)), DeliveredEven(packets))
        else
          currentUsername == old(currentUsername) && Of(stream) == old(Of(stream))
      ensures var other := if stream == Uplink then Downlink else Uplink;
        Of(other) == old(Of(other))
      ensures currentPlaySource == old(currentPlaySource)
    {
      var h := Framing.ReadUsername(lenData, nameData);
      if !h.Named? {
        return;
      }
      currentUsername := h.username;
      ReceivePackets(stream, packets);
    }

    /** The audio loop of handle_client: each packet is converted to
        samples and offered to the stream's window and queue, until a recv
        returns nothing or a packet has an odd length. */
    method ReceivePackets(stream: Source, packets: seq<seq<Byte>>)
      requires Valid()
      requires forall k :: 0 <= k < |packets| ==> |packets[k]| <= Chunk
      modifies this
      ensures Valid()
      ensures Of(stream) == FoldAccept(old(Of(stream)), DeliveredEven(packets))
      ensures var other := if stream == Uplink then Downlink else Uplink;
        Of(other) == old(Of(other))
      ensures currentPlaySource == old(currentPlaySource) && currentUsername == old(currentUsername)
    {
      var i := 0;
      while i < |packets|
        invariant 0 <= i <= |packets|
        invariant forall k :: 0 <= k < i ==> packets[k] != [] && |packets[k]| % 2 == 0
        invariant Of(stream) == FoldAccept(old(Of(stream)), packets[..i])
        invariant WellFormed(Of(stream))
        invariant var other := if stream == Uplink then Downlink else Uplink;
          Of(other) == old(Of(other))
        invariant currentPlaySource == old(currentPlaySource) && currentUsername == old(currentUsername)
      {
        var data := packets[i];
        if data == [] || |data| % 2 != 0 {
          break;
        }
        FoldAcceptNext(old(Of(stream)), packets, i);
        Push(stream, data);
        i := i + 1;
      }
      DeliveredEvenPrefix(packets, i);
    }

    /** One packet of the audio loop: its samples go to the stream's
        waveform window, the packet itself to the stream's queue. */
    method Push(stream: Source, data: seq<Byte>)
      requires Valid() && 0 < |data| <= Chunk && |data| % 2 == 0
      modifies this
      ensures Valid()
      ensures Of(stream) == Accept(old(Of(stream)), data)
      ensures var other := if stream == Uplink then Downlink else Uplink;
        Of(other) == old(Of(other))
      ensures currentPlaySource == old(currentPlaySource) && currentUsername == old(currentUsername)
    {
      AcceptWellFormed(Of(stream), data);
      var samples := Samples(data);
      if stream == Uplink {
        uplinkData := KeepLast(uplinkData, samples, MaxWaveformPoints);
        uplinkQueue := Offer(uplinkQueue, data);
      } else {
        downlinkData := KeepLast(downlinkData, samples, MaxWaveformPoints);
        downlinkQueue := Offer(downlinkQueue, data);
      }
    }

    /** One turn of audio_playback. */
    method PlayNext() returns (played: Option<seq<Byte>>)
      requires Valid()
      modifies this
      ensures Valid()
      ensures var q := old(Of(currentPlaySource).queue);
        && (q == [] ==> played == None && Of(currentPlaySource) == old(Of(currentPlaySource)))
        && (q != [] ==> played == Some(q[0]) && Of(currentPlaySource).queue == q[1..])
      ensures Of(currentPlaySource).window == old(Of(currentPlaySource).window)
      ensures var other := if currentPlaySource == Uplink then Downlink else Uplink;
        Of(other) == old(Of(other))
      ensures currentPlaySource == old(currentPlaySource) && currentUsername == old(currentUsername)
    {
      if currentPlaySource == Uplink {
        if uplinkQueue == [] {
          played := None;
        } else {
          played := Some(uplinkQueue[0]);
          uplinkQueue := uplinkQueue[1..];
        }
      } else {
        if downlinkQueue == [] {
          played := None;
        } else {
          played := Some(downlinkQueue[0]);
          downlinkQueue := downlinkQueue[1..];
        }
      }
    }

    /** on_key_press. */
    method OnKeyPress(key: Option<string>)
      modifies this`currentPlaySource
      ensures currentPlaySource == KeySelect(old(currentPlaySource), key)
    {
      if key == Some("u") || key == Some("U") {
        currentPlaySource := Uplink;
      } else if key == Some("d") || key == Some("D") {
        currentPlaySource := Downlink;
      }
    }
  }
}
