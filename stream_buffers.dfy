/** The per-stream state both monitoring servers keep for an audio
    connection: a waveform window built with deque(maxlen=2000) that holds
    the most recent int16 samples, and a playback queue built with
    queue.Queue(maxsize=20) that receives packets with put_nowait, dropping
    a packet when the queue is full. */
module StreamBuffers {
  import opened Bytes
  import opened Wrappers

  /** MAX_WAVEFORM_POINTS. */
  const MaxWaveformPoints: nat := 2000
  /** The maxsize of both playback queues. */
  const QueueCapacity: nat := 20
  /** CHUNK: the most bytes one recv returns in the audio loop. */
  const Chunk: nat := 4096

  /** Which of the two client connections a handler serves. */
  datatype Source = Uplink | Downlink

  /** A stream's waveform window and playback queue. */
  datatype Buffers = Buffers(window: seq<int>, queue: seq<seq<Byte>>)

  ghost predicate Bounded(b: Buffers) {
    |b.window| <= MaxWaveformPoints && |b.queue| <= QueueCapacity
  }

  /** np.frombuffer(data, dtype=np.int16) for an even-length packet, read
      little-endian. */
  function Samples(data: seq<Byte>): (s: seq<int>)
    requires |data| % 2 == 0
    ensures |s| == |data| / 2
    ensures forall k :: 0 <= k < |s| ==> s[k] == Int16LE(data[2 * k], data[2 * k + 1])
    decreases |data|
  {
    if |data| == 0 then []
    else [Int16LE(data[0], data[1])] + Samples(data[2..])
  }

  /** Samples of two packets back to back are the samples of each in turn. */
  lemma {:induction false} SamplesAppend(a: seq<Byte>, b: seq<Byte>)
    requires |a| % 2 == 0 && |b| % 2 == 0
    ensures Samples(a + b) == Samples(a) + Samples(b)
    decreases |a|
  {
    if |a| > 0 {
      assert (a + b)[2..] == a[2..] + b;
      SamplesAppend(a[2..], b);
    }
  }

  /** deque(maxlen).extend: the newest `maxlen` elements of the window
      followed by the added ones. */
  function KeepLast(window: seq<int>, added: seq<int>, maxlen: nat): (r: seq<int>)
    ensures |r| <= maxlen
    ensures |r| == |window| + |added| || |r| == maxlen
  {
    var all := window + added;
    if |all| <= maxlen then all else all[|all| - maxlen..]
  }

  /** The window always holds a suffix of everything appended to it. */
  lemma KeepLastIsSuffix(window: seq<int>, added: seq<int>, maxlen: nat)
    ensures var r := KeepLast(window, added, maxlen);
      r == (window + added)[|window + added| - |r|..]
  {
  }

  /** Extending twice is extending once with both batches: the window is
      the last `maxlen` of the whole history, however it was split. */
  lemma KeepLastTwice(window: seq<int>, a: seq<int>, b: seq<int>, maxlen: nat)
    ensures KeepLast(KeepLast(window, a, maxlen), b, maxlen) == KeepLast(window, a + b, maxlen)
  {
    var w1 := KeepLast(window, a, maxlen);
    var all := window + a + b;
    assert window + (a + b) == all;
    KeepLastIsSuffix(window, a, maxlen);
    assert w1 + b == all[|all| - |w1 + b|..];
    var r := KeepLast(w1, b, maxlen);
    KeepLastIsSuffix(w1, b, maxlen);
    assert r == (w1 + b)[|w1 + b| - |r|..];
    assert r == all[|all| - |r|..];
  }

  /** queue.put_nowait: appended when there is room; queue.Full otherwise,
      which the handler swallows, so the packet is dropped. */
  function Offer(queue: seq<seq<Byte>>, data: seq<Byte>): (q: seq<seq<Byte>>)
    ensures |queue| < QueueCapacity ==> q == queue + [data]
    ensures |queue| >= QueueCapacity ==> q == queue
  {
    if |queue| < QueueCapacity then queue + [data] else queue
  }

  /** What both servers do with an even-length packet: its samples extend
      the window and the raw packet is offered to the queue. */
  function Accept(b: Buffers, data: seq<Byte>): Buffers
    requires |data| % 2 == 0
  {
    Buffers(KeepLast(b.window, Samples(data), MaxWaveformPoints), Offer(b.queue, data))
  }

  lemma AcceptBounded(b: Buffers, data: seq<Byte>)
    requires |data| % 2 == 0 && Bounded(b)
    ensures Bounded(Accept(b, data))
  {
  }

  /** The packets the audio loop processes: those before the first empty
      recv, which ends the loop. */
  function Delivered(packets: seq<seq<Byte>>): (d: seq<seq<Byte>>)
    ensures |d| <= |packets| && d == packets[..|d|]
    ensures forall k :: 0 <= k < |d| ==> d[k] != []
    ensures |d| < |packets| ==> packets[|d|] == []
  {
    if packets == [] || packets[0] == [] then []
    else [packets[0]] + Delivered(packets[1..])
  }

  /** The packets before the first empty recv or the first odd-length
      packet. */
  function DeliveredEven(packets: seq<seq<Byte>>): (d: seq<seq<Byte>>)
    ensures |d| <= |packets| && d == packets[..|d|]
    ensures forall k :: 0 <= k < |d| ==> d[k] != [] && |d[k]| % 2 == 0
    ensures |d| < |packets| ==> packets[|d|] == [] || |packets[|d|]| % 2 != 0
  {
    if packets == [] || packets[0] == [] || |packets[0]| % 2 != 0 then []
    else [packets[0]] + DeliveredEven(packets[1..])
  }

  /** The packets a prefix of the packet list ends at are exactly the ones
      the loop sees when it stops early. */
  lemma {:induction false} DeliveredPrefix(packets: seq<seq<Byte>>, i: nat)
    requires i <= |packets|
    requires forall k :: 0 <= k < i ==> packets[k] != []
    requires i == |packets| || packets[i] == []
    ensures Delivered(packets) == packets[..i]
  {
    if 0 < i {
      DeliveredPrefix(packets[1..], i - 1);
      assert [packets[0]] + packets[1..][..i - 1] == packets[..i];
    }
  }

  lemma {:induction false} DeliveredEvenPrefix(packets: seq<seq<Byte>>, i: nat)
    requires i <= |packets|
    requires forall k :: 0 <= k < i ==> packets[k] != [] && |packets[k]| % 2 == 0
    requires i == |packets| || packets[i] == [] || |packets[i]| % 2 != 0
    ensures DeliveredEven(packets) == packets[..i]
  {
    if 0 < i {
      DeliveredEvenPrefix(packets[1..], i - 1);
      assert [packets[0]] + packets[1..][..i - 1] == packets[..i];
    }
  }

  /** The concatenated samples of a list of even-length packets. */
  function AllSamples(packets: seq<seq<Byte>>): seq<int>
    requires forall k :: 0 <= k < |packets| ==> |packets[k]| % 2 == 0
  {
    if packets == [] then []
    else AllSamples(packets[..|packets| - 1]) + Samples(packets[|packets| - 1])
  }

  /** What the buffers of a stream may hold: a bounded window, and a
      bounded queue of non-empty even-length packets of at most CHUNK
      bytes, so playback only ever writes whole int16 samples. */
  ghost predicate WellFormed(b: Buffers) {
    && |b.window| <= MaxWaveformPoints
    && |b.queue| <= QueueCapacity
    && forall k :: 0 <= k < |b.queue| ==> 0 < |b.queue[k]| <= Chunk && |b.queue[k]| % 2 == 0
  }

  lemma AcceptWellFormed(b: Buffers, data: seq<Byte>)
    requires WellFormed(b) && 0 < |data| <= Chunk && |data| % 2 == 0
    ensures WellFormed(Accept(b, data))
  {
  }

  /** The even-length packets of a list, in order. */
  function Evens(packets: seq<seq<Byte>>): (e: seq<seq<Byte>>)
    ensures forall k :: 0 <= k < |e| ==> |e[k]| % 2 == 0
    ensures |e| <= |packets|
  {
    if packets == [] then []
    else
      var last := packets[|packets| - 1];
      Evens(packets[..|packets| - 1]) + (if |last| % 2 == 0 then [last] else [])
  }

  lemma {:induction false} EvensOfEvens(packets: seq<seq<Byte>>)
    requires forall k :: 0 <= k < |packets| ==> |packets[k]| % 2 == 0
    ensures Evens(packets) == packets
  {
    if packets != [] {
      var init := packets[..|packets| - 1];
      EvensOfEvens(init);
      assert init + [packets[|packets| - 1]] == packets;
    }
  }

  /** Both servers' audio loop over packets that are all accepted. */
  function FoldAccept(b: Buffers, packets: seq<seq<Byte>>): Buffers
    requires forall k :: 0 <= k < |packets| ==> |packets[k]| % 2 == 0
  {
    if packets == [] then b
    else Accept(FoldAccept(b, packets[..|packets| - 1]), packets[|packets| - 1])
  }

  /** The queue keeps packets in arrival order until it is full; every
      later packet is dropped. */
  function Admitted(queue: seq<seq<Byte>>, arrivals: seq<seq<Byte>>): (q: seq<seq<Byte>>)
    requires |queue| <= QueueCapacity
  {
    var all := queue + arrivals;
    all[..if |all| <= QueueCapacity then |all| else QueueCapacity]
  }

  lemma AdmittedStep(queue: seq<seq<Byte>>, arrivals: seq<seq<Byte>>, data: seq<Byte>)
    requires |queue| <= QueueCapacity
    ensures |Admitted(queue, arrivals)| <= QueueCapacity
    ensures Offer(Admitted(queue, arrivals), data) == Admitted(queue, arrivals + [data])
  {
    var all := queue + arrivals;
    assert queue + (arrivals + [data]) == all + [data];
  }

  /** After any run of accepted packets the window holds the newest 2000
      samples of everything received and the queue holds the packets that
      arrived while it had room, oldest first. */
  lemma {:induction false} FoldAcceptContents(b: Buffers, packets: seq<seq<Byte>>)
    requires |b.window| <= MaxWaveformPoints && |b.queue| <= QueueCapacity
    requires forall k :: 0 <= k < |packets| ==> |packets[k]| % 2 == 0
    ensures FoldAccept(b, packets).window == KeepLast(b.window, AllSamples(packets), MaxWaveformPoints)
    ensures FoldAccept(b, packets).queue == Admitted(b.queue, packets)
  {
    if packets == [] {
      assert b.window + [] == b.window;
      assert b.queue + packets == b.queue;
    } else {
      var init, last := packets[..|packets| - 1], packets[|packets| - 1];
      FoldAcceptContents(b, init);
      KeepLastTwice(b.window, AllSamples(init), Samples(last), MaxWaveformPoints);
      AdmittedStep(b.queue, init, last);
      assert init + [last] == packets;
    }
  }

  lemma {:induction false} FoldAcceptWellFormed(b: Buffers, packets: seq<seq<Byte>>)
    requires WellFormed(b)
    requires forall k :: 0 <= k < |packets| ==> 0 < |packets[k]| <= Chunk && |packets[k]| % 2 == 0
    ensures WellFormed(FoldAccept(b, packets))
  {
    if packets != [] {
      FoldAcceptWellFormed(b, packets[..|packets| - 1]);
      AcceptWellFormed(FoldAccept(b, packets[..|packets| - 1]), packets[|packets| - 1]);
    }
  }

  /** on_key_press: u or U selects the uplink, d or D the downlink, and any
      other key (or none) keeps the current source. */
  function KeySelect(current: Source, key: Option<string>): (s: Source)
  {
    if key == Some("u") || key == Some("U") then Uplink
    else if key == Some("d") || key == Some("D") then Downlink
    else current
  }

  /** Only the four switch keys change the source, each always to its own
      side, so pressing a key twice is the same as pressing it once. */
  lemma KeySelectProperties(current: Source, key: Option<string>)
    ensures KeySelect(current, key) != current ==>
      key in {Some("u"), Some("U"), Some("d"), Some("D")}
    ensures KeySelect(KeySelect(current, key), key) == KeySelect(current, key)
    ensures key in {Some("u"), Some("U")} ==> KeySelect(current, key) == Uplink
    ensures key in {Some("d"), Some("D")} ==> KeySelect(current, key) == Downlink
  {
  }
}
