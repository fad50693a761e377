/** VoipRecordService.java: the foreground service that records the call.
    Its lifecycle is a small state machine over `isRecording` and
    `currentCommand`: onStartCommand dispatches the intent's "command"
    (or the previous one when the intent carries none), startRecording
    sets `isRecording` only once every recorder is ready, and
    stopRecording clears it. The per-direction capture thread copies each
    positive read to the local file and, when a server connection exists,
    to the network.

    Android's recorders, the media projection, sockets and threads are not
    modelled as objects: what they report (permission granted, recorder
    built and initialised, each read's bytes, each network write's
    success) is an input. */
module RecordService {
  import opened Wrappers
  import opened Bytes

  /** Service.START_STICKY. */
  const StartSticky := 1

  /** AudioRecord.read's buffer size in recordAudio. */
  const ReadBufferSize := 4096

  /** What startRecording learns from Android, in the order it asks. */
  datatype Recorders = Recorders(
    permissionGranted: bool,     // checkSelfPermission(RECORD_AUDIO)
    playbackSupported: bool,     // the playback-capture builder did not throw
    micInitialized: bool,        // micRecord.getState() == STATE_INITIALIZED
    playbackInitialized: bool)   // playbackRecord.getState() == STATE_INITIALIZED

  /** How a call to startRecording ends. */
  datatype StartOutcome =
    | AlreadyRecording
    | NoPermission
    | PlaybackUnsupported
    | MicNotReady
    | PlaybackNotReady
    | Started

  /** The first check that fails decides the outcome of a start from the
      idle state. */
  function StartOutcomeOf(r: Recorders): StartOutcome {
    if !r.permissionGranted then NoPermission
    else if !r.playbackSupported then PlaybackUnsupported
    else if !r.micInitialized then MicNotReady
    else if !r.playbackInitialized then PlaybackNotReady
    else Started
  }

  /** Recording starts exactly when all four checks pass, and a failed
      start names the first check that failed. */
  lemma StartedIffReady(r: Recorders)
    ensures StartOutcomeOf(r) == Started <==>
      r.permissionGranted && r.playbackSupported && r.micInitialized && r.playbackInitialized
    ensures StartOutcomeOf(r) == PlaybackUnsupported ==> r.permissionGranted
    ensures StartOutcomeOf(r) == PlaybackNotReady ==> r.permissionGranted && r.playbackSupported && r.micInitialized
    ensures StartOutcomeOf(r) != AlreadyRecording
  {
  }

  /** The service's fields as a value. `display` is whether the virtual
      display for screenshots has been created. */
  datatype ServiceState = ServiceState(recording: bool, command: string, server: string, display: bool)

  /** A freshly created service. */
  const Initial := ServiceState(false, "", "", false)

  /** startRecording: a no-op while recording; otherwise the screenshot
      display is created when a server is configured (before any check),
      and recording begins only when every check passes. */
  function Start(s: ServiceState, r: Recorders): ServiceState {
    if s.recording then s
    else s.(display := s.display || s.server != [], recording := StartOutcomeOf(r) == Started)
  }

  /** stopRecording. */
  function Stop(s: ServiceState): ServiceState {
    s.(recording := false)
  }

  /** One onStartCommand call: the intent's "command" extra if present,
      whether a media projection is set, the "server" preference at that
      moment, and what the recorders report. */
  datatype Intent = Intent(command: Option<string>, projectionSet: bool, storedServer: string, recorders: Recorders)

  /** The command onStartCommand acts on. */
  function EffectiveCommand(s: ServiceState, i: Intent): string {
    if i.command.Some? then i.command.value else s.command
  }

  /** onStartCommand as a state transition. */
  function Deliver(s: ServiceState, i: Intent): ServiceState {
    var cmd := EffectiveCommand(s, i);
    var s1 := s.(command := cmd);
    if cmd == "start" then
      var s2 := s1.(server := i.storedServer);
      if i.projectionSet then Start(s2, i.recorders) else s2
    else if cmd == "stop" then Stop(s1)
    else s1
  }

  /** The dispatch promises: "stop" always ends recording; "start" while
      recording changes nothing but the stored server; "start" without a
      projection never starts; any other command leaves recording alone;
      an intent without a command repeats the previous one. */
  lemma DeliverProperties(s: ServiceState, i: Intent)
    ensures EffectiveCommand(s, i) == "stop" ==> !Deliver(s, i).recording
    ensures EffectiveCommand(s, i) == "start" && s.recording ==>
      Deliver(s, i) == s.(command := "start", server := i.storedServer)
    ensures EffectiveCommand(s, i) == "start" && !i.projectionSet ==> Deliver(s, i).recording == s.recording
    ensures EffectiveCommand(s, i) !in {"start", "stop"} ==> Deliver(s, i) == s.(command := EffectiveCommand(s, i))
    ensures i.command.None? ==> Deliver(s, i) == Deliver(s, i.(command := Some(s.command)))
  {
  }

  /** A run of onStartCommand calls. */
  function Run(s: ServiceState, intents: seq<Intent>): ServiceState {
    if intents == [] then s else Deliver(Run(s, intents[..|intents| - 1]), intents[|intents| - 1])
  }

  /** An intent that can begin recording: a "start" (given or repeated)
      with a media projection and every recorder ready. */
  predicate CanStart(s: ServiceState, i: Intent) {
    EffectiveCommand(s, i) == "start" && i.projectionSet && StartOutcomeOf(i.recorders) == Started
  }

  /** One step: recording afterwards means recording before or an intent
      that could start it. */
  lemma DeliverStarts(s: ServiceState, i: Intent)
    ensures Deliver(s, i).recording ==> s.recording || CanStart(s, i)
  {
  }

  /** A service that was not recording is recording after a run only if
      some intent of the run could start it. */
  lemma {:induction false} RecordingNeedsReadyStart(s: ServiceState, intents: seq<Intent>)
    requires !s.recording && Run(s, intents).recording
    ensures exists k :: 0 <= k < |intents| && CanStart(Run(s, intents[..k]), intents[k])
  {
    var n := |intents|;
    var init := intents[..n - 1];
    var before := Run(s, init);
    DeliverStarts(before, intents[n - 1]);
    if CanStart(before, intents[n - 1]) {
      assert intents[..n - 1] == init;
    } else {
      RecordingNeedsReadyStart(s, init);
      var k :| 0 <= k < |init| && CanStart(Run(s, init[..k]), init[k]);
      assert intents[..k] == init[..k];
    }
  }

  /** The intents that create the screenshot display: a "start" with a
      projection and a configured server. */
  predicate CreatesDisplay(s: ServiceState, i: Intent) {
    EffectiveCommand(s, i) == "start" && i.projectionSet && i.storedServer != []
  }

  /** One step: the display exists afterwards when it existed before or
      the intent created it. */
  lemma DeliverDisplay(s: ServiceState, i: Intent)
    ensures Deliver(s, i).display ==> s.display || CreatesDisplay(s, i)
  {
  }

  /** Once created, the screenshot display stays; it is created only by a
      start with a projection and a server configured. */
  lemma {:induction false} DisplayNeedsServer(s: ServiceState, intents: seq<Intent>)
    requires !s.display && Run(s, intents).display
    ensures exists k :: 0 <= k < |intents| && CreatesDisplay(Run(s, intents[..k]), intents[k])
  {
    var n := |intents|;
    var init := intents[..n - 1];
    var before := Run(s, init);
    DeliverDisplay(before, intents[n - 1]);
    if CreatesDisplay(before, intents[n - 1]) {
      assert intents[..n - 1] == init;
    } else {
      DisplayNeedsServer(s, init);
      var k :| 0 <= k < |init| && CreatesDisplay(Run(s, init[..k]), init[k]);
      assert intents[..k] == init[..k];
    }
  }

  /** The service object. */
  class VoipRecordService {
    var isRecording: bool
    var currentCommand: string
    var serverAddress: string
    var hasVirtualDisplay: bool

    function State(): ServiceState
      reads this
    {
      ServiceState(isRecording, currentCommand, serverAddress, hasVirtualDisplay)
    }

    constructor ()
      ensures State() == Initial
    {
      isRecording := false;
      currentCommand := "";
      serverAddress := "";
      hasVirtualDisplay := false;
    }

    /** startRecording. */
    method StartRecording(r: Recorders) returns (outcome: StartOutcome)
      modifies this`isRecording, this`hasVirtualDisplay
      ensures State() == Start(old(State()), r)
      ensures outcome == if old(isRecording) then AlreadyRecording else StartOutcomeOf(r)
    {
      if isRecording {
        return AlreadyRecording;
      }
      if serverAddress != [] {
        hasVirtualDisplay := true;
      }
      if !r.permissionGranted {
        return NoPermission;
      }
      if !r.playbackSupported {
        return PlaybackUnsupported;
      }
      if !r.micInitialized {
        return MicNotReady;
      }
      if !r.playbackInitialized {
        return PlaybackNotReady;
      }
      isRecording := true;
      outcome := Started;
    }

    /** stopRecording; `stopped` is whether there was anything to stop. */
    method StopRecording() returns (stopped: bool)
      modifies this`isRecording
      ensures State() == Stop(old(State()))
      ensures stopped == old(isRecording)
    {
      if !isRecording {
        return false;
      }
      isRecording := false;
      stopped := true;
    }

    /** onStartCommand: always answers START_STICKY. */
    method OnStartCommand(i: Intent) returns (result: int)
      modifies this
      ensures State() == Deliver(old(State()), i)
      ensures result == StartSticky
    {
      if i.command.Some? {
        currentCommand := i.command.value;
      }
      if currentCommand == "start" {
        serverAddress := i.storedServer;
        if i.projectionSet {
          var _ := StartRecording(i.recorders);
        }
      } else if currentCommand == "stop" {
        var _ := StopRecording();
      }
      result := StartSticky;
    }
  }

  // ------------------------------------------------------------ recordAudio

  /** One AudioRecord.read: its return value and the buffer contents it
      produced (the first `count` bytes are the ones read). */
  datatype Read = Read(count: int, buffer: seq<Byte>)

  predicate ValidRead(r: Read) {
    r.count <= |r.buffer| == ReadBufferSize
  }

  /** The bytes a read contributes: buffer[0..count) when count > 0. */
  function Chunk(r: Read): (c: seq<Byte>)
    requires ValidRead(r)
    ensures |c| == if r.count > 0 then r.count else 0
  {
    if r.count > 0 then r.buffer[..r.count] else []
  }

  /** What the local file holds after the reads. */
  function Captured(readings: seq<Read>): seq<Byte>
    requires forall k :: 0 <= k < |readings| ==> ValidRead(readings[k])
  {
    if readings == [] then [] else Captured(readings[..|readings| - 1]) + Chunk(readings[|readings| - 1])
  }

  /** What reaches the server: the chunks whose network write succeeded
      (`netOk[k]` for read k). */
  function Sent(readings: seq<Read>, netOk: seq<bool>): seq<Byte>
    requires |netOk| == |readings|
    requires forall k :: 0 <= k < |readings| ==> ValidRead(readings[k])
  {
    if readings == [] then []
    else
      var n := |readings| - 1;
      Sent(readings[..n], netOk[..n]) + (if netOk[n] then Chunk(readings[n]) else [])
  }

  /** recordAudio over the reads made while recording: returns what the
      file and the network stream received. `hasStream` is whether the
      connection to the server was set up. */
  method RecordAudio(readings: seq<Read>, hasStream: bool, netOk: seq<bool>) returns (file: seq<Byte>, net: seq<Byte>)
    requires |netOk| == |readings|
    requires forall k :: 0 <= k < |readings| ==> ValidRead(readings[k])
    ensures file == Captured(readings)
    ensures net == if hasStream then Sent(readings, netOk) else []
  {
    file, net := [], [];
    var i := 0;
    while i < |readings|
      invariant 0 <= i <= |readings|
      invariant file == Captured(readings[..i])
      invariant net == if hasStream then Sent(readings[..i], netOk[..i]) else []
    {
      var read := readings[i];
      assert readings[..i + 1][..i] == readings[..i] && netOk[..i + 1][..i] == netOk[..i];
      if read.count <= 0 {
        i := i + 1;
        continue;
      }
      file := file + read.buffer[..read.count];
      if hasStream {
        if netOk[i] {
          net := net + read.buffer[..read.count];
        }
      }
      i := i + 1;
    }
    assert readings[..i] == readings && netOk[..i] == netOk;
  }

  /** A read of zero or fewer bytes leaves no trace in the file. */
  lemma {:induction false} CapturedSkipsEmptyReads(readings: seq<Read>, r: Read)
    requires forall k :: 0 <= k < |readings| ==> ValidRead(readings[k])
    requires ValidRead(r) && r.count <= 0
    ensures Captured(readings + [r]) == Captured(readings)
  {
    assert (readings + [r])[..|readings|] == readings;
  }

  /** With every network write succeeding the server receives exactly the
      bytes of the local file. */
  lemma {:induction false} SentAllIsCaptured(readings: seq<Read>, netOk: seq<bool>)
    requires |netOk| == |readings|
    requires forall k :: 0 <= k < |readings| ==> ValidRead(readings[k])
    requires forall k :: 0 <= k < |netOk| ==> netOk[k]
    ensures Sent(readings, netOk) == Captured(readings)
  {
    if readings != [] {
      var n := |readings| - 1;
      SentAllIsCaptured(readings[..n], netOk[..n]);
    }
  }

  /** A failed network write loses only that chunk on the network side:
      the file still receives it, and the chunks after it are still sent. */
  lemma {:induction false} NetworkFailureKeepsFile(readings: seq<Read>, netOk: seq<bool>, r: Read)
    requires |netOk| == |readings|
    requires forall k :: 0 <= k < |readings| ==> ValidRead(readings[k])
    requires ValidRead(r)
    ensures Captured(readings + [r]) == Captured(readings) + Chunk(r)
    ensures Sent(readings + [r], netOk + [false]) == Sent(readings, netOk)
  {
    assert (readings + [r])[..|readings|] == readings;
    assert (netOk + [false])[..|readings|] == netOk;
  }

  /** The server never receives more than the file holds. */
  lemma {:induction false} SentWithinCaptured(readings: seq<Read>, netOk: seq<bool>)
    requires |netOk| == |readings|
    requires forall k :: 0 <= k < |readings| ==> ValidRead(readings[k])
    ensures |Sent(readings, netOk)| <= |Captured(readings)|
  {
    if readings != [] {
      var n := |readings| - 1;
      SentWithinCaptured(readings[..n], netOk[..n]);
    }
  }
}
