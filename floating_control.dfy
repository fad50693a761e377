/** FloatingControlService.java: the overlay that shows the recording
    status and can be dragged around the screen. Its status is a
    four-state machine driven by the recording service's broadcasts, the
    system audio mode and its own start command; the label and the
    recording animation follow the state when the label is refreshed. The
    overlay's position is kept on screen by clamping. */
module FloatingControl {
  import opened Wrappers
  import opened Bytes

  datatype RecordingState = Idle | Starting | Recording | Stopping

  /** The two label texts the overlay shows. */
  const IdleLabel := "空闲中"
  const RecordingLabel := "录音中"

  /** AudioManager.MODE_NORMAL and MODE_IN_COMMUNICATION. */
  const ModeNormal := 0
  const ModeInCommunication := 3

  /** The broadcast actions the receiver is registered for. */
  datatype Action = RecordingStarted | RecordingStopped | OtherAction(name: string)

  /** What the overlay shows: the state, the label text and whether the
      recording animation is visible and running. */
  datatype Overlay = Overlay(state: RecordingState, statusText: string, animating: bool)

  /** updateRecordButtonUI: IDLE and RECORDING set the label and the
      animation; the other states leave both; without a label view nothing
      happens. */
  function Refresh(o: Overlay, hasLabelView: bool): (r: Overlay)
    ensures r.state == o.state
  {
    if !hasLabelView then o
    else match o.state
      case Idle => o.(statusText := IdleLabel, animating := false)
      case Recording => o.(statusText := RecordingLabel, animating := true)
      case _ => o
  }

  /** The events the overlay reacts to. */
  datatype Event =
    | Broadcast(action: Option<Action>)
    | ModeChanged(mode: int)
    | Command(command: Option<string>)

  /** One event, as the source handles it. */
  function Step(o: Overlay, e: Event, hasLabelView: bool): Overlay {
    match e
      case Broadcast(a) =>
        if a == Some(RecordingStarted) then Refresh(o.(state := Recording), hasLabelView)
        else if a == Some(RecordingStopped) then Refresh(o.(state := Idle), hasLabelView)
        else o
      case ModeChanged(mode) =>
        if mode == ModeInCommunication then Refresh(o.(state := Starting), hasLabelView)
        else if mode == ModeNormal then Refresh(o.(state := Stopping), hasLabelView)
        else o
      case Command(c) =>
        if c == Some(IdleLabel) then Refresh(o.(state := Idle), hasLabelView)
        else if c == Some(RecordingLabel) then Refresh(o, hasLabelView).(state := Recording)
        else o
  }

  /** The label agrees with a state that has a label of its own. */
  predicate LabelConsistent(o: Overlay, hasLabelView: bool) {
    hasLabelView ==>
      (o.state == Idle ==> o.statusText == IdleLabel && !o.animating)
      && (o.state == Recording ==> o.statusText == RecordingLabel && o.animating)
  }

  /** The transitions: broadcasts and audio modes set the state they name
      and ignore anything else. */
  lemma StepTransitions(o: Overlay, e: Event, hasLabelView: bool)
    ensures e == Broadcast(Some(RecordingStarted)) ==> Step(o, e, hasLabelView).state == Recording
    ensures e == Broadcast(Some(RecordingStopped)) ==> Step(o, e, hasLabelView).state == Idle
    ensures e.Broadcast? && (e.action.None? || e.action.value.OtherAction?) ==> Step(o, e, hasLabelView) == o
    ensures e == ModeChanged(ModeInCommunication) ==> Step(o, e, hasLabelView).state == Starting
    ensures e == ModeChanged(ModeNormal) ==> Step(o, e, hasLabelView).state == Stopping
    ensures e.ModeChanged? && e.mode !in {ModeNormal, ModeInCommunication} ==> Step(o, e, hasLabelView) == o
    ensures e.Command? && e.command.Some? && e.command.value in {IdleLabel, RecordingLabel} ==>
      Step(o, e, hasLabelView).state == (if e.command.value == IdleLabel then Idle else Recording)
  {
  }

  /** As written, the "录音中" command refreshes the label before setting
      RECORDING, so an idle overlay ends up recording with the idle label
      and no animation. */
  lemma StaleLabelOnRecordingCommand()
    ensures var o := Overlay(Idle, IdleLabel, false);
      LabelConsistent(o, true)
      && Step(o, Command(Some(RecordingLabel)), true) == Overlay(Recording, IdleLabel, false)
      && !LabelConsistent(Step(o, Command(Some(RecordingLabel)), true), true)
  {
    assert IdleLabel != RecordingLabel;
  }

  /** The evidently intended handler: set the state, then refresh. */
  function StepCorrected(o: Overlay, e: Event, hasLabelView: bool): Overlay {
    if e == Command(Some(RecordingLabel)) then Refresh(o.(state := Recording), hasLabelView)
    else Step(o, e, hasLabelView)
  }

  /** With the corrected handler every event leaves the label consistent
      with the state, whatever it showed before: each handler that enters
      IDLE or RECORDING refreshes the label after setting the state. */
  lemma {:induction false} CorrectedKeepsLabelConsistent(o: Overlay, events: seq<Event>, hasLabelView: bool)
    requires LabelConsistent(o, hasLabelView)
    ensures LabelConsistent(RunCorrected(o, events, hasLabelView), hasLabelView)
  {
    if events != [] {
      var n := |events| - 1;
      CorrectedKeepsLabelConsistent(o, events[..n], hasLabelView);
      CorrectedStepConsistent(RunCorrected(o, events[..n], hasLabelView), events[n], hasLabelView);
    }
  }

  lemma CorrectedStepConsistent(o: Overlay, e: Event, hasLabelView: bool)
    requires LabelConsistent(o, hasLabelView)
    ensures LabelConsistent(StepCorrected(o, e, hasLabelView), hasLabelView)
  {
    assert IdleLabel != RecordingLabel;
  }

  /** The source's handlers keep the label consistent on every event
      except the "录音中" command reaching an overlay that is not already
      recording, the one case where the refresh runs before the state
      changes. */
  lemma StepConsistent(o: Overlay, e: Event, hasLabelView: bool)
    requires LabelConsistent(o, hasLabelView)
    requires e != Command(Some(RecordingLabel)) || o.state == Recording
    ensures LabelConsistent(Step(o, e, hasLabelView), hasLabelView)
  {
    if e != Command(Some(RecordingLabel)) {
      CorrectedStepConsistent(o, e, hasLabelView);
    }
  }

  function RunCorrected(o: Overlay, events: seq<Event>, hasLabelView: bool): Overlay {
    if events == [] then o
    else StepCorrected(RunCorrected(o, events[..|events| - 1], hasLabelView), events[|events| - 1], hasLabelView)
  }

  // ------------------------------------------------------------- positions

  function Max(a: int, b: int): int {
    if a < b then b else a
  }

  function Min(a: int, b: int): int {
    if a < b then a else b
  }

  /** Math.max(0, Math.min(v, hi)). */
  function Clamp(v: int, hi: int): int {
    Max(0, Min(v, hi))
  }

  /** The clamp lands in [0, max(0, hi)], leaves a value already there
      alone, and applying it twice is applying it once. */
  lemma ClampProperties(v: int, hi: int)
    ensures 0 <= Clamp(v, hi) <= Max(0, hi)
    ensures 0 <= v <= hi ==> Clamp(v, hi) == v
    ensures Clamp(Clamp(v, hi), hi) == Clamp(v, hi)
    ensures v <= 0 || hi <= 0 ==> Clamp(v, hi) == 0
  {
  }

  /** Java int addition: the low 32 bits, read as signed. */
  function WrapInt32(n: int): (r: Int32)
    ensures -0x8000_0000 <= n < 0x8000_0000 ==> r == n
    ensures (r - n) % Two32 == 0
  {
    var u := Low32(n);
    if u >= 0x8000_0000 then u - Two32 else u
  }

  class FloatingControlService {
    var currentState: RecordingState
    var statusText: string
    var animating: bool
    /** Whether the status label view was found (statusText != null). */
    const hasLabelView: bool
    /** params.x and params.y, and their values when the drag began. */
    var x: Int32
    var y: Int32
    var initialX: Int32
    var initialY: Int32

    function Shown(): Overlay
      reads this
    {
      Overlay(currentState, statusText, animating)
    }

    /** The overlay as created: IDLE, at (100, 300), showing the label
      from the layout. */
    constructor (layoutLabel: string, hasLabelView: bool)
      ensures Shown() == Overlay(Idle, layoutLabel, false)
      ensures x == 100 && y == 300 && initialX == 0 && initialY == 0
      ensures this.hasLabelView == hasLabelView
    {
      currentState := Idle;
      statusText := layoutLabel;
      animating := false;
      this.hasLabelView := hasLabelView;
      x, y := 100, 300;
      initialX, initialY := 0, 0;
    }

    method UpdateRecordButtonUI()
      modifies this`statusText, this`animating
      ensures Shown() == Refresh(old(Shown()), hasLabelView)
    {
      if !hasLabelView {
        return;
      }
      match currentState {
        case Idle =>
          statusText := IdleLabel;
          animating := false;
        case Recording =>
          statusText := RecordingLabel;
          animating := true;
        case _ =>
      }
    }

    /** The broadcast receiver's onReceive. */
    method OnReceive(action: Option<Action>)
      modifies this`currentState, this`statusText, this`animating
      ensures Shown() == Step(old(Shown()), Broadcast(action), hasLabelView)
      ensures LabelConsistent(old(Shown()), hasLabelView) ==> LabelConsistent(Shown(), hasLabelView)
    {
      if LabelConsistent(Shown(), hasLabelView) {
        CorrectedStepConsistent(Shown(), Broadcast(action), hasLabelView);
      }
      if action.None? {
        return;
      }
      match action.value {
        case RecordingStarted =>
          currentState := Recording;
          UpdateRecordButtonUI();
        case RecordingStopped =>
          currentState := Idle;
          UpdateRecordButtonUI();
        case OtherAction(_) =>
      }
    }

    /** The audio-mode listener. */
    method OnModeChanged(mode: int)
      modifies this`currentState, this`statusText, this`animating
      ensures Shown() == Step(old(Shown()), ModeChanged(mode), hasLabelView)
      ensures LabelConsistent(old(Shown()), hasLabelView) ==> LabelConsistent(Shown(), hasLabelView)
    {
      if LabelConsistent(Shown(), hasLabelView) {
        CorrectedStepConsistent(Shown(), ModeChanged(mode), hasLabelView);
      }
      if mode == ModeInCommunication {
        currentState := Starting;
        UpdateRecordButtonUI();
      } else if mode == ModeNormal {
        currentState := Stopping;
        UpdateRecordButtonUI();
      }
    }

    /** onStartCommand as written: the "空闲中" branch sets IDLE and then
        refreshes the label, while the "录音中" branch refreshes the label
        first and sets RECORDING after it, so the label keeps showing the
        earlier state; always answers START_STICKY (1). */
    method OnStartCommand(command: Option<string>) returns (result: int)
      modifies this`currentState, this`statusText, this`animating
      ensures Shown() == Step(old(Shown()), Command(command), hasLabelView)
      ensures (LabelConsistent(old(Shown()), hasLabelView)
                && (command != Some(RecordingLabel) || old(currentState) == Recording)) ==>
                LabelConsistent(Shown(), hasLabelView)
      ensures result == 1
    {
      if LabelConsistent(Shown(), hasLabelView) && (command != Some(RecordingLabel) || currentState == Recording) {
        StepConsistent(Shown(), Command(command), hasLabelView);
      }
      if command == Some(IdleLabel) {
        currentState := Idle;
        UpdateRecordButtonUI();
      } else if command == Some(RecordingLabel) {
        UpdateRecordButtonUI();
        currentState := Recording;
      }
      result := 1;
    }

    /** ensureWithinScreenBounds: skipped until the view has been
      measured; otherwise each coordinate is clamped to the screen. */
    method EnsureWithinScreenBounds(screenWidth: Int32, screenHeight: Int32, viewWidth: Int32, viewHeight: Int32)
      requires 0 <= screenWidth && 0 <= screenHeight
      modifies this`x, this`y
      ensures viewWidth <= 0 || viewHeight <= 0 ==> x == old(x) && y == old(y)
      ensures viewWidth > 0 && viewHeight > 0 ==>
        x == Clamp(old(x), screenWidth - viewWidth) && y == Clamp(old(y), screenHeight - viewHeight)
      ensures viewWidth > 0 && viewHeight > 0 ==>
        0 <= x <= Max(0, screenWidth - viewWidth) && 0 <= y <= Max(0, screenHeight - viewHeight)
    {
      if viewWidth <= 0 || viewHeight <= 0 {
        return;
      }
      ClampProperties(x, screenWidth - viewWidth);
      ClampProperties(y, screenHeight - viewHeight);
      x := Clamp(x, screenWidth - viewWidth);
      y := Clamp(y, screenHeight - viewHeight);
    }

    /** ACTION_DOWN on the drag handle. */
    method OnTouchDown()
      modifies this`initialX, this`initialY
      ensures initialX == x && initialY == y
    {
      initialX, initialY := x, y;
    }

    /** ACTION_MOVE: the start position plus the (truncated) finger
      offset, in int arithmetic, clamped to [0, max(0, maxX)]. */
    method OnTouchMove(deltaX: Int32, deltaY: Int32, displayWidth: Int32, displayHeight: Int32, viewWidth: Int32, viewHeight: Int32)
      requires 0 <= displayWidth && 0 <= displayHeight && 0 <= viewWidth && 0 <= viewHeight
      modifies this`x, this`y
      ensures x == Clamp(WrapInt32(initialX + deltaX), Max(0, displayWidth - viewWidth))
      ensures y == Clamp(WrapInt32(initialY + deltaY), Max(0, displayHeight - viewHeight))
      ensures 0 <= x <= Max(0, displayWidth - viewWidth) && 0 <= y <= Max(0, displayHeight - viewHeight)
    {
      var maxX := displayWidth - viewWidth;
      var maxY := displayHeight - viewHeight;
      ClampProperties(WrapInt32(initialX + deltaX), Max(0, maxX));
      ClampProperties(WrapInt32(initialY + deltaY), Max(0, maxY));
      x := Clamp(WrapInt32(initialX + deltaX), Max(0, maxX));
      y := Clamp(WrapInt32(initialY + deltaY), Max(0, maxY));
    }
  }

  /** A drag stays on screen and a move inside the allowed area lands
      exactly where the finger went; a second bounds check after a drag on
      the same screen changes nothing. */
  lemma DragThenBoundsCheck(start: int, delta: int, maxX: int)
    requires -0x8000_0000 <= start + delta < 0x8000_0000
    ensures 0 <= start + delta <= maxX ==> Clamp(WrapInt32(start + delta), Max(0, maxX)) == start + delta
    ensures var p := Clamp(WrapInt32(start + delta), Max(0, maxX));
      Clamp(p, maxX) == p || maxX < 0
  {
    ClampProperties(WrapInt32(start + delta), Max(0, maxX));
  }
}
