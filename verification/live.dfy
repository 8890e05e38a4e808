/** The live-cursor layer of the canvas: the local cursor-interaction state
    machine (hidden, chat, reaction selector, reaction), the presence record
    published to the other participants, and the local collection of flying
    reactions. Every event handler is a pure step function taking the current
    state and the current time in milliseconds; what the handler sends out
    (reaction broadcasts, undo and redo requests) is returned as outputs. */
module Live {
  import opened Wrappers

  /** A reaction is dropped by the sweep once it is this many ms old. */
  const ReactionTtl: int := 4000
  /** Period of the sweep timer, in ms. */
  const SweepPeriod: int := 1000
  /** Period of the pressed-reaction timer, in ms. */
  const TickPeriod: int := 100

  datatype Point = Point(x: int, y: int)

  /** The cursor-interaction mode, tagged by mode. */
  datatype CursorState =
    | Hidden
    | Chat(previousMessage: Option<string>, message: string)
    | ReactionSelector
    | Reaction(reaction: string, isPressed: bool)

  /** The local participant's presence: a cursor (absent when the pointer
      is outside the canvas) and a chat message (null or text). */
  datatype Presence = Presence(cursor: Option<Point>, message: Option<string>)

  /** One flying reaction kept locally until the sweep drops it. */
  datatype ReactionEntry = ReactionEntry(point: Point, value: string, timestamp: int)

  /** The payload of a reaction broadcast. */
  datatype ReactionEvent = ReactionEvent(x: int, y: int, value: string)

  /** What a handler sends out of the component. */
  datatype Output = Broadcast(event: ReactionEvent) | UndoRequest | RedoRequest

  datatype LiveState = LiveState(cursorState: CursorState, presence: Presence, reactions: seq<ReactionEntry>)

  datatype StepResult = StepResult(state: LiveState, outputs: seq<Output>)

  /** A pointer event: its client coordinates and the origin of the canvas
      element's bounding rectangle. */
  datatype PointerEvent = PointerEvent(clientX: int, clientY: int, rectX: int, rectY: int)

  datatype Input =
    | KeyUp(key: string)
    | PointerMove(e: PointerEvent)
    | PointerDown(e: PointerEvent)
    | PointerUp
    | PointerLeave
    | ContextMenuClick(name: string)
    | SelectReaction(reaction: string)
    | ReactionTick
    | SweepTick
    | Receive(event: ReactionEvent)

  /** The state the component starts in, given the presence it is handed. */
  function Initial(presence: Presence): (s: LiveState)
    ensures s.cursorState.Hidden? && s.reactions == [] && s.presence == presence
  {
    LiveState(Hidden, presence, [])
  }

  /** The pointer position relative to the canvas element. */
  function LocalPoint(e: PointerEvent): (p: Point)
    ensures p.x + e.rectX == e.clientX && p.y + e.rectY == e.clientY
  {
    Point(e.clientX - e.rectX, e.clientY - e.rectY)
  }

  /** Picking a reaction in the selector enters reaction mode, not pressed. */
  function SetReaction(s: LiveState, reaction: string): (r: LiveState)
    ensures r.cursorState.Reaction? && r.cursorState.reaction == reaction && !r.cursorState.isPressed
    ensures r.presence == s.presence && r.reactions == s.reactions
  {
    s.(cursorState := Reaction(reaction, false))
  }

  /** The context-menu items the dispatcher recognises. */
  predicate IsMenuItem(name: string) {
    name == "Chat" || name == "Undo" || name == "Redo" || name == "Reactions"
  }

  /** Context-menu dispatch: open chat, request undo or redo, or open the
      reaction selector; any other item does nothing. */
  function OnContextMenu(s: LiveState, name: string): (r: StepResult)
    ensures name == "Chat" ==> r.state == s.(cursorState := Chat(None, "")) && r.outputs == []
    ensures name == "Reactions" ==> r.state == s.(cursorState := ReactionSelector) && r.outputs == []
    ensures name == "Undo" ==> r.state == s && r.outputs == [UndoRequest]
    ensures name == "Redo" ==> r.state == s && r.outputs == [RedoRequest]
    ensures !IsMenuItem(name) ==> r == StepResult(s, [])
    ensures r.state.presence == s.presence && r.state.reactions == s.reactions
  {
    if name == "Chat" then StepResult(s.(cursorState := Chat(None, "")), [])
    else if name == "Undo" then StepResult(s, [UndoRequest])
    else if name == "Redo" then StepResult(s, [RedoRequest])
    else if name == "Reactions" then StepResult(s.(cursorState := ReactionSelector), [])
    else StepResult(s, [])
  }

  /** Whether the pointer-move handler publishes a new cursor: it does not
      when a cursor is already shown and the selector is open. */
  predicate MoveUpdatesCursor(s: LiveState) {
    s.presence.cursor.None? || !s.cursorState.ReactionSelector?
  }

  function OnPointerMove(s: LiveState, e: PointerEvent): (r: LiveState)
    ensures MoveUpdatesCursor(s) ==> r.presence.cursor == Some(LocalPoint(e))
    ensures !MoveUpdatesCursor(s) ==> r == s
    ensures r.cursorState == s.cursorState && r.reactions == s.reactions
    ensures r.presence.message == s.presence.message
  {
    if MoveUpdatesCursor(s) then s.(presence := s.presence.(cursor := Some(LocalPoint(e))))
    else s
  }

  /** Leaving the canvas hides the cursor and clears both presence fields. */
  function OnPointerLeave(s: LiveState): (r: LiveState)
    ensures r.cursorState.Hidden?
    ensures r.presence.cursor.None? && r.presence.message.None?
    ensures r.reactions == s.reactions
  {
    LiveState(Hidden, Presence(None, None), s.reactions)
  }

  /** In reaction mode the press flag is raised; every other mode is kept. */
  function Press(c: CursorState): (r: CursorState)
    ensures r.Reaction? <==> c.Reaction?
    ensures c.Reaction? ==> r.reaction == c.reaction && r.isPressed
    ensures !c.Reaction? ==> r == c
  {
    if c.Reaction? then c.(isPressed := true) else c
  }

  function OnPointerDown(s: LiveState, e: PointerEvent): (r: LiveState)
    ensures r.presence.cursor == Some(LocalPoint(e))
    ensures r.presence.message == s.presence.message
    ensures r.cursorState == Press(s.cursorState)
    ensures r.reactions == s.reactions
  {
    LiveState(Press(s.cursorState), s.presence.(cursor := Some(LocalPoint(e))), s.reactions)
  }

  /** Releasing the pointer also raises the press flag in reaction mode:
      the handler never lowers it. */
  function OnPointerUp(s: LiveState): (r: LiveState)
    ensures r.cursorState == Press(s.cursorState)
    ensures s.cursorState.Reaction? ==> r.cursorState.isPressed
    ensures r.presence == s.presence && r.reactions == s.reactions
  {
    s.(cursorState := Press(s.cursorState))
  }

  /** In reaction mode the press flag is lowered; every other mode is kept. */
  function Release(c: CursorState): (r: CursorState)
    ensures r.Reaction? <==> c.Reaction?
    ensures c.Reaction? ==> r.reaction == c.reaction && !r.isPressed
    ensures !c.Reaction? ==> r == c
  {
    if c.Reaction? then c.(isPressed := false) else c
  }

  /** The release handler as evidently intended: releasing the pointer ends
      the press, so reactions stream only while the pointer is held down.
      `Step` uses it when its pointer-up choice is `Intended`. */
  function OnPointerRelease(s: LiveState): (r: LiveState)
    ensures r.cursorState == Release(s.cursorState)
    ensures !TickFires(r)
    ensures r.presence == s.presence && r.reactions == s.reactions
  {
    s.(cursorState := Release(s.cursorState))
  }

  /** Key-up dispatch: "/" opens chat, "Escape" hides the cursor and blanks
      the published message, "e" opens the reaction selector. */
  function OnKeyUp(s: LiveState, key: string): (r: LiveState)
    ensures key == "/" ==> r == s.(cursorState := Chat(None, ""))
    ensures key == "Escape" ==> r.cursorState.Hidden? && r.presence == s.presence.(message := Some(""))
    ensures key == "e" ==> r == s.(cursorState := ReactionSelector)
    ensures key != "/" && key != "Escape" && key != "e" ==> r == s
    ensures r.reactions == s.reactions && r.presence.cursor == s.presence.cursor
  {
    if key == "/" then s.(cursorState := Chat(None, ""))
    else if key == "Escape" then LiveState(Hidden, s.presence.(message := Some("")), s.reactions)
    else if key == "e" then s.(cursorState := ReactionSelector)
    else s
  }

  /** The 100 ms timer fires only in reaction mode, pressed, with a cursor. */
  predicate TickFires(s: LiveState) {
    s.cursorState.Reaction? && s.cursorState.isPressed && s.presence.cursor.Some?
  }

  /** The pressed-reaction timer: append one reaction at the cursor and
      broadcast the same point and value. */
  function OnReactionTick(s: LiveState, now: int): (r: StepResult)
    ensures TickFires(s) ==>
      && |r.state.reactions| == |s.reactions| + 1
      && r.state.reactions[..|s.reactions|] == s.reactions
      && r.state.reactions[|s.reactions|].point == s.presence.cursor.value
      && r.state.reactions[|s.reactions|].value == s.cursorState.reaction
      && r.state.reactions[|s.reactions|].timestamp == now
      && |r.outputs| == 1 && r.outputs[0].Broadcast?
      && r.outputs[0].event.x == s.presence.cursor.value.x
      && r.outputs[0].event.y == s.presence.cursor.value.y
      && r.outputs[0].event.value == s.cursorState.reaction
    ensures !TickFires(s) ==> r == StepResult(s, [])
    ensures r.state.cursorState == s.cursorState && r.state.presence == s.presence
  {
    if TickFires(s) then
      var p := s.presence.cursor.value;
      var v := s.cursorState.reaction;
      StepResult(s.(reactions := s.reactions + [ReactionEntry(p, v, now)]),
                 [Broadcast(ReactionEvent(p.x, p.y, v))])
    else StepResult(s, [])
  }

  /** A reaction survives the sweep at `now` while it is younger than the TTL. */
  predicate Fresh(e: ReactionEntry, now: int) {
    e.timestamp > now - ReactionTtl
  }

  /** `a` is obtained from `b` by dropping elements, keeping the order. */
  ghost predicate IsSubsequence<T>(a: seq<T>, b: seq<T>)
    decreases |b|
  {
    |a| == 0 || (|b| > 0 && if a[0] == b[0] then IsSubsequence(a[1..], b[1..]) else IsSubsequence(a, b[1..]))
  }

  /** The 1000 ms sweep: keep exactly the fresh reactions, in order. */
  function Sweep(rs: seq<ReactionEntry>, now: int): (r: seq<ReactionEntry>)
    ensures |r| <= |rs|
    ensures forall e :: e in r <==> e in rs && Fresh(e, now)
    ensures IsSubsequence(r, rs)
    decreases |rs|
  {
    if |rs| == 0 then []
    else if Fresh(rs[0], now) then [rs[0]] + Sweep(rs[1..], now)
    else Sweep(rs[1..], now)
  }

  function OnSweep(s: LiveState, now: int): (r: LiveState)
    ensures forall e :: e in r.reactions ==> Fresh(e, now)
    ensures forall e :: e in s.reactions && Fresh(e, now) ==> e in r.reactions
    ensures r.cursorState == s.cursorState && r.presence == s.presence
  {
    s.(reactions := Sweep(s.reactions, now))
  }

  /** The entry a participant records when it receives `ev` at `now`. */
  function Received(ev: ReactionEvent, now: int): (e: ReactionEntry)
    ensures e.point.x == ev.x && e.point.y == ev.y && e.value == ev.value && e.timestamp == now
  {
    ReactionEntry(Point(ev.x, ev.y), ev.value, now)
  }

  /** A received broadcast appends exactly one reaction. */
  function OnReceive(s: LiveState, ev: ReactionEvent, now: int): (r: LiveState)
    ensures |r.reactions| == |s.reactions| + 1
    ensures r.reactions[..|s.reactions|] == s.reactions
    ensures r.reactions[|s.reactions|] == Received(ev, now)
    ensures r.cursorState == s.cursorState && r.presence == s.presence
  {
    s.(reactions := s.reactions + [Received(ev, now)])
  }

  /** Which pointer-up handler a step uses: the release as the component
      writes it (the press flag is raised) or as evidently intended (the
      flag is lowered). */
  datatype UpHandler = AsWritten | Intended

  /** One event through its handler. */
  function Step(s: LiveState, input: Input, now: int, up: UpHandler): (r: StepResult)
    ensures |r.outputs| <= 1
    ensures r.outputs == [UndoRequest] <==> input == ContextMenuClick("Undo")
    ensures r.outputs == [RedoRequest] <==> input == ContextMenuClick("Redo")
    ensures (|r.outputs| == 1 && r.outputs[0].Broadcast?) <==> input.ReactionTick? && TickFires(s)
    ensures r.state.reactions != s.reactions ==> input.ReactionTick? || input.SweepTick? || input.Receive?
    ensures r.state.presence.cursor != s.presence.cursor ==> input.PointerMove? || input.PointerDown? || input.PointerLeave?
    ensures input.PointerUp? && up.AsWritten? ==> r.state.cursorState == Press(s.cursorState)
    ensures input.PointerUp? && up.Intended? ==> r.state.cursorState == Release(s.cursorState)
  {
    match input
    case KeyUp(key) => StepResult(OnKeyUp(s, key), [])
    case PointerMove(e) => StepResult(OnPointerMove(s, e), [])
    case PointerDown(e) => StepResult(OnPointerDown(s, e), [])
    case PointerUp => StepResult(if up.AsWritten? then OnPointerUp(s) else OnPointerRelease(s), [])
    case PointerLeave => StepResult(OnPointerLeave(s), [])
    case ContextMenuClick(name) => OnContextMenu(s, name)
    case SelectReaction(reaction) => StepResult(SetReaction(s, reaction), [])
    case ReactionTick => OnReactionTick(s, now)
    case SweepTick => StepResult(OnSweep(s, now), [])
    case Receive(ev) => StepResult(OnReceive(s, ev, now), [])
  }

  /** The sweep of a concatenation is the concatenation of the sweeps: with
      the one-element cases this pins the sweep down as a filter. */
  lemma {:induction false} SweepAppend(a: seq<ReactionEntry>, b: seq<ReactionEntry>, now: int)
    ensures Sweep(a + b, now) == Sweep(a, now) + Sweep(b, now)
    decreases |a|
  {
    if |a| == 0 {
      assert a + b == b;
    } else {
      assert (a + b)[1..] == a[1..] + b;
      SweepAppend(a[1..], b, now);
    }
  }

  /** Sweeping when every reaction is fresh keeps the list as it is. */
  lemma {:induction false} SweepKeepsFresh(rs: seq<ReactionEntry>, now: int)
    requires forall e :: e in rs ==> Fresh(e, now)
    ensures Sweep(rs, now) == rs
    decreases |rs|
  {
    if |rs| > 0 {
      assert rs[0] in rs;
      assert forall e :: e in rs[1..] ==> e in rs;
      SweepKeepsFresh(rs[1..], now);
      assert [rs[0]] + rs[1..] == rs;
    }
  }

  /** A later sweep subsumes an earlier one; in particular the sweep is
      idempotent. */
  lemma {:induction false} SweepLater(rs: seq<ReactionEntry>, t1: int, t2: int)
    requires t1 <= t2
    ensures Sweep(Sweep(rs, t1), t2) == Sweep(rs, t2)
    decreases |rs|
  {
    if |rs| > 0 {
      SweepLater(rs[1..], t1, t2);
      if Fresh(rs[0], t1) {
        SweepAppend([rs[0]], Sweep(rs[1..], t1), t2);
      }
    }
  }

  /** Releasing the pointer does not stop the stream: after a press and a
      release in reaction mode, the next tick still fires. */
  lemma PressPersistsAfterRelease(s: LiveState, e: PointerEvent)
    requires s.cursorState.Reaction?
    ensures TickFires(OnPointerUp(OnPointerDown(s, e)))
    ensures OnReactionTick(OnPointerUp(OnPointerDown(s, e)), 0).outputs != []
  {
  }

  /** With the intended release, a press followed by a release in reaction
      mode leaves the next tick silent and the state as it was. */
  lemma ReleaseStopsStream(s: LiveState, e: PointerEvent, now: int)
    requires s.cursorState.Reaction?
    ensures var u := OnPointerRelease(OnPointerDown(s, e));
      OnReactionTick(u, now) == StepResult(u, [])
  {
  }

  /** A tick's broadcast, received by another participant at the same
      instant, records the same reaction the sender appended locally. */
  lemma TickEchoesOnReceipt(s: LiveState, other: LiveState, now: int)
    requires TickFires(s)
    ensures var t := OnReactionTick(s, now);
      OnReceive(other, t.outputs[0].event, now).reactions[|other.reactions|] == t.state.reactions[|s.reactions|]
  {
  }

  /** The reaction scenario: received at t=0, still shown by the sweeps at
      t=1000 and t=3000, gone after the sweep at t=4100 (four sweep periods
      and one tick period after it was received). */
  lemma ReactionLifetimeScenario(presence: Presence)
    ensures var s0 := OnReceive(Initial(presence), ReactionEvent(10, 10, "\U{1F525}"), 0);
      var s1 := OnSweep(s0, SweepPeriod);
      var s3 := OnSweep(s1, 3 * SweepPeriod);
      && |s1.reactions| == 1
      && |s3.reactions| == 1
      && OnSweep(s3, 4 * SweepPeriod + TickPeriod).reactions == []
  {
  }
}
