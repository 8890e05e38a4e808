/** Sequences of timed events fed through the live-cursor handlers, and the
    invariants that hold along every such run. */
module LiveRun {
  import opened Wrappers
  import opened Live

  /** An event together with the time, in ms, at which it is handled. */
  datatype TimedInput = TimedInput(input: Input, now: int)

  /** Feed the events one after another; outputs accumulate in order. */
  function Run(s: LiveState, trace: seq<TimedInput>, up: UpHandler): (r: StepResult)
    ensures |r.outputs| <= |trace|
    decreases |trace|
  {
    if |trace| == 0 then StepResult(s, [])
    else
      var first := Step(s, trace[0].input, trace[0].now, up);
      var rest := Run(first.state, trace[1..], up);
      StepResult(rest.state, first.outputs + rest.outputs)
  }

  /** Number of occurrences of `o` in `outs`. */
  function CountOutput(o: Output, outs: seq<Output>): nat
    decreases |outs|
  {
    if |outs| == 0 then 0
    else (if outs[0] == o then 1 else 0) + CountOutput(o, outs[1..])
  }

  /** Number of events in `trace` that are the input `i`. */
  function CountInput(i: Input, trace: seq<TimedInput>): nat
    decreases |trace|
  {
    if |trace| == 0 then 0
    else (if trace[0].input == i then 1 else 0) + CountInput(i, trace[1..])
  }

  lemma {:induction false} CountOutputAppend(o: Output, a: seq<Output>, b: seq<Output>)
    ensures CountOutput(o, a + b) == CountOutput(o, a) + CountOutput(o, b)
    decreases |a|
  {
    if |a| == 0 {
      assert a + b == b;
    } else {
      assert (a + b)[1..] == a[1..] + b;
      CountOutputAppend(o, a[1..], b);
    }
  }

  /** Undo and redo requests: a run emits exactly one per matching
      context-menu click, and no other event emits one. */
  lemma {:induction false} RunCountsHistoryRequests(s: LiveState, trace: seq<TimedInput>, up: UpHandler)
    ensures CountOutput(UndoRequest, Run(s, trace, up).outputs) == CountInput(ContextMenuClick("Undo"), trace)
    ensures CountOutput(RedoRequest, Run(s, trace, up).outputs) == CountInput(ContextMenuClick("Redo"), trace)
    decreases |trace|
  {
    if |trace| > 0 {
      var first := Step(s, trace[0].input, trace[0].now, up);
      RunCountsHistoryRequests(first.state, trace[1..], up);
      CountOutputAppend(UndoRequest, first.outputs, Run(first.state, trace[1..], up).outputs);
      CountOutputAppend(RedoRequest, first.outputs, Run(first.state, trace[1..], up).outputs);
    }
  }

  /** Whether an event can place the cursor on the canvas. */
  predicate ShowsCursor(i: Input) {
    i.PointerMove? || i.PointerDown?
  }

  /** Once the pointer has left, no reaction is broadcast until a pointer
      move or press places the cursor again. */
  lemma {:induction false} NoBroadcastWithoutCursor(s: LiveState, trace: seq<TimedInput>, up: UpHandler)
    requires s.presence.cursor.None?
    requires forall k :: 0 <= k < |trace| ==> !ShowsCursor(trace[k].input)
    ensures forall k :: 0 <= k < |Run(s, trace, up).outputs| ==> !Run(s, trace, up).outputs[k].Broadcast?
    ensures Run(s, trace, up).state.presence.cursor.None?
    decreases |trace|
  {
    if |trace| > 0 {
      var first := Step(s, trace[0].input, trace[0].now, up);
      assert !ShowsCursor(trace[0].input);
      assert first.state.presence.cursor.None?;
      assert forall k :: 0 <= k < |trace[1..]| ==> trace[1..][k] == trace[k + 1];
      NoBroadcastWithoutCursor(first.state, trace[1..], up);
    }
  }

  /** With the intended release, reactions stream only while the pointer is
      held down: from a state that is not pressed in reaction mode, no
      reaction is broadcast until a pointer press. */
  lemma {:induction false} NoStreamWithoutPress(s: LiveState, trace: seq<TimedInput>, up: UpHandler)
    requires up.Intended?
    requires !(s.cursorState.Reaction? && s.cursorState.isPressed)
    requires forall k :: 0 <= k < |trace| ==> !trace[k].input.PointerDown?
    ensures forall k :: 0 <= k < |Run(s, trace, up).outputs| ==> !Run(s, trace, up).outputs[k].Broadcast?
    ensures !(Run(s, trace, up).state.cursorState.Reaction? && Run(s, trace, up).state.cursorState.isPressed)
    decreases |trace|
  {
    if |trace| > 0 {
      var first := Step(s, trace[0].input, trace[0].now, up);
      assert !trace[0].input.PointerDown?;
      assert !(first.state.cursorState.Reaction? && first.state.cursorState.isPressed);
      assert forall k :: 0 <= k < |trace[1..]| ==> trace[1..][k] == trace[k + 1];
      NoStreamWithoutPress(first.state, trace[1..], up);
    }
  }

  /** With the release as written, a release alone starts the stream: from
      reaction mode, not pressed, with a cursor shown, a pointer-up and one
      tick broadcast a reaction although the pointer was never pressed. */
  lemma ReleaseStartsStreamAsWritten(s: LiveState, reaction: string, p: Point)
    requires s.cursorState == Reaction(reaction, false) && s.presence.cursor == Some(p)
    ensures Run(s, [TimedInput(PointerUp, 0), TimedInput(ReactionTick, TickPeriod)], AsWritten).outputs
      == [Broadcast(ReactionEvent(p.x, p.y, reaction))]
  {
    var trace := [TimedInput(PointerUp, 0), TimedInput(ReactionTick, TickPeriod)];
    var s1 := Step(s, PointerUp, 0, AsWritten).state;
    assert s1.cursorState == Reaction(reaction, true) && s1.presence == s.presence;
    assert trace[1..] == [TimedInput(ReactionTick, TickPeriod)];
    assert trace[1..][1..] == [];
  }

  /** No local reaction carries a timestamp later than `now`. */
  ghost predicate NoFutureReactions(s: LiveState, now: int) {
    forall e :: e in s.reactions ==> e.timestamp <= now
  }

  /** Events arrive at times that never go backwards, starting from `t0`. */
  ghost predicate Monotone(trace: seq<TimedInput>, t0: int) {
    && (|trace| > 0 ==> t0 <= trace[0].now)
    && forall k :: 0 < k < |trace| ==> trace[k - 1].now <= trace[k].now
  }

  lemma StepKeepsNoFuture(s: LiveState, i: Input, t0: int, now: int, up: UpHandler)
    requires NoFutureReactions(s, t0) && t0 <= now
    ensures NoFutureReactions(Step(s, i, now, up).state, now)
  {
  }

  /** Along a run with non-decreasing times, the reactions never carry a
      timestamp later than the time of the last event handled. */
  lemma {:induction false} RunKeepsNoFuture(s: LiveState, trace: seq<TimedInput>, t0: int, up: UpHandler)
    requires NoFutureReactions(s, t0)
    requires Monotone(trace, t0)
    ensures NoFutureReactions(Run(s, trace, up).state, if |trace| == 0 then t0 else trace[|trace| - 1].now)
    decreases |trace|
  {
    if |trace| > 0 {
      var first := Step(s, trace[0].input, trace[0].now, up);
      assert t0 <= trace[0].now;
      StepKeepsNoFuture(s, trace[0].input, t0, trace[0].now, up);
      var rest := trace[1..];
      if |rest| > 0 {
        assert rest[0] == trace[1];
      }
      forall k | 0 < k < |rest|
        ensures rest[k - 1].now <= rest[k].now
      {
        assert rest[k] == trace[k + 1] && rest[k - 1] == trace[k];
      }
      RunKeepsNoFuture(first.state, rest, trace[0].now, up);
    }
  }
}
