# Collaborative canvas: cursor interactions and shape-store mutations

This project is a Dafny model of two parts of a multi-user vector-graphics editor:

- **Live cursor layer** (`components/Live.tsx`, modules `Live` and `LiveRun`).
  - The local cursor mode is one of `Hidden`, `Chat(previousMessage, message)`, `ReactionSelector` or `Reaction(reaction, isPressed)`.
  - Beside it is the presence record the participant publishes: an optional cursor and a nullable chat message.
  - The participant also keeps a local list of flying reactions, each with a point, a value and a timestamp in ms.
  - Every handler is a pure step function over the state and the current time `now`. Each returns the new state and what it sent out.
  - The handlers are: key-up, pointer move/down/up/leave, context-menu choice, reaction choice, the 100 ms pressed-reaction tick, the 1000 ms sweep, and receipt of a broadcast.
  - What a handler sends out is either a reaction broadcast or an undo/redo request.
- **Shape store and toolbar dispatch** (`app/App.tsx`, modules `ShapeStore` and `App`).
  - The shared store maps an object id to its serialised shape.
  - `syncShapeInStorage` upserts a shape, `deleteShapeFromStorage` deletes one, and `deleteAllShapes` clears the store and reports success.
  - `handleActiveElement` dispatches on the chosen toolbar element: reset, delete, image, or any other tool.

Timers, `Date.now()`, window listeners, the replication transport and the canvas library are not modelled.
- Timer firings, events and received broadcasts become explicit inputs that carry an integer `now`.
- Broadcasts and undo/redo requests become an output log.
- The canvas's clear and the opening of the image picker become `Effect` values.

Two values come from files that are not part of this model, so they are parameters:
- `defaultNavElement`, from the constants file.
- The ids that the delete helper in `lib/key-events` removes.

`Wrappers.Option` stands for the source's `null`/`undefined`.

As written, `handlePointerUp` sets `isPressed` to `true`, the same as `handlePointerDown`, so releasing the pointer never stops the reaction stream. This is recorded under "## Findings".
- `Live.OnPointerUp` models the handler as written.
- `Live.PressPersistsAfterRelease` shows the consequence.
- `Live.Step` and `LiveRun.Run` take a choice of pointer-up handler:
  - `AsWritten` uses `Live.OnPointerUp`;
  - `Intended` uses the corrected release `Live.OnPointerRelease`, which lowers the flag.
- The run lemmas hold for both choices, except `LiveRun.NoStreamWithoutPress`, which is about the intended one. `LiveRun.ReleaseStartsStreamAsWritten` shows over a run that it fails for the handler as written.

## Model

| member | source | states |
|---|---|---|
| Live.Initial | components/Live.tsx:30-34 | the component starts hidden with no reactions |
| Live.LocalPoint | components/Live.tsx:109-110 | the cursor point is the client position relative to the canvas rectangle's origin |
| Live.SetReaction | components/Live.tsx:36-41 | choosing a reaction enters reaction mode with that reaction, not pressed, from any mode; presence and reactions are untouched |
| Live.OnContextMenu | components/Live.tsx:43-66 | 'Chat' opens chat with a null previous message and an empty message; 'Reactions' opens the selector; 'Undo' and 'Redo' emit exactly one matching request and leave the state unchanged; an unknown item changes nothing |
| Live.OnPointerMove | components/Live.tsx:105-114 | the presence cursor moves to the pointer unless a cursor is shown and the selector is open, in which case nothing changes; the mode and the message are never touched |
| Live.OnPointerLeave | components/Live.tsx:116-120 | leaving always hides the cursor mode and sets both presence cursor and message to null |
| Live.Press | components/Live.tsx:123-126 | the state updater sets the press flag in reaction mode and keeps every other mode as it is |
| Live.OnPointerUp | components/Live.tsx:122-127 | the handler as written: release sets the press flag in reaction mode and never clears it; the presence is untouched |
| Live.Release | components/Live.tsx:122-127 | the corrected state updater lowers the press flag in reaction mode and keeps every other mode as it is |
| Live.OnPointerRelease | components/Live.tsx:122-127 | the corrected release lowers the press flag, so the tick cannot fire afterwards; the presence and reactions are untouched |
| Live.OnPointerDown | components/Live.tsx:129-139 | a press sets the presence cursor to the pointer and sets the press flag in reaction mode; other modes are kept |
| Live.OnKeyUp | components/Live.tsx:142-155 | "/" opens chat, "Escape" hides the cursor mode and sets the message to empty text, "e" opens the selector, and any other key changes nothing |
| Live.OnReactionTick | components/Live.tsx:73-91 | when in reaction mode, pressed and with a cursor, the tick appends one reaction at the cursor with the chosen value and time `now`, and emits one broadcast with the same point and value; otherwise nothing changes and nothing is sent |
| Live.Sweep | components/Live.tsx:69-71 | the sweep keeps exactly the reactions younger than 4000 ms, as a subsequence of the original list, and never adds any |
| Live.OnSweep | components/Live.tsx:69-71 | after a sweep every reaction is fresh, and every fresh reaction is kept |
| Live.Received | components/Live.tsx:96-102 | a received event becomes a reaction with the event's point and value, stamped `now` |
| Live.OnReceive | components/Live.tsx:93-103 | receipt appends exactly one reaction and keeps the earlier ones in place |
| Live.Step | components/Live.tsx:43-155 | pointer-up goes to the press updater as written or to the corrected release, as chosen; each event emits at most one output; an undo (redo) request is emitted exactly for the 'Undo' ('Redo') menu choice; a broadcast exactly for a tick that fires; only tick, sweep and receipt change the reactions; only pointer move, press and leave change the cursor |
| Live.SweepAppend | components/Live.tsx:69-71 | the sweep filters element by element: sweeping a concatenation is concatenating the sweeps |
| Live.SweepKeepsFresh | components/Live.tsx:69-71 | a list of fresh reactions survives the sweep unchanged |
| Live.SweepLater | components/Live.tsx:69-71 | a later sweep subsumes an earlier one, so the sweep is idempotent |
| Live.PressPersistsAfterRelease | components/Live.tsx:122-139 | after a press and a release in reaction mode, the tick still fires and broadcasts |
| Live.ReleaseStopsStream | components/Live.tsx:122-139 | with the corrected release, a press followed by a release in reaction mode leaves the next tick silent and the state unchanged |
| Live.TickEchoesOnReceipt | components/Live.tsx:73-103 | the broadcast a tick sends gives a receiver the same reaction the sender recorded |
| Live.ReactionLifetimeScenario | components/Live.tsx:69-103 | a reaction received at t=0 survives the sweeps at 1000 and 3000 and is gone after the sweep at 4100 |
| LiveRun.Run | components/Live.tsx:43-155 | a run of n events emits at most n outputs, with either pointer-up handler |
| LiveRun.RunCountsHistoryRequests | components/Live.tsx:52-57 | with either pointer-up handler, over any run the undo (redo) requests emitted equal the 'Undo' ('Redo') menu choices made |
| LiveRun.NoBroadcastWithoutCursor | components/Live.tsx:73-120 | with either pointer-up handler and no cursor shown, no reaction is broadcast until a pointer move or press shows the cursor again |
| LiveRun.NoStreamWithoutPress | components/Live.tsx:73-139 | with the corrected release, reactions are broadcast only while the pointer is held down: from a state that is not pressed in reaction mode, nothing is broadcast until a pointer press |
| LiveRun.ReleaseStartsStreamAsWritten | components/Live.tsx:122-127 | with the release as written, from reaction mode not pressed and with a cursor, a pointer-up followed by one tick broadcasts a reaction, although the pointer was never pressed |
| LiveRun.StepKeepsNoFuture | components/Live.tsx:69-103 | no handler records a reaction stamped later than the time it runs at |
| LiveRun.RunKeepsNoFuture | components/Live.tsx:69-103 | with either pointer-up handler, along a run with non-decreasing times, no reaction carries a timestamp after the last event's time |
| ShapeStore.Serialize | app/App.tsx:44-47 | the stored record is the object's JSON form with its id field set to the object's id |
| ShapeStore.SyncShape | app/App.tsx:41-52 | an absent object leaves the store unchanged; otherwise the key set gains the id, the entry for the id is the serialised shape and carries the id, and every other entry is unchanged |
| ShapeStore.DeleteShape | app/App.tsx:60-64 | the id is removed, every other entry is unchanged, and deleting an absent id is a no-op |
| ShapeStore.DeleteShapes | app/App.tsx:60-64 | deleting a list of ids removes exactly those ids and keeps every other entry |
| ShapeStore.DeleteAllShapes | app/App.tsx:66-77 | clear-all always reports success and leaves the store empty, including on an already empty store |
| ShapeStore.SyncIdempotent | app/App.tsx:49-51 | syncing the same object twice gives the store that syncing it once gives |
| ShapeStore.SyncLastWriteWins | app/App.tsx:49-51 | of two syncs of one id, the later replaces the earlier wholesale |
| ShapeStore.SyncDistinctCommute | app/App.tsx:49-51 | syncs of different ids commute |
| ShapeStore.DeleteUndoesFreshSync | app/App.tsx:41-64 | deleting a newly synced id restores the earlier store |
| ShapeStore.ReplayLastWriteWins | app/App.tsx:41-64 | after a sequence of upserts and deletes, each id holds what its last commit wrote, or nothing after a delete, or its original entry if no commit touched it |
| App.InitialSession | app/App.tsx:54-58 | the page starts with an empty active element, no selected tool and the page not drawing; the canvas's drawing mode is the one the canvas set-up gives it |
| App.HandleActiveElement | app/App.tsx:79-108 | every branch records the element's value as the selected tool. Reset empties the store and restores the default element. It clears the canvas only when one is mounted and keeps both drawing flags. Delete removes exactly the selected ids, keeps every other entry and both drawing flags, and restores the default element. Image turns the page's drawing flag off and keeps the element. It turns the canvas's drawing mode off only when a canvas is mounted, and opens the picker only when the image input is mounted. Any other value keeps the element and leaves the store and flags untouched |

## Left out

- Undo/redo history: it comes from the collaboration library (`useUndo`/`useRedo`) and its stacks are not visible; the model records only that a request was emitted.
- Replication, presence fan-out, `useOthers` and broadcast delivery: library and network plumbing. Broadcasts are an output log and receipt is an input.
- Timers, `Date.now()`, window listeners and their cleanup: a tick or sweep is an input carrying `now`.
- Live.Sweep: the source's filter calls `Date.now()` once per element; the model uses one `now` for the whole sweep.
- React closure staleness: the pointer handlers are created with empty or partial dependency lists, so at run time they may read a stale cursor mode or cursor. Each handler is modelled as written, against the current state.
- The key-down handler only prevents the browser's default action for "/" and changes no state.
- Rendering, the context-menu UI, the chat bubble (`CursorChat`, which also edits the message) and the reaction selector's own UI.
- The canvas event wiring and the handlers in `lib/canvas`, `lib/shapes` and `lib/key-events` (app/App.tsx:110-206). Their code is not part of this model. The delete helper is represented only by the ids it deletes.
- The canvas library's `toJSON`: a shape's JSON form is an opaque record carried by the canvas object.
- ShapeStore.DeleteAllShapes: the `!canvasObjects` guard is not modelled, because the store root is always present in the model (the room's initial storage is not part of this model).
- ShapeStore.ReplayLastWriteWins: the store is a `map`, so the insertion order in which the shared map lists entries is not modelled.
- App.HandleActiveElement: `elem` is taken as non-null, as its declared type says.
- Live.LocalPoint: pointer coordinates and the canvas rectangle's origin are doubles in the browser. The model takes them as integers, so it does not model fractional positions or floating-point rounding of the subtraction.
- ShapeStore.SyncShape: a canvas object's `objectId` is taken as a string that is always set. The source reads it from the object without a check, so an object without an id would be stored under an `undefined` key; the model does not represent that case.
- components/RightSideBar.tsx: a UI panel whose only effect goes through `modifyShape` in `lib/shapes`, which is not part of this model.
- app/layout.tsx: fonts, metadata and layout only.

## Findings

| source | as written | input that shows it | evidently intended | confidence | as-written member | corrected member |
|---|---|---|---|---|---|---|
| components/Live.tsx:122-127 | the pointer-up handler sets `isPressed: true` in reaction mode, the same as pointer-down | reaction mode, pointer down, then pointer up: the next 100 ms tick still appends a reaction and broadcasts it | releasing the pointer sets `isPressed: false`, so reactions stream only while the pointer is held down. The pointer-down handler (Live.tsx:129-139) must also list `cursorState.mode` among its dependencies: with its empty list it reads the first render's hidden mode at run time and never raises the flag, so the `false` alone would stop reactions altogether | high that the release does not stop the stream; medium that `false` was intended; not executed | Live.PressPersistsAfterRelease | Live.ReleaseStopsStream |
