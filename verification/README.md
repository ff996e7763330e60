# Collaborative canvas: a Dafny model of the room engine

This project models the core of a small real-time collaborative whiteboard.
The server keeps one `DrawingState` per room, holding:

- the committed strokes, oldest first;
- a redo stack of undone strokes;
- at most one in-progress stroke per user;
- the user roster.

A `RoomManager` maps room ids to member sets. Socket handlers turn each
inbound event (`user-join`, `draw-start`, `draw`, `draw-end`, `cursor-move`,
`undo`, `redo`, `clear-canvas`, `disconnect`) into state changes plus
outbound messages, each sent to the sender, to the whole room, or to the
room without the sender. The client's `Canvas` builds a local stroke from
chained segments during a press–drag–release gesture. The outcome of that
gesture decides whether the client sends `draw-end`.

Everything is a pure function over immutable datatypes:

| file | module | models |
|---|---|---|
| `common.dfy` | `Common` | optional values, ids, the segment both sides exchange, JavaScript truthiness, decimal rendering of numbers, `Array.from` over a set |
| `drawing_state.dfy` | `Drawing` | `DrawingState` (server/drawing-state.js) |
| `drawing_props.dfy` | `DrawingProps` | operation sequences on one room's state: the invariant, commit order, undo/redo, leaving |
| `rooms.dfy` | `Rooms` | `RoomManager` (server/rooms.js) |
| `server.dfy` | `Server` | `getDrawingState` and the socket handlers (server/server.js), plus a process of many connections |
| `server_props.dfy` | `ServerProps` | the server-wide invariant, the per-connection variables, what each event emits |
| `canvas.dfy` | `Canvas` | the gesture state of the client's `Canvas` (client/canvas.js) |
| `protocol.dfy` | `Protocol` | one client gesture carried through the server handlers |

Modelling choices:

- **The roster.** A JavaScript `Map` keeps insertion order, and that order
  is visible in the `users-update` payload. So the roster is a `seq<User>`
  with unique ids, and `addUser` on a known id overwrites the entry in place.
- **In-progress strokes and rooms.** These are `map`s. server.js never reads
  their order; the order `getAllRooms` lists rooms in is left unstated (see
  below).
- **Room members.** These are `set`s. `getRoomUsers` and `getAllRooms` are
  methods that list each element exactly once. The order of the list is left
  unspecified.
- **Clock and random draw.** `Date.now()` becomes two explicit readings
  (`Clock`): one for the stroke id and one for the timestamp.
  `Math.random()` in `generateColor` becomes a natural number `pick`, and
  the colour is `Palette[pick % 8]`.
- **Connection variables.** The per-connection closure variables
  `currentRoom` and `currentUser` are a `Session` value that every handler
  receives and returns. The room is always `"default"`, because no handler
  ever changes it.
- **Falsy user data.** `userData.color || generateColor()` takes the
  fallback for a missing field and for the empty string; `Truthy` models that.

## Behaviour worth knowing

- **Redo leaves the rest of the redo stack alone.** `redo` pops one
  stroke off the redo stack and leaves the others there. Only a commit
  (`endStroke`) or `clearCanvas` empties the stack (`Drawing.Redo`,
  `Drawing.EndStroke`, `DrawingProps.RedoThenUndo`).
- **A room's drawing state outlives the room.** When the last member
  leaves, `removeUserFromRoom` deletes the room from the directory, but the
  entry in `drawingStates` stays. A later joiner of the same room id is
  sent the old strokes (`ServerProps.DrawingOutlivesEmptyRoom`).
- **Colours come from a random palette draw.** A user without a colour of
  their own gets `Palette[pick % 8]` for a random `pick`
  (`Drawing.PaletteColor`).
- **Default names can repeat.** The number in `User N` is the roster size
  plus one, and the roster shrinks when someone leaves, so a later joiner
  can get the name of a user still present
  (`DrawingProps.DefaultNamesCanRepeat`).
- **Stroke ids repeat only for the same user and clock reading.** A stroke
  id is the clock reading in decimal, a dash and the user id; it
  determines both parts (`Drawing.StrokeIdInjective`), so two strokes of
  one user started within the same millisecond share an id.

## Model

| member | source | states |
|---|---|---|
| Common.NatToStringInjective | server/drawing-state.js:28 | the decimal rendering of a number (as string concatenation renders `Date.now()`) is injective: different readings give different strings |
| Common.SetToSeq | server/rooms.js:40 | `Array.from` over a set lists every element exactly once and nothing else; its length is the set's size |
| Drawing.Empty | server/drawing-state.js:2-7 | a new state has empty history, redo stack, roster and in-progress table, and is valid |
| Drawing.PaletteColor | server/drawing-state.js:81-84 | a generated colour is always one of the eight palette colours |
| Drawing.NewUser | server/drawing-state.js:10-14 | the entry takes the supplied colour and name when truthy; otherwise a palette colour and `User N`, with N one more than the roster size before the call |
| Drawing.AddUser | server/drawing-state.js:9-15 | afterwards the roster entry for the id is that new entry; every other id's entry is unchanged; the id set gains the id; a returning id keeps its roster position and a new id goes last; ids stay unique; strokes, redo stack and in-progress strokes are unchanged |
| Drawing.RemoveUser | server/drawing-state.js:17-20 | the id has no roster entry and no in-progress stroke afterwards; the other in-progress strokes and both stacks are unchanged; the remaining entries come from the old roster and keep unique ids |
| Drawing.RemoveUserKeepsOrder | server/drawing-state.js:17-20 | the roster left after a removal is the old roster with entries dropped, every remaining entry in its old relative order |
| Drawing.WithoutKeepsOrder | server/drawing-state.js:18 | deleting a roster entry leaves the other entries as a subsequence of the old roster, as `Map.delete` keeps insertion order |
| Drawing.RemoveUserKeepsOthers | server/drawing-state.js:17-20 | removing one user leaves every other user's roster entry as it was |
| Drawing.WithoutAbsent | server/drawing-state.js:18 | deleting an id that has no entry leaves the roster unchanged |
| Drawing.GetUsers | server/drawing-state.js:22-24 | the listing holds exactly the roster's ids, in roster (join) order |
| Drawing.GetUsersAgreesWithLookup | server/drawing-state.js:22-24 | the listed roster holds exactly the entries a lookup by id finds |
| Drawing.StartNewStroke | server/drawing-state.js:26-33 | the user gets an empty in-progress stroke owned by them, with the id built from the first clock reading and the user id and the timestamp from the second, replacing any earlier one; other users' strokes, both stacks and the roster are unchanged |
| Drawing.StrokeId | server/drawing-state.js:28 | a stroke id has a dash right after the decimal clock reading |
| Drawing.StrokeIdInjective | server/drawing-state.js:28 | two stroke ids are equal exactly when their clock readings and user ids are both equal |
| Drawing.AddDrawing | server/drawing-state.js:35-38 | the segment goes to the end of the sender's in-progress stroke and nowhere else, keeping that stroke's id, owner and timestamp; without an in-progress stroke nothing changes |
| Drawing.EndStroke | server/drawing-state.js:40-47 | a non-empty in-progress stroke is appended to the history, removed from the in-progress table, and the redo stack is emptied; a missing or empty stroke changes nothing, and an empty one stays in progress |
| Drawing.Undo | server/drawing-state.js:49-56 | with a committed stroke, the newest one moves onto the redo stack and is returned; without one, nothing changes and nothing is returned; the total number of strokes in the two stacks is kept |
| Drawing.Redo | server/drawing-state.js:58-65 | with an undone stroke, the latest one moves back to the end of the history and is returned; without one, nothing changes; the history is never cleared and the total is kept |
| Drawing.ClearCanvas | server/drawing-state.js:67-71 | history, redo stack and in-progress strokes are all emptied; the roster stays |
| Drawing.GetState | server/drawing-state.js:73-75 | the snapshot has one entry per committed stroke, and in a valid state none of them is empty |
| Drawing.GetAllStrokes | server/drawing-state.js:77-79 | `redraw-canvas` carries the same strokes as the snapshot a joiner gets |
| DrawingProps.ApplyPreservesValid | server/drawing-state.js:9-71 | every operation keeps the state valid: unique roster ids, only non-empty strokes in either stack, each in-progress stroke owned by the user it is filed under; only join and leave touch the roster |
| DrawingProps.RunPreservesValid | server/drawing-state.js:9-71 | any sequence of operations keeps the state valid |
| DrawingProps.HistoryIsCommitOrder | server/drawing-state.js:40-47 | without undo, redo or clear, the history grows by exactly the strokes the `endStroke` calls commit, in call order, however different users' segments interleave |
| DrawingProps.GestureCommitsItsSegments | server/drawing-state.js:26-47 | start, then segments, then end commits one stroke owned by the user that holds exactly those segments and empties the redo stack; with no segments nothing is committed |
| DrawingProps.UndoThenRedo | server/drawing-state.js:49-65 | with a non-empty history, undo then redo restores the state exactly, and both move the same stroke |
| DrawingProps.RedoThenUndo | server/drawing-state.js:49-65 | with a non-empty redo stack, redo then undo restores the state exactly |
| DrawingProps.ClearLeavesNothingToUndo | server/drawing-state.js:49-71 | after `clearCanvas`, undo and redo return nothing and change nothing |
| DrawingProps.CommitThenRedoIsNoop | server/drawing-state.js:42-46 | right after a commit there is nothing to redo |
| DrawingProps.EndAfterLeaveIsNoop | server/drawing-state.js:17-20 | once a user is removed, `endStroke` for them changes nothing |
| DrawingProps.NoTraceAfterLeave | server/drawing-state.js:17-47 | a user with no in-progress stroke who never starts a new one has no stroke committed by any later operation |
| DrawingProps.DefaultNamesCanRepeat | server/drawing-state.js:9-20 | for any three distinct ids: if `a` and `b` join a fresh room without names, `a` leaves and `c` joins without a name, then `b` and `c` are both `User 2` |
| DrawingProps.JoinUnnamed | server/drawing-state.js:9-15 | a new id joining without a name or colour goes last in the roster, with a palette colour and the name `User N` for N the old roster size plus one |
| DrawingProps.TwoJoinOneLeaves | server/drawing-state.js:9-20 | after `a` and `b` join a fresh room without names and `a` leaves, the roster is exactly `b` as `User 2` |
| DrawingProps.SnapshotIgnoresInProgress | server/drawing-state.js:73-75 | the snapshot shows committed strokes only; starting a stroke, adding a segment or removing a user leaves it unchanged |
| Rooms.EmptyManager | server/rooms.js:2-4 | a new directory has no rooms, so every room id has no members, and it is well keyed with no empty room |
| Rooms.CreateRoom | server/rooms.js:6-16 | an existing room is returned with the directory unchanged; otherwise an empty room is filed under the id and returned |
| Rooms.GetRoom | server/rooms.js:18-20 | the room is returned exactly when the id is in the directory |
| Rooms.AddUserToRoom | server/rooms.js:22-26 | the room exists afterwards with the user added to its old members; no other room changes; a well-keyed directory without empty rooms stays so |
| Rooms.RemoveUserFromRoom | server/rooms.js:28-36 | the user leaves the room's member set; the room is deleted exactly when that set becomes empty, so afterwards it is absent or non-empty; an unknown id changes nothing; other rooms are unchanged |
| Rooms.GetRoomUsers | server/rooms.js:38-41 | an unknown room gives an empty list; otherwise each member is listed exactly once |
| Rooms.GetAllRooms | server/rooms.js:43-45 | each room id is listed exactly once, and the list length is the room count |
| Rooms.GetRoomCount | server/rooms.js:47-49 | the count is zero exactly when the directory is empty |
| Rooms.CreateRoomIdempotent | server/rooms.js:6-16 | creating a room twice is the same as creating it once |
| Rooms.JoinThenLeaveRestores | server/rooms.js:22-36 | the sole user joining a previously absent room and then leaving it restores the directory exactly |
| Rooms.AddUserToRoomIdempotent | server/rooms.js:22-26 | adding a member twice is the same as adding them once |
| Server.Initial | server/server.js:11-12 | the process starts with an empty directory and no drawing states |
| Server.GetDrawingState | server/server.js:14-19 | a state is created, empty, only for an absent room id; an existing entry is returned with the table unchanged |
| ServerProps.GetDrawingStateIdempotent | server/server.js:14-19 | a second call for the same id returns the state the first created, with the table unchanged |
| Server.OnUserJoin | server/server.js:25-34 | the sender is added to the room's roster and to the directory; the connection remembers its new roster entry; the sender gets `user-id`, then `initial-state` with the committed strokes from before the join; then the whole room gets the new roster |
| Server.OnDrawStart | server/server.js:36-38 | only the sender's in-progress stroke changes, and nothing is sent |
| Server.OnDraw | server/server.js:40-43 | the segment is added to the sender's stroke and relayed to the rest of the room |
| Server.OnDrawEnd | server/server.js:45-47 | the sender's stroke is committed if non-empty, and nothing is sent |
| Server.CursorColor | server/server.js:54 | a cursor relay carries the joined user's colour, or `#000000` for a sender that never joined |
| Server.OnCursorMove | server/server.js:49-56 | no state changes at all; the rest of the room gets the sender's id, position and colour |
| Server.OnUndo | server/server.js:58-63 | the room's newest stroke is undone; if there was one, the whole room gets the remaining history, otherwise nothing is sent |
| Server.OnRedo | server/server.js:65-70 | the room's latest undone stroke is restored; if there was one, the whole room gets the extended history, otherwise nothing is sent |
| Server.OnClearCanvas | server/server.js:72-75 | the room's strokes are cleared with the roster kept, and the whole room is always told |
| Server.OnDisconnect | server/server.js:77-82 | the sender leaves the roster (dropping its in-progress stroke) and the directory; the strokes stay; the room gets the remaining roster |
| Server.Handle | server/server.js:25-82 | each of the nine event names runs the handler registered for it, with that event's payload and the sender's connection variables; the connection stays in its room, and only `user-join` changes the user it remembers |
| ServerProps.HandleStaysInRoom | server/server.js:25-82 | only `user-join` and `disconnect` change the directory, `cursor-move` changes nothing, and no event changes another room's drawing state |
| Server.WorldStep | server/server.js:21-23 | a new connection starts with room `default` and no user; an event runs its connection's handler and updates that connection's variables; after `disconnect` the connection is gone |
| ServerProps.HandlePreservesConsistent | server/server.js:25-82 | every handler keeps the server consistent: the directory is well keyed with no empty room, every listed room has a drawing state, every state is valid, and each room's roster ids are exactly its members |
| ServerProps.OnUserJoinConsistent | server/server.js:25-34 | a join keeps the roster and the directory in step |
| ServerProps.OnDisconnectConsistent | server/server.js:77-82 | a disconnect keeps the roster and the directory in step, including when the room is evicted |
| ServerProps.HandleKeepsOtherSessions | server/server.js:21-82 | a handler for one connection leaves every other connection's remembered user equal to its roster entry |
| ServerProps.WorldStepPreservesOk | server/server.js:21-82 | every input keeps the server consistent and every connection's variables in agreement with it |
| ServerProps.ReachableIsOk | server/server.js:11-82 | every state reachable from start-up is consistent |
| ServerProps.CursorColorIsRosterColor | server/server.js:49-56 | a cursor relay from a joined user carries the colour their roster entry holds; one from a never-joined connection carries `#000000`; nothing changes |
| ServerProps.SilentAndRelayEvents | server/server.js:25-82 | `draw-start` and `draw-end` send nothing; `draw` and `cursor-move` go to the other room members only; `clear-canvas` and `disconnect` go to the whole room; `user-join` answers the sender twice and then tells the whole room; `undo` and `redo` tell the whole room exactly when a stroke moved |
| ServerProps.DrawWithoutStrokeStillRelays | server/server.js:40-43 | a `draw` with no stroke in progress changes nothing but is still relayed |
| ServerProps.EmptyClickCommitsNothing | server/server.js:36-47 | `draw-start` then `draw-end` with nothing between sends nothing and leaves the history and redo stack unchanged |
| ServerProps.UndoThenRedoRestoresRoom | server/server.js:58-70 | `undo` then `redo`, from any two members, restores the room's drawing exactly; the second broadcast carries the history from before the undo |
| ServerProps.UndoOnEmptyHistoryIsSilent | server/server.js:58-63 | `undo` with no committed stroke sends nothing and changes nothing |
| ServerProps.DisconnectMidStrokeLeavesNoTrace | server/server.js:45-82 | disconnecting mid-stroke keeps the history, drops the open stroke, and a late `draw-end` commits nothing |
| ServerProps.DrawingOutlivesEmptyRoom | server/server.js:77-82 | when the last member leaves, the room leaves the directory but its drawing state and strokes remain |
| Canvas.Init | client/canvas.js:2-15 | a new canvas is not drawing, has no strokes, and uses pen, `#000000` and size 5 |
| Canvas.StartDrawing | client/canvas.js:29-41 | drawing turns on, the point becomes the last point, a fresh empty stroke carries the current tool, colour and size, and the call returns true |
| Canvas.Draw | client/canvas.js:43-62 | when not drawing, returns nothing and changes nothing; otherwise returns the segment from the last point to the new one, appends it to the stroke, and makes the new point the last point |
| Canvas.StopDrawing | client/canvas.js:64-73 | returns true exactly when drawing with a non-empty stroke, and then keeps that stroke and drops the current one; drawing is off afterwards either way; on the false path nothing else changes |
| Canvas.ClearCanvas | client/canvas.js:104-107 | the local strokes are forgotten and nothing else changes |
| Canvas.SetTool | client/canvas.js:114-116 | only the tool changes |
| Canvas.SetColor | client/canvas.js:118-120 | only the colour changes |
| Canvas.SetSize | client/canvas.js:122-124 | only the size changes |
| Canvas.DrawAllChains | client/canvas.js:43-62 | moving through points while drawing appends exactly the chain of segments from the last point through them, and those are the segments returned |
| Canvas.ChainThroughIsChained | client/canvas.js:48-60 | each segment of a drag starts where the previous one ended |
| Canvas.GestureKeepsItsChain | client/canvas.js:29-73 | press, moves, release keeps a stroke exactly when there was at least one move, and the kept stroke is the chain from the press point in the settings in force at the press |
| Canvas.PerformAllKeepsValid | client/canvas.js:29-124 | any sequence of gesture and setting calls keeps the stroke chained and ending at the last point |
| Protocol.DrawEventsAppendAndRelay | server/server.js:40-43 | a run of `draw` events extends the sender's stroke by exactly those segments and relays each, in order, to the rest of the room |
| Protocol.ServerGesture | server/server.js:36-47 | `draw-start`, the `draw`s and `draw-end` relay every segment in order and commit one stroke owned by the sender that holds exactly those segments, or nothing when there were none |
| Protocol.GestureReachesServer | client/canvas.js:29-73 | the server commits exactly the stroke the client kept, and the other members see exactly the client's segments; a gesture the client does not keep adds nothing to the history |

## Left out

- client/websocket.js and client/main.js are not part of this model. They
  hold socket wiring, DOM and pointer-event translation, and the random
  names and colours a client proposes. `Protocol` takes the event
  sequence such a client sends as given.
- Rendering (`drawLine`, `drawStroke`, `drawRemoteLine`,
  `redrawAllStrokes`, `setupCanvas`, `getMousePosition`) is not modelled.
  It consists of 2D-context calls and pixel geometry. Points are integers
  taken as already translated into canvas coordinates.
- Express static serving and `http.listen` are not modelled; they are process start-up.
- Transport is not modelled: delivery, ordering across connections and
  `socket.join`. Outbound messages are a list of (recipient kind, message).
- Concurrency is not modelled. Node runs each handler to completion, so
  handlers are atomic steps.
- `Date.now()` and `Math.random()` are parameters (`Clock`, `pick`); their values are unconstrained.
- The `drawings` and `history` fields of a room record are not modelled:
  the code creates them and never reads them.
- Rooms.GetRoomUsers, Rooms.GetAllRooms: the order of the returned lists
  (insertion order in JavaScript) is not stated. Only "each element
  exactly once" is stated.
- Malformed payloads are not modelled. This covers `userData`
  missing entirely (which throws in JavaScript), non-string colours and
  names, and cursor or segment fields of other types.
- Drawing.GetState: its contract states the snapshot's size and that its
  strokes are non-empty, not its contents stroke by stroke. The property
  that it shows committed strokes alone is stated by
  `DrawingProps.SnapshotIgnoresInProgress`.
