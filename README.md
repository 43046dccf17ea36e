# Drawing-board room relay, modelled in Dafny

This project models the server side of a multi-user drawing board. Clients
join a named room, draw line segments, change their pen, clear the room's
canvas and disconnect. The server keeps two pieces of process-wide state:

- `users`: a map from connection id to `{username, roomId, color, size}`.
- `drawings`: a log of stroke segments, each tagged with its room.

Five socket event handlers change this state and emit events. `setUsername`
sends the room's user list to the room and replays the room's strokes to
the caller. `draw` appends a segment and relays it. `updatePen` changes the
caller's colour and size. `clearCanvas` drops one room's segments.
`disconnect` forgets the caller.

Layout:

- `types.dfy` (module `Types`): users, segments, pen sizes and the emitted
  events (`updateUsers`, `init`, `draw`, `clearCanvas`) with their audience
  (a room, or the calling connection only).
- `views.dfy` (module `Views`): the room filters as functions, with lemmas
  about them. These are the user list of a room in registry order and the
  stroke replay of a room. They also cover the log with a room removed and
  the registry order after a connection is deleted.
- `relay.dfy` (module `Relay`): class `Registry`, with one method per
  handler. Each method returns the events it emits as a value and states
  its whole new state. It also holds the `clearCanvas` handler as written
  (see Findings) and a two-room session that replays the end-to-end
  scenario.

A JavaScript object enumerates its keys in insertion order, and
`Object.values(users)` follows that order. The model therefore keeps
`order: seq<ConnId>` next to the map. Assigning to an existing key keeps
that key's place. Deleting a key and adding it again moves it to the end.
`Registry.Valid()` says that `order` lists every registered connection
exactly once.

## Model

| member | source | states |
|---|---|---|
| Views.SegmentsInRoom | server.js:30 | the replay holds only segments of the requested room, drawn from the log, and every segment of that room in the log appears in it |
| Views.ReplayIsSubsequence | server.js:30 | the replay keeps the log's append order (it is a subsequence of the log) |
| Views.SegmentsInRoomAppend | server.js:30-34 | the replay of a concatenated log is the replay of each part, in order |
| Views.ReplayAfterDraw | server.js:30-34 | after a segment is appended, its room's replay gains exactly that segment at the end and every other room's replay is unchanged |
| Views.WithoutRoom | server.js:47 | the kept log holds exactly the log's segments whose room differs from the cleared one |
| Views.ClearEmptiesRoom | server.js:47 | after clearing a room, its replay is empty |
| Views.ClearKeepsOtherRooms | server.js:47 | clearing one room leaves the replay of every other room unchanged |
| Views.ClearIsSubsequence | server.js:47 | the segments that survive a clear keep their relative order |
| Views.ClearIdempotent | server.js:47 | clearing the same room twice gives the same log as clearing it once |
| Views.ClearRemovesOnlyRoom | server.js:47 | the kept segments plus the room's replay make up the whole log, as a multiset: a clear loses nothing else |
| Views.UsersInRoom | server.js:27 | the `updateUsers` payload has one record per connection of the room's list, in that list's (registry) order, each the connection's current record |
| Views.RoomConns | server.js:27 | a connection is in a room's list exactly when it is registered and its record names that room |
| Views.RoomConnsIsSubsequence | server.js:27 | a room's list follows registry (insertion) order |
| Views.UsersInRoomExact | server.js:27 | every broadcast record belongs to the room and is a current registry record, and every registered connection of the room has its record in the list |
| Views.RoomListLength | server.js:25-27 | the list has one entry per registered connection of the room, so two connections with the same name are two entries |
| Views.RoomConnsAfterJoin | server.js:25-27 | registering a new connection appends it to its own room's list and leaves other rooms' lists unchanged |
| Views.RoomConnsSameRoom | server.js:40-42 | replacing a record without changing its room (a pen update) leaves every room's list of connections unchanged |
| Views.RemoveConn | server.js:55 | deleting a connection removes exactly that id from the registry order and keeps it duplicate-free (order: RemoveConnIsSubsequence) |
| Views.RemoveConnIsSubsequence | server.js:55 | deleting a connection keeps every other connection in its registry order (the result is a subsequence of the old order) |
| Views.RoomConnsAfterLeave | server.js:55-56 | after a delete, every room's list is the old one without the departed connection, the others in their order |
| Relay.ClearCanvasAsWritten | server.js:46-49 | as written, `clearCanvas` throws because the log is a `const` binding, leaves the log as it was and emits nothing |
| Relay.ClearCanvasAsWrittenKeepsStrokes | server.js:46-48 | as written, clearing a room that has a stroke leaves a log that differs from the intended one and still holds the stroke; if the process survives the uncaught TypeError, a later `init` for that room replays it |
| Relay.Registry.constructor | server.js:10-11 | the relay starts with no users, an empty registry order and an empty log |
| Relay.Registry.SetUsername | server.js:24-31 | stores the caller's record with colour `#000000` and size 5, overwriting an earlier one and keeping its registry position; others and the log are unchanged; emits the room's user list, which holds the caller, to the room, then the room's replay to the caller only |
| Relay.Registry.Draw | server.js:33-36 | appends the received segment at the end of the log, leaves users unchanged and relays that same segment to its room |
| Relay.Registry.UpdatePen | server.js:38-44 | an unregistered caller changes nothing and emits nothing; for a registered caller only its colour and size change, and the list of the event's `roomId`, not the stored room, is broadcast |
| Relay.Registry.ClearCanvas | server.js:46-49 | the intended clear: the log becomes the log without the room's segments, the room's replay is empty, users are unchanged, and the room gets the clear signal |
| Relay.Registry.Disconnect | server.js:51-58 | removes only the caller's record and leaves the log unchanged; for an unregistered caller nothing changes; otherwise the departed user's room gets its remaining users, which are the old list without the caller |
| Relay.JoinTwoToRoom1 | server.js:24-27 | two connections joining room1 on a fresh relay leave a valid registry and an empty log, and the list broadcast after the second join has two entries |
| Relay.TwoRoomSession | server.js:24-49 | two joins to room1 give a list of two; a draw is relayed verbatim; a room2 join gets an empty replay; after room1 is cleared with the intended clear (Registry.ClearCanvas, not the throwing handler as written) a new room1 user gets an empty replay and room2's strokes remain |

## Findings

| source | as written | input that shows it | evidently intended | confidence | as-written member | corrected member |
|---|---|---|---|---|---|---|
| server.js:47 | `drawings` is declared `const` (server.js:10), so the assignment `drawings = drawings.filter(...)` throws a TypeError. No segment is removed and the `clearCanvas` broadcast on line 48 is never sent | a log holding one segment of `room1`, then `clearCanvas("room1")`: if the process survives the uncaught TypeError, a later `init` for `room1` still replays that segment; otherwise the server stops and every room's log is lost | replace the log by its segments of other rooms, then signal the room | high; not executed | Relay.ClearCanvasAsWrittenKeepsStrokes | Relay.Registry.ClearCanvas |

The rest of the model uses the corrected `Registry.ClearCanvas`.

## Left out

- The HTTP server, the Next.js request handler and port binding (server.js:1-8, 13-19, 61-65) are I/O plumbing.
- The socket.io transport is not modelled. This covers `socket.join` and delivery by `io.to(...).emit` and `socket.emit`. Emitted events are returned as values that name their audience. Room membership of the transport's broadcast groups is not modelled.
- `console.log` calls (server.js:22, 52) are left out.
- What Node and socket.io do with the uncaught TypeError of `clearCanvas` as written is not modelled. The process may end. The model only records that the handler stops with the log unchanged.
- JavaScript puts integer-like keys first when it enumerates an object. The registry order ignores this, because socket ids are random strings.
- Stroke coordinates are floating-point numbers in the client. The model uses integers, since the relay only stores and forwards them. Pen sizes are a number (the default 5) or a string (the client's range input). The model keeps both forms and never interprets them.
- Malformed payloads are not modelled. An event without `roomId`, or a `setUsername` without a payload, would make JavaScript's destructuring or property access see `undefined` or throw. Every handler here receives well-formed fields.
- Concurrency is not modelled. Handlers run one at a time on Node's event loop, so they are sequential method calls here.
- app/drawingboard.js and app/page.js are not part of this model. They hold React state, canvas rendering and the join form.
