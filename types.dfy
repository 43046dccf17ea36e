/** Values exchanged by the drawing-board relay: user records, stroke
    segments and the events the relay emits. */
module Types {

  /** A transport connection id (socket.io's `socket.id`). */
  type ConnId = string

  /** A room id, supplied verbatim by the client. */
  type RoomId = string

  /** A pen width as the relay stores it. The relay never inspects it: the
      default is the number 5, while the client sends the value of a range
      input, which is a string. */
  datatype PenSize = Num(n: int) | Text(s: string)

  /** One entry of the registry: `{username, roomId, color, size}`. */
  datatype User = User(username: string, roomId: RoomId, color: string, size: PenSize)

  /** One line segment of a stroke: `{prevX, prevY, x, y, color, size, roomId}`. */
  datatype Segment = Segment(prevX: int, prevY: int, x: int, y: int,
                             color: string, size: PenSize, roomId: RoomId)

  /** The pen a user starts with. */
  const DefaultColor: string := "#000000"
  const DefaultSize: PenSize := Num(5)

  /** Who receives an emitted event: every member of a room's broadcast
      group (`io.to(room)`), or only the calling connection (`socket.emit`). */
  datatype Audience = ToRoom(room: RoomId) | ToCaller(conn: ConnId)

  /** The events the relay sends, with their payloads. */
  datatype Message =
    | UpdateUsers(users: seq<User>)
    | Init(replay: seq<Segment>)
    | DrawEvent(segment: Segment)
    | ClearSignal

  datatype Emit = Emit(to: Audience, msg: Message)
}
