/** The socket event handlers of the server. Each handler runs to completion
    before the next event is taken, so each is a pure step from the server
    state, the connection's own variables, the sender and the event to the
    new state and the messages emitted, in emission order. */
module Server {
  import opened Common
  import Drawing
  import Rooms

  /** Every connection starts in, and stays in, this room. */
  const DefaultRoom: RoomId := "default"

  /** The cursor colour relayed for a sender that never joined. */
  const FallbackCursorColor: Color := "#000000"

  /** The process-wide state: the room directory and one drawing state per
      room id ever referenced. */
  datatype Server = Server(rooms: Rooms.RoomManager, states: map<RoomId, Drawing.DrawingState>)

  /** The variables a connection's handlers share: `currentRoom` and
      `currentUser` (the roster entry recorded at the last join). */
  datatype Session = Session(room: RoomId, user: Option<Drawing.User>)

  /** The random draw and clock readings a handler may consume. */
  datatype Env = Env(pick: nat, clock: Drawing.Clock)

  /** Inbound events. */
  datatype Event =
    | UserJoin(data: Drawing.UserData)
    | DrawStart
    | Draw(seg: Segment)
    | DrawEnd
    | CursorMove(x: int, y: int)
    | Undo
    | Redo
    | ClearCanvas
    | Disconnect

  /** Who a message goes to: the sender alone, every socket in the room, or
      every socket in the room except the sender. */
  datatype Recipient = ToSender | ToRoomAll(room: RoomId) | ToRoomOthers(room: RoomId)

  /** Outbound messages, one constructor per event name. */
  datatype Message =
    | UserIdMsg(id: UserId)
    | InitialState(snapshot: Drawing.Snapshot)
    | UsersUpdate(users: seq<Drawing.User>)
    | DrawRelay(seg: Segment)
    | CursorRelay(userId: UserId, x: int, y: int, color: Color)
    | RedrawCanvas(strokes: seq<Drawing.Stroke>)
    | ClearSignal

  datatype Outbound = Outbound(to: Recipient, msg: Message)

  /** The outcome of one handler. */
  datatype Step = Step(server: Server, session: Session, out: seq<Outbound>)

  /** What `getDrawingState` hands back: the table after the call and the
      room's state. */
  datatype Fetched = Fetched(states: map<RoomId, Drawing.DrawingState>, state: Drawing.DrawingState)

  function NewSession(): (s: Session)
    ensures s.room == DefaultRoom && s.user == None
  {
    Session(DefaultRoom, None)
  }

  function Initial(): (srv: Server)
    ensures srv.rooms.rooms == map[] && srv.states == map[]
  {
    Server(Rooms.EmptyManager(), map[])
  }

  /** `getDrawingState`: the room's state, created empty on first reference;
      an existing entry is returned and the table left as it was. */
  function GetDrawingState(states: map<RoomId, Drawing.DrawingState>, roomId: RoomId): (r: Fetched)
    ensures roomId in r.states && r.states[roomId] == r.state
    ensures roomId in states ==> r.states == states && r.state == states[roomId]
    ensures roomId !in states ==> r.states == states[roomId := Drawing.Empty()]
    ensures r.states.Keys == states.Keys + {roomId}
  {
    if roomId in states then Fetched(states, states[roomId])
    else Fetched(states[roomId := Drawing.Empty()], Drawing.Empty())
  }

  /** The room's state as a handler that calls `getDrawingState` sees it. */
  function StateOf(srv: Server, roomId: RoomId): Drawing.DrawingState {
    GetDrawingState(srv.states, roomId).state
  }

  /** Replaces the state of the sender's room, after lazy creation. */
  function WithState(srv: Server, roomId: RoomId, ds: Drawing.DrawingState): (r: Server)
    ensures r.states == srv.states[roomId := ds] && r.rooms == srv.rooms
  {
    srv.(states := GetDrawingState(srv.states, roomId).states[roomId := ds])
  }

  /** `user-join`: adds the sender to the room's roster and to the directory,
      records the roster entry for later cursor relays, tells the sender its
      id and then the committed strokes, and sends the new roster to the
      whole room, sender included. */
  function OnUserJoin(srv: Server, sess: Session, sid: UserId, data: Drawing.UserData, pick: nat): (r: Step)
    ensures sess.room in r.server.states
    ensures var before := StateOf(srv, sess.room);
      var after := r.server.states[sess.room];
      && after == Drawing.AddUser(before, sid, data, pick)
      && r.session.room == sess.room
      && r.session.user == Drawing.Lookup(after.users, sid)
      && r.session.user.Some? && r.session.user.value.id == sid
      && sid in Rooms.Members(r.server.rooms, sess.room)
      && |r.out| == 3
      && r.out[0] == Outbound(ToSender, UserIdMsg(sid))
      && r.out[1] == Outbound(ToSender, InitialState(Drawing.Snapshot(before.strokes)))
      && r.out[2] == Outbound(ToRoomAll(sess.room), UsersUpdate(after.users))
    ensures forall k :: k != sess.room ==> (k in r.server.states <==> k in srv.states)
    ensures forall k :: k in srv.states && k != sess.room ==> r.server.states[k] == srv.states[k]
    ensures r.server.rooms == Rooms.AddUserToRoom(srv.rooms, sess.room, sid).manager
    ensures r.server.states == srv.states[sess.room := r.server.states[sess.room]]
  {
    var before := StateOf(srv, sess.room);
    var ds := Drawing.AddUser(before, sid, data, pick);
    var user := Drawing.Lookup(ds.users, sid);
    assert user == Some(Drawing.NewUser(before, sid, data, pick));
    assert Drawing.GetState(ds) == Drawing.Snapshot(before.strokes);
    var entered := Rooms.AddUserToRoom(srv.rooms, sess.room, sid);
    assert sid in Rooms.Members(entered.manager, sess.room);
    Step(
      WithState(srv, sess.room, ds).(rooms := entered.manager),
      sess.(user := user),
      [ Outbound(ToSender, UserIdMsg(sid)),
        Outbound(ToSender, InitialState(Drawing.GetState(ds))),
        Outbound(ToRoomAll(sess.room), UsersUpdate(Drawing.GetUsers(ds))) ])
  }

  /** `draw-start`: opens a fresh stroke for the sender; nothing is sent. */
  function OnDrawStart(srv: Server, sess: Session, sid: UserId, clock: Drawing.Clock): (r: Step)
    ensures r.server.states == srv.states[sess.room := Drawing.StartNewStroke(StateOf(srv, sess.room), sid, clock)]
    ensures r.server.rooms == srv.rooms && r.session == sess
    ensures r.out == []
  {
    Step(WithState(srv, sess.room, Drawing.StartNewStroke(StateOf(srv, sess.room), sid, clock)), sess, [])
  }

  /** `draw`: adds the segment to the sender's stroke, if one is open, and
      relays it to the rest of the room whether or not it was recorded. */
  function OnDraw(srv: Server, sess: Session, sid: UserId, seg: Segment): (r: Step)
    ensures r.server.states == srv.states[sess.room := Drawing.AddDrawing(StateOf(srv, sess.room), seg, sid)]
    ensures r.server.rooms == srv.rooms && r.session == sess
    ensures r.out == [Outbound(ToRoomOthers(sess.room), DrawRelay(seg))]
  {
    Step(WithState(srv, sess.room, Drawing.AddDrawing(StateOf(srv, sess.room), seg, sid)), sess,
      [Outbound(ToRoomOthers(sess.room), DrawRelay(seg))])
  }

  /** `draw-end`: commits the sender's stroke if it has segments; nothing
      is sent. */
  function OnDrawEnd(srv: Server, sess: Session, sid: UserId): (r: Step)
    ensures r.server.states == srv.states[sess.room := Drawing.EndStroke(StateOf(srv, sess.room), sid)]
    ensures r.server.rooms == srv.rooms && r.session == sess
    ensures r.out == []
  {
    Step(WithState(srv, sess.room, Drawing.EndStroke(StateOf(srv, sess.room), sid)), sess, [])
  }

  /** The colour a cursor relay carries: the sender's colour as recorded at
      join, or the fallback for a sender that never joined. */
  function CursorColor(sess: Session): (c: Color)
    ensures sess.user.Some? ==> c == sess.user.value.color
    ensures sess.user.None? ==> c == FallbackCursorColor
  {
    match sess.user
    case Some(u) => u.color
    case None => FallbackCursorColor
  }

  /** `cursor-move`: touches no state at all (not even lazy creation) and
      relays the position with the sender's id and colour to the rest of
      the room. */
  function OnCursorMove(srv: Server, sess: Session, sid: UserId, x: int, y: int): (r: Step)
    ensures r.server == srv && r.session == sess
    ensures r.out == [Outbound(ToRoomOthers(sess.room), CursorRelay(sid, x, y, CursorColor(sess)))]
  {
    Step(srv, sess, [Outbound(ToRoomOthers(sess.room), CursorRelay(sid, x, y, CursorColor(sess)))])
  }

  /** The broadcast after `undo` or `redo`: the whole history, to the whole
      room, when a stroke moved; nothing otherwise. */
  function RedrawIfMoved(roomId: RoomId, moved: Drawing.Moved): (out: seq<Outbound>)
    ensures moved.stroke.Some? ==> out == [Outbound(ToRoomAll(roomId), RedrawCanvas(moved.state.strokes))]
    ensures moved.stroke.None? ==> out == []
  {
    if moved.stroke.Some? then [Outbound(ToRoomAll(roomId), RedrawCanvas(Drawing.GetAllStrokes(moved.state)))]
    else []
  }

  /** `undo`: pops the room's newest stroke; if there was one, the whole
      room, sender included, receives the remaining history. */
  function OnUndo(srv: Server, sess: Session): (r: Step)
    ensures var before := StateOf(srv, sess.room);
      && r.server.states == srv.states[sess.room := Drawing.Undo(before).state]
      && (|before.strokes| > 0 ==>
            r.out == [Outbound(ToRoomAll(sess.room), RedrawCanvas(before.strokes[..|before.strokes| - 1]))])
      && (|before.strokes| == 0 ==> r.out == [])
    ensures r.server.rooms == srv.rooms && r.session == sess
  {
    var moved := Drawing.Undo(StateOf(srv, sess.room));
    Step(WithState(srv, sess.room, moved.state), sess, RedrawIfMoved(sess.room, moved))
  }

  /** `redo`: restores the room's most recently undone stroke; if there was
      one, the whole room, sender included, receives the history. */
  function OnRedo(srv: Server, sess: Session): (r: Step)
    ensures var before := StateOf(srv, sess.room);
      && r.server.states == srv.states[sess.room := Drawing.Redo(before).state]
      && (|before.undone| > 0 ==>
            r.out == [Outbound(ToRoomAll(sess.room), RedrawCanvas(before.strokes + [before.undone[|before.undone| - 1]]))])
      && (|before.undone| == 0 ==> r.out == [])
    ensures r.server.rooms == srv.rooms && r.session == sess
  {
    var moved := Drawing.Redo(StateOf(srv, sess.room));
    Step(WithState(srv, sess.room, moved.state), sess, RedrawIfMoved(sess.room, moved))
  }

  /** `clear-canvas`: always empties the room's strokes and always tells the
      whole room, sender included. */
  function OnClearCanvas(srv: Server, sess: Session): (r: Step)
    ensures r.server.states == srv.states[sess.room := Drawing.ClearCanvas(StateOf(srv, sess.room))]
    ensures r.server.states[sess.room].strokes == [] && r.server.states[sess.room].undone == []
    ensures r.server.states[sess.room].current == map[]
    ensures r.server.states[sess.room].users == StateOf(srv, sess.room).users
    ensures r.server.rooms == srv.rooms && r.session == sess
    ensures r.out == [Outbound(ToRoomAll(sess.room), ClearSignal)]
  {
    Step(WithState(srv, sess.room, Drawing.ClearCanvas(StateOf(srv, sess.room))), sess,
      [Outbound(ToRoomAll(sess.room), ClearSignal)])
  }

  /** `disconnect`: removes the sender from the room's roster (discarding any
      open stroke) and from the directory, then sends the room the roster
      that is left. The committed strokes stay, even when the room empties. */
  function OnDisconnect(srv: Server, sess: Session, sid: UserId): (r: Step)
    ensures sess.room in r.server.states
    ensures var before := StateOf(srv, sess.room);
      var after := r.server.states[sess.room];
      && after == Drawing.RemoveUser(before, sid)
      && after.strokes == before.strokes && after.undone == before.undone
      && Drawing.Lookup(after.users, sid) == None
      && r.out == [Outbound(ToRoomAll(sess.room), UsersUpdate(after.users))]
    ensures r.server.rooms == Rooms.RemoveUserFromRoom(srv.rooms, sess.room, sid)
    ensures r.server.states == srv.states[sess.room := r.server.states[sess.room]]
    ensures sid !in Rooms.Members(r.server.rooms, sess.room)
    ensures r.session == sess
  {
    var ds := Drawing.RemoveUser(StateOf(srv, sess.room), sid);
    Step(
      WithState(srv, sess.room, ds).(rooms := Rooms.RemoveUserFromRoom(srv.rooms, sess.room, sid)),
      sess,
      [Outbound(ToRoomAll(sess.room), UsersUpdate(Drawing.GetUsers(ds)))])
  }

  /** Dispatches an inbound event to the handler registered for its name,
      passing the sender's connection variables. The connection stays in
      its room, and only `user-join` changes the user it remembers. */
  function Handle(srv: Server, sess: Session, sid: UserId, ev: Event, env: Env): (r: Step)
    ensures r.session.room == sess.room
    ensures !ev.UserJoin? ==> r.session == sess
    ensures ev.UserJoin? ==> r == OnUserJoin(srv, sess, sid, ev.data, env.pick)
    ensures ev.DrawStart? ==> r == OnDrawStart(srv, sess, sid, env.clock)
    ensures ev.Draw? ==> r == OnDraw(srv, sess, sid, ev.seg)
    ensures ev.DrawEnd? ==> r == OnDrawEnd(srv, sess, sid)
    ensures ev.CursorMove? ==> r == OnCursorMove(srv, sess, sid, ev.x, ev.y)
    ensures ev.Undo? ==> r == OnUndo(srv, sess)
    ensures ev.Redo? ==> r == OnRedo(srv, sess)
    ensures ev.ClearCanvas? ==> r == OnClearCanvas(srv, sess)
    ensures ev.Disconnect? ==> r == OnDisconnect(srv, sess, sid)
  {
    match ev
    case UserJoin(data) => OnUserJoin(srv, sess, sid, data, env.pick)
    case DrawStart => OnDrawStart(srv, sess, sid, env.clock)
    case Draw(seg) => OnDraw(srv, sess, sid, seg)
    case DrawEnd => OnDrawEnd(srv, sess, sid)
    case CursorMove(x, y) => OnCursorMove(srv, sess, sid, x, y)
    case Undo => OnUndo(srv, sess)
    case Redo => OnRedo(srv, sess)
    case ClearCanvas => OnClearCanvas(srv, sess)
    case Disconnect => OnDisconnect(srv, sess, sid)
  }

  // ---------------------------------------------------------------------
  // Many connections
  // ---------------------------------------------------------------------

  /** The server together with the variables of every open connection. */
  datatype World = World(server: Server, sessions: map<UserId, Session>)

  /** What reaches the process: a new connection, or an event on one. */
  datatype Input = Connect(sid: UserId) | Receive(sid: UserId, ev: Event, env: Env)

  /** A step of the whole process and the messages it emitted. */
  datatype Tick = Tick(world: World, out: seq<Outbound>)

  function Boot(): (w: World)
    ensures w.sessions == map[]
  {
    World(Initial(), map[])
  }

  /** A connection gets fresh variables; an event runs the handler of its
      connection, and a connection that is not open has no handlers. After
      `disconnect` the connection is gone. */
  function WorldStep(w: World, input: Input): (r: Tick)
    ensures input.Connect? ==> r.world.sessions == w.sessions[input.sid := NewSession()] && r.out == []
    ensures input.Receive? && input.sid !in w.sessions ==> r == Tick(w, [])
    ensures input.Receive? && input.sid in w.sessions ==>
      var step := Handle(w.server, w.sessions[input.sid], input.sid, input.ev, input.env);
      && r.world.server == step.server
      && r.out == step.out
      && (input.ev.Disconnect? ==> r.world.sessions == w.sessions - {input.sid})
      && (!input.ev.Disconnect? ==> r.world.sessions == w.sessions[input.sid := step.session])
  {
    match input
    case Connect(sid) => Tick(w.(sessions := w.sessions[sid := NewSession()]), [])
    case Receive(sid, ev, env) =>
      if sid !in w.sessions then Tick(w, [])
      else
        var step := Handle(w.server, w.sessions[sid], sid, ev, env);
        var sessions := if ev.Disconnect? then w.sessions - {sid} else w.sessions[sid := step.session];
        Tick(World(step.server, sessions), step.out)
  }

  function RunWorld(w: World, inputs: seq<Input>): World
    decreases |inputs|
  {
    if |inputs| == 0 then w else RunWorld(WorldStep(w, inputs[0]).world, inputs[1..])
  }
}
