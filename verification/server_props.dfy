/** Properties of the socket handlers: the invariant that ties each room's
    roster to the room directory, what each event emits, and what the
    connection variables remember. */
module ServerProps {
  import opened Common
  import Drawing
  import DrawingProps
  import Rooms
  import opened Server

  /** What every reachable server state satisfies: the directory is well
      formed and has no empty room; every room in it has a drawing state; and
      every drawing state is valid, with a roster naming exactly the room's
      members. */
  predicate Consistent(srv: Server) {
    && Rooms.WellKeyed(srv.rooms)
    && Rooms.NoEmptyRooms(srv.rooms)
    && srv.rooms.rooms.Keys <= srv.states.Keys
    && forall k :: k in srv.states ==>
         && Drawing.Valid(srv.states[k])
         && Drawing.IdSet(srv.states[k].users) == Rooms.Members(srv.rooms, k)
  }

  /** The state a handler fetches is valid and its roster is the room's
      member set, also when it is created on the spot. */
  lemma StateOfConsistent(srv: Server, roomId: RoomId)
    requires Consistent(srv)
    ensures Drawing.Valid(StateOf(srv, roomId))
    ensures Drawing.IdSet(StateOf(srv, roomId).users) == Rooms.Members(srv.rooms, roomId)
  {
    if roomId !in srv.states {
      assert Drawing.IdSet([]) == {};
    }
  }

  /** `getDrawingState` twice is `getDrawingState` once: the second call
      returns the very state the first created. */
  lemma GetDrawingStateIdempotent(states: map<RoomId, Drawing.DrawingState>, roomId: RoomId)
    ensures var first := GetDrawingState(states, roomId);
      GetDrawingState(first.states, roomId) == first
  {
  }

  /** Replacing one room's state by a valid state with the same roster keeps
      the server consistent. */
  lemma ReplaceKeepsConsistent(srv: Server, roomId: RoomId, ds: Drawing.DrawingState)
    requires Consistent(srv)
    requires Drawing.Valid(ds)
    requires Drawing.IdSet(ds.users) == Rooms.Members(srv.rooms, roomId)
    ensures Consistent(WithState(srv, roomId, ds))
  {
  }

  /** Replacing one room's state and the directory together keeps the
      server consistent when the new roster is the room's new member set and
      no other room's members change. */
  lemma ReplaceWithRoomsKeepsConsistent(srv: Server, roomId: RoomId, ds: Drawing.DrawingState, m: Rooms.RoomManager)
    requires Consistent(srv)
    requires Drawing.Valid(ds)
    requires Rooms.WellKeyed(m) && Rooms.NoEmptyRooms(m)
    requires m.rooms.Keys <= srv.rooms.rooms.Keys + {roomId}
    requires Drawing.IdSet(ds.users) == Rooms.Members(m, roomId)
    requires forall k :: k != roomId ==> Rooms.Members(m, k) == Rooms.Members(srv.rooms, k)
    ensures Consistent(Server(m, srv.states[roomId := ds]))
  {
  }

  /** A join: the room's new roster is the old member set plus the joiner. */
  lemma JoinKeepsConsistent(srv: Server, roomId: RoomId, sid: UserId, ds: Drawing.DrawingState)
    requires Consistent(srv)
    requires Drawing.Valid(ds)
    requires Drawing.IdSet(ds.users) == Rooms.Members(srv.rooms, roomId) + {sid}
    ensures Consistent(Server(Rooms.AddUserToRoom(srv.rooms, roomId, sid).manager, srv.states[roomId := ds]))
  {
    ReplaceWithRoomsKeepsConsistent(srv, roomId, ds, Rooms.AddUserToRoom(srv.rooms, roomId, sid).manager);
  }

  /** A leave: the room's new roster is the old member set minus the leaver. */
  lemma LeaveKeepsConsistent(srv: Server, roomId: RoomId, sid: UserId, ds: Drawing.DrawingState)
    requires Consistent(srv)
    requires Drawing.Valid(ds)
    requires Drawing.IdSet(ds.users) == Rooms.Members(srv.rooms, roomId) - {sid}
    ensures Consistent(Server(Rooms.RemoveUserFromRoom(srv.rooms, roomId, sid), srv.states[roomId := ds]))
  {
    ReplaceWithRoomsKeepsConsistent(srv, roomId, ds, Rooms.RemoveUserFromRoom(srv.rooms, roomId, sid));
  }

  lemma OnUserJoinConsistent(srv: Server, sess: Session, sid: UserId, data: Drawing.UserData, pick: nat)
    requires Consistent(srv)
    ensures Consistent(OnUserJoin(srv, sess, sid, data, pick).server)
  {
    var before := StateOf(srv, sess.room);
    StateOfConsistent(srv, sess.room);
    var ds := Drawing.AddUser(before, sid, data, pick);
    DrawingProps.ApplyPreservesValid(before, DrawingProps.Join(sid, data, pick));
    JoinKeepsConsistent(srv, sess.room, sid, ds);
    var after := OnUserJoin(srv, sess, sid, data, pick).server;
    assert after.states[sess.room] == ds;
  }

  lemma OnDisconnectConsistent(srv: Server, sess: Session, sid: UserId)
    requires Consistent(srv)
    ensures Consistent(OnDisconnect(srv, sess, sid).server)
  {
    var before := StateOf(srv, sess.room);
    StateOfConsistent(srv, sess.room);
    var ds := Drawing.RemoveUser(before, sid);
    DrawingProps.ApplyPreservesValid(before, DrawingProps.Leave(sid));
    LeaveKeepsConsistent(srv, sess.room, sid, ds);
    var after := OnDisconnect(srv, sess, sid).server;
    assert after.states[sess.room] == ds;
  }

  /** An operation that leaves the roster alone keeps the server consistent. */
  lemma StrokeOpConsistent(srv: Server, roomId: RoomId, op: DrawingProps.Op, after: Server)
    requires Consistent(srv)
    requires !(op.Join? || op.Leave?)
    requires after.rooms == srv.rooms
    requires after.states == srv.states[roomId := DrawingProps.Apply(StateOf(srv, roomId), op)]
    ensures Consistent(after)
  {
    StateOfConsistent(srv, roomId);
    DrawingProps.ApplyPreservesValid(StateOf(srv, roomId), op);
    ReplaceKeepsConsistent(srv, roomId, DrawingProps.Apply(StateOf(srv, roomId), op));
    assert after == WithState(srv, roomId, DrawingProps.Apply(StateOf(srv, roomId), op));
  }

  lemma OnDrawStartConsistent(srv: Server, sess: Session, sid: UserId, clock: Drawing.Clock)
    requires Consistent(srv)
    ensures Consistent(OnDrawStart(srv, sess, sid, clock).server)
  {
    StrokeOpConsistent(srv, sess.room, DrawingProps.Begin(sid, clock), OnDrawStart(srv, sess, sid, clock).server);
  }

  lemma OnDrawConsistent(srv: Server, sess: Session, sid: UserId, seg: Segment)
    requires Consistent(srv)
    ensures Consistent(OnDraw(srv, sess, sid, seg).server)
  {
    StrokeOpConsistent(srv, sess.room, DrawingProps.AddSegment(sid, seg), OnDraw(srv, sess, sid, seg).server);
  }

  lemma OnDrawEndConsistent(srv: Server, sess: Session, sid: UserId)
    requires Consistent(srv)
    ensures Consistent(OnDrawEnd(srv, sess, sid).server)
  {
    StrokeOpConsistent(srv, sess.room, DrawingProps.End(sid), OnDrawEnd(srv, sess, sid).server);
  }

  lemma OnUndoConsistent(srv: Server, sess: Session)
    requires Consistent(srv)
    ensures Consistent(OnUndo(srv, sess).server)
  {
    StrokeOpConsistent(srv, sess.room, DrawingProps.UndoOp, OnUndo(srv, sess).server);
  }

  lemma OnRedoConsistent(srv: Server, sess: Session)
    requires Consistent(srv)
    ensures Consistent(OnRedo(srv, sess).server)
  {
    StrokeOpConsistent(srv, sess.room, DrawingProps.RedoOp, OnRedo(srv, sess).server);
  }

  lemma OnClearCanvasConsistent(srv: Server, sess: Session)
    requires Consistent(srv)
    ensures Consistent(OnClearCanvas(srv, sess).server)
  {
    StrokeOpConsistent(srv, sess.room, DrawingProps.Clear, OnClearCanvas(srv, sess).server);
  }

  /** Every handler keeps the server consistent. */
  lemma HandlePreservesConsistent(srv: Server, sess: Session, sid: UserId, ev: Event, env: Env)
    requires Consistent(srv)
    ensures Consistent(Handle(srv, sess, sid, ev, env).server)
  {
    match ev
    case UserJoin(data) => OnUserJoinConsistent(srv, sess, sid, data, env.pick);
    case DrawStart => OnDrawStartConsistent(srv, sess, sid, env.clock);
    case Draw(seg) => OnDrawConsistent(srv, sess, sid, seg);
    case DrawEnd => OnDrawEndConsistent(srv, sess, sid);
    case CursorMove(x, y) =>
    case Undo => OnUndoConsistent(srv, sess);
    case Redo => OnRedoConsistent(srv, sess);
    case ClearCanvas => OnClearCanvasConsistent(srv, sess);
    case Disconnect => OnDisconnectConsistent(srv, sess, sid);
  }

  // ---------------------------------------------------------------------
  // Connection variables
  // ---------------------------------------------------------------------

  /** A connection's variables agree with the server: it is in the default
      room, and the user it recorded at join is still its roster entry. */
  predicate SessionOk(srv: Server, sid: UserId, sess: Session) {
    && sess.room == DefaultRoom
    && (sess.user.Some? ==> sess.room in srv.states && Drawing.Lookup(srv.states[sess.room].users, sid) == sess.user)
  }

  predicate WorldOk(w: World) {
    && Consistent(w.server)
    && forall sid :: sid in w.sessions ==> SessionOk(w.server, sid, w.sessions[sid])
  }

  /** Events other than join and disconnect leave every roster as it was
      and never delete a drawing state. */
  lemma HandleKeepsRosters(srv: Server, sess: Session, sid: UserId, ev: Event, env: Env)
    requires !ev.UserJoin? && !ev.Disconnect?
    ensures var r := Handle(srv, sess, sid, ev, env).server;
      && srv.states.Keys <= r.states.Keys
      && forall k :: k in srv.states ==> r.states[k].users == srv.states[k].users
  {
  }

  /** A handler run for one connection leaves the recorded user of every
      other connection valid. */
  lemma HandleKeepsOtherSessions(srv: Server, sess: Session, sid: UserId, ev: Event, env: Env,
                                 other: UserId, osess: Session)
    requires Consistent(srv)
    requires other != sid
    requires sess.room == DefaultRoom
    requires SessionOk(srv, other, osess)
    ensures SessionOk(Handle(srv, sess, sid, ev, env).server, other, osess)
  {
    var r := Handle(srv, sess, sid, ev, env).server;
    if osess.user.Some? {
      var before := StateOf(srv, sess.room);
      StateOfConsistent(srv, sess.room);
      match ev
      case UserJoin(data) =>
        assert r.states[sess.room] == Drawing.AddUser(before, sid, data, env.pick);
      case Disconnect =>
        assert r.states[sess.room] == Drawing.RemoveUser(before, sid);
        Drawing.RemoveUserKeepsOthers(before, sid, other);
      case _ =>
        HandleKeepsRosters(srv, sess, sid, ev, env);
    }
  }

  /** The handler run for a connection leaves its own variables valid. */
  lemma HandleKeepsOwnSession(srv: Server, sess: Session, sid: UserId, ev: Event, env: Env)
    requires Consistent(srv)
    requires SessionOk(srv, sid, sess)
    requires !ev.Disconnect?
    ensures SessionOk(Handle(srv, sess, sid, ev, env).server, sid, Handle(srv, sess, sid, ev, env).session)
  {
    if !ev.UserJoin? {
      HandleKeepsRosters(srv, sess, sid, ev, env);
    }
  }

  /** Every input keeps the whole process consistent. */
  lemma WorldStepPreservesOk(w: World, input: Input)
    requires WorldOk(w)
    ensures WorldOk(WorldStep(w, input).world)
  {
    match input
    case Connect(sid) =>
    case Receive(sid, ev, env) =>
      if sid in w.sessions {
        var sess := w.sessions[sid];
        var step := Handle(w.server, sess, sid, ev, env);
        var r := WorldStep(w, input).world;
        HandlePreservesConsistent(w.server, sess, sid, ev, env);
        forall other | other in r.sessions
          ensures SessionOk(r.server, other, r.sessions[other])
        {
          if other == sid {
            HandleKeepsOwnSession(w.server, sess, sid, ev, env);
          } else {
            HandleKeepsOtherSessions(w.server, sess, sid, ev, env, other, w.sessions[other]);
          }
        }
      }
  }

  lemma {:induction false} RunWorldPreservesOk(w: World, inputs: seq<Input>)
    requires WorldOk(w)
    ensures WorldOk(RunWorld(w, inputs))
    decreases |inputs|
  {
    if |inputs| > 0 {
      WorldStepPreservesOk(w, inputs[0]);
      RunWorldPreservesOk(WorldStep(w, inputs[0]).world, inputs[1..]);
    }
  }

  /** Every state the process can reach from boot is consistent. */
  lemma ReachableIsOk(inputs: seq<Input>)
    ensures WorldOk(RunWorld(Boot(), inputs))
  {
    RunWorldPreservesOk(Boot(), inputs);
  }

  // ---------------------------------------------------------------------
  // What each event emits
  // ---------------------------------------------------------------------

  /** A cursor relay from a user who joined carries that user's colour as the
      roster holds it; one from a connection that never joined carries the
      fallback colour. */
  lemma CursorColorIsRosterColor(w: World, sid: UserId, x: int, y: int, env: Env)
    requires WorldOk(w)
    requires sid in w.sessions
    ensures var sess := w.sessions[sid];
      var out := WorldStep(w, Receive(sid, CursorMove(x, y), env)).out;
      && |out| == 1
      && out[0].to == ToRoomOthers(DefaultRoom)
      && out[0].msg.userId == sid
      && (sess.user.Some? ==>
            && DefaultRoom in w.server.states
            && Drawing.Lookup(w.server.states[DefaultRoom].users, sid).Some?
            && out[0].msg.color == Drawing.Lookup(w.server.states[DefaultRoom].users, sid).value.color)
      && (sess.user.None? ==> out[0].msg.color == FallbackCursorColor)
    ensures WorldStep(w, Receive(sid, CursorMove(x, y), env)).world == w
  {
    var sess := w.sessions[sid];
    assert w.sessions[sid := sess] == w.sessions;
  }

  /** Whatever the event, only the sender's room is affected: only
      `user-join` and `disconnect` touch the directory, `cursor-move` touches
      nothing, and every other room's drawing state is left as it was. */
  lemma HandleStaysInRoom(srv: Server, sess: Session, sid: UserId, ev: Event, env: Env)
    ensures var r := Handle(srv, sess, sid, ev, env);
      && (!(ev.UserJoin? || ev.Disconnect?) ==> r.server.rooms == srv.rooms)
      && (ev.CursorMove? ==> r.server == srv)
      && (!ev.CursorMove? ==>
            sess.room in r.server.states && r.server.states == srv.states[sess.room := r.server.states[sess.room]])
  {
    match ev
    case UserJoin(data) =>
    case DrawStart =>
    case Draw(seg) =>
    case DrawEnd =>
    case CursorMove(x, y) =>
    case Undo =>
    case Redo =>
    case ClearCanvas =>
    case Disconnect =>
  }

  /** Who hears about each event. `draw-start` and `draw-end` are silent;
      `draw` and `cursor-move` go only to the other members of the room;
      `clear-canvas` and `disconnect` go to the whole room; `user-join`
      answers the sender twice and then tells the whole room; `undo` and
      `redo` tell the whole room exactly when a stroke moved, and are silent
      otherwise. */
  lemma SilentAndRelayEvents(srv: Server, sess: Session, sid: UserId, ev: Event, env: Env)
    ensures ev.DrawStart? || ev.DrawEnd? ==> Handle(srv, sess, sid, ev, env).out == []
    ensures ev.Draw? || ev.CursorMove? ==>
      var out := Handle(srv, sess, sid, ev, env).out;
      |out| == 1 && out[0].to == ToRoomOthers(sess.room)
    ensures ev.ClearCanvas? || ev.Disconnect? ==>
      var out := Handle(srv, sess, sid, ev, env).out;
      |out| == 1 && out[0].to == ToRoomAll(sess.room)
    ensures ev.UserJoin? ==>
      var out := Handle(srv, sess, sid, ev, env).out;
      |out| == 3 && out[0].to == ToSender && out[1].to == ToSender && out[2].to == ToRoomAll(sess.room)
    ensures ev.Undo? ==>
      var out := Handle(srv, sess, sid, ev, env).out;
      && (|StateOf(srv, sess.room).strokes| > 0 <==> out != [])
      && (out != [] ==> |out| == 1 && out[0].to == ToRoomAll(sess.room))
    ensures ev.Redo? ==>
      var out := Handle(srv, sess, sid, ev, env).out;
      && (|StateOf(srv, sess.room).undone| > 0 <==> out != [])
      && (out != [] ==> |out| == 1 && out[0].to == ToRoomAll(sess.room))
  {
  }

  /** `draw` relays the segment even when the sender has no stroke open, and
      then the room's drawing is untouched. */
  lemma DrawWithoutStrokeStillRelays(srv: Server, sess: Session, sid: UserId, seg: Segment, env: Env)
    requires sess.room in srv.states
    requires sid !in srv.states[sess.room].current
    ensures Handle(srv, sess, sid, Draw(seg), env).server == srv
    ensures Handle(srv, sess, sid, Draw(seg), env).out == [Outbound(ToRoomOthers(sess.room), DrawRelay(seg))]
  {
    var ds := srv.states[sess.room];
    assert srv.states[sess.room := ds] == srv.states;
  }

  /** A click without a drag (`draw-start` then `draw-end` with no `draw`
      between) adds nothing to the history and sends nothing. */
  lemma EmptyClickCommitsNothing(srv: Server, sess: Session, sid: UserId, env1: Env, env2: Env)
    ensures var s1 := Handle(srv, sess, sid, DrawStart, env1);
      var s2 := Handle(s1.server, s1.session, sid, DrawEnd, env2);
      && s1.out == [] && s2.out == []
      && s2.server.states[sess.room].strokes == StateOf(srv, sess.room).strokes
      && s2.server.states[sess.room].undone == StateOf(srv, sess.room).undone
  {
    var s1 := Handle(srv, sess, sid, DrawStart, env1);
    assert StateOf(s1.server, sess.room) == Drawing.StartNewStroke(StateOf(srv, sess.room), sid, env1.clock);
  }

  /** `undo` then `redo` from any two members of the room gives back the
      room's drawing exactly; both broadcast the whole history to the whole
      room, and the second broadcast carries the history from before the
      undo. */
  lemma UndoThenRedoRestoresRoom(srv: Server, sess1: Session, sess2: Session, sid1: UserId, sid2: UserId, env1: Env, env2: Env)
    requires sess1.room == sess2.room
    requires |StateOf(srv, sess1.room).strokes| > 0
    ensures var s1 := Handle(srv, sess1, sid1, Undo, env1);
      var s2 := Handle(s1.server, sess2, sid2, Redo, env2);
      && s2.server.states[sess1.room] == StateOf(srv, sess1.room)
      && |s1.out| == 1 && s1.out[0].to == ToRoomAll(sess1.room)
      && s2.out == [Outbound(ToRoomAll(sess1.room), RedrawCanvas(StateOf(srv, sess1.room).strokes))]
  {
    var before := StateOf(srv, sess1.room);
    var s1 := Handle(srv, sess1, sid1, Undo, env1);
    assert StateOf(s1.server, sess1.room) == Drawing.Undo(before).state;
    DrawingProps.UndoThenRedo(before);
  }

  /** `undo` on a room with no committed stroke sends nothing and leaves its
      drawing as it was. */
  lemma UndoOnEmptyHistoryIsSilent(srv: Server, sess: Session, sid: UserId, env: Env)
    requires |StateOf(srv, sess.room).strokes| == 0
    ensures Handle(srv, sess, sid, Undo, env).out == []
    ensures Handle(srv, sess, sid, Undo, env).server.states[sess.room] == StateOf(srv, sess.room)
  {
  }

  /** A user who disconnects in the middle of a stroke leaves no trace of
      it: the history is unchanged, and a late `draw-end` for the same id
      commits nothing. */
  lemma DisconnectMidStrokeLeavesNoTrace(srv: Server, sess: Session, sid: UserId, env: Env)
    ensures var s1 := Handle(srv, sess, sid, Disconnect, env);
      var s2 := Handle(s1.server, sess, sid, DrawEnd, env);
      && s1.server.states[sess.room].strokes == StateOf(srv, sess.room).strokes
      && sid !in s1.server.states[sess.room].current
      && s2.server.states[sess.room] == s1.server.states[sess.room]
  {
    var s1 := Handle(srv, sess, sid, Disconnect, env);
    assert StateOf(s1.server, sess.room) == s1.server.states[sess.room];
  }

  /** The room's drawing outlives the room: when the last member disconnects
      the directory forgets the room but the committed strokes stay, and a
      later joiner is sent them. */
  lemma DrawingOutlivesEmptyRoom(srv: Server, sess: Session, sid: UserId, env: Env)
    requires Rooms.Members(srv.rooms, sess.room) == {sid}
    ensures var s1 := Handle(srv, sess, sid, Disconnect, env);
      && sess.room !in s1.server.rooms.rooms
      && s1.server.states[sess.room].strokes == StateOf(srv, sess.room).strokes
  {
  }
}
