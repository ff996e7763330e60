/** The client and the server together: the events a client sends for one
    gesture, and what the server does with them. */
module Protocol {
  import opened Common
  import Drawing
  import DrawingProps
  import Canvas
  import opened Server

  /** The `draw` events for a run of segments, in order. */
  function DrawEvents(segs: seq<Segment>): (evs: seq<Event>)
    ensures |evs| == |segs|
    ensures forall i :: 0 <= i < |segs| ==> evs[i] == Draw(segs[i])
  {
    seq(|segs|, i requires 0 <= i < |segs| => Draw(segs[i]))
  }

  /** The handlers of one connection run on its events one after another;
      the messages are collected in emission order. */
  function HandleAll(srv: Server, sess: Session, sid: UserId, evs: seq<Event>, env: Env): Step
    decreases |evs|
  {
    if |evs| == 0 then Step(srv, sess, [])
    else
      var first := Handle(srv, sess, sid, evs[0], env);
      var rest := HandleAll(first.server, first.session, sid, evs[1..], env);
      Step(rest.server, rest.session, first.out + rest.out)
  }

  /** A run of `draw` events from one sender extends that sender's open
      stroke by exactly those segments, and relays each of them, in order,
      to the rest of the room. */
  lemma {:induction false} DrawEventsAppendAndRelay(srv: Server, sess: Session, sid: UserId, segs: seq<Segment>, env: Env)
    requires sess.room in srv.states
    ensures var r := HandleAll(srv, sess, sid, DrawEvents(segs), env);
      && r.session == sess
      && r.server.rooms == srv.rooms
      && sess.room in r.server.states
      && r.server.states[sess.room] == DrawingProps.AppendAll(srv.states[sess.room], sid, segs)
      && |r.out| == |segs|
      && forall i :: 0 <= i < |segs| ==> r.out[i] == Outbound(ToRoomOthers(sess.room), DrawRelay(segs[i]))
    decreases |segs|
  {
    var evs := DrawEvents(segs);
    if |segs| > 0 {
      var first := Handle(srv, sess, sid, evs[0], env);
      assert first.server.states[sess.room] == Drawing.AddDrawing(srv.states[sess.room], segs[0], sid);
      assert evs[1..] == DrawEvents(segs[1..]);
      DrawEventsAppendAndRelay(first.server, first.session, sid, segs[1..], env);
      var rest := HandleAll(first.server, first.session, sid, evs[1..], env);
      forall i | 0 <= i < |segs| ensures (first.out + rest.out)[i] == Outbound(ToRoomOthers(sess.room), DrawRelay(segs[i])) {
        if i > 0 {
          assert (first.out + rest.out)[i] == rest.out[i - 1];
        }
      }
    }
  }

  /** The server side of one gesture: `draw-start`, one `draw` per segment
      and `draw-end` relay every segment in order, leave the history alone
      until the end, and then commit one stroke holding exactly the
      segments, owned by the sender, or nothing when there were none. */
  lemma ServerGesture(srv: Server, sess: Session, sid: UserId, segs: seq<Segment>, env: Env)
    ensures
      var started := Handle(srv, sess, sid, DrawStart, env);
      var drawn := HandleAll(started.server, started.session, sid, DrawEvents(segs), env);
      var ended := Handle(drawn.server, drawn.session, sid, DrawEnd, env);
      var before := StateOf(srv, sess.room).strokes;
      var after := StateOf(ended.server, sess.room).strokes;
      && |drawn.out| == |segs|
      && (forall i :: 0 <= i < |segs| ==> drawn.out[i] == Outbound(ToRoomOthers(sess.room), DrawRelay(segs[i])))
      && StateOf(drawn.server, sess.room).strokes == before
      && (|segs| > 0 ==>
            && |after| == |before| + 1
            && after[..|before|] == before
            && after[|before|].userId == sid
            && after[|before|].lines == segs)
      && (|segs| == 0 ==> after == before)
  {
    var started := Handle(srv, sess, sid, DrawStart, env);
    var begun := Drawing.StartNewStroke(StateOf(srv, sess.room), sid, env.clock);
    assert started.server.states[sess.room] == begun;
    DrawEventsAppendAndRelay(started.server, started.session, sid, segs, env);
    DrawingProps.GestureCommitsItsSegments(StateOf(srv, sess.room), sid, env.clock, segs);
    DrawingProps.AppendAllExtends(begun, sid, segs);
    var drawn := HandleAll(started.server, started.session, sid, DrawEvents(segs), env);
    assert StateOf(drawn.server, sess.room) == DrawingProps.AppendAll(begun, sid, segs);
  }

  /** One gesture end to end. The client presses at (x, y), moves through
      `pts` and releases; it sends `draw-start`, one `draw` per segment that
      `draw` returned, and `draw-end` only when `stopDrawing` reported true.
      The `cursor-move` the client also sends before each `draw` is left out
      of the event list; its handler changes no state. When the server
      handles those events in order, the `draw` relays carry exactly the
      client's segments, and the room's history gains
      exactly one stroke, owned by the sender and holding exactly the
      segments of the stroke the client kept, if the client kept one; if it
      kept none, the history is unchanged. */
  lemma GestureReachesServer(c: Canvas.CanvasState, x: int, y: int, pts: seq<(int, int)>,
                             srv: Server, sess: Session, sid: UserId, env: Env)
    ensures
      var pressed := Canvas.StartDrawing(c, x, y).canvas;
      var segs := Canvas.Emitted(pressed, pts);
      var released := Canvas.StopDrawing(Canvas.DrawAll(pressed, pts));
      var started := Handle(srv, sess, sid, DrawStart, env);
      var drawn := HandleAll(started.server, started.session, sid, DrawEvents(segs), env);
      var ended := if released.value then Handle(drawn.server, drawn.session, sid, DrawEnd, env) else drawn;
      var before := StateOf(srv, sess.room).strokes;
      var after := StateOf(ended.server, sess.room).strokes;
      && |drawn.out| == |segs|
      && (forall i :: 0 <= i < |segs| ==> drawn.out[i] == Outbound(ToRoomOthers(sess.room), DrawRelay(segs[i])))
      && (released.value ==>
            && |after| == |before| + 1
            && after[..|before|] == before
            && after[|before|].userId == sid
            && after[|before|].lines == released.canvas.localStrokes[|released.canvas.localStrokes| - 1].lines)
      && (!released.value ==> after == before)
  {
    var pressed := Canvas.StartDrawing(c, x, y).canvas;
    Canvas.DrawAllChains(pressed, pts);
    Canvas.GestureKeepsItsChain(c, x, y, pts);
    var segs := Canvas.Emitted(pressed, pts);
    ServerGesture(srv, sess, sid, segs, env);
    if !Canvas.StopDrawing(Canvas.DrawAll(pressed, pts)).value {
      assert |segs| == 0;
    }
  }
}
