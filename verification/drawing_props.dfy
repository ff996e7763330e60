/** Properties of a room's drawing state over single operations and over
    whole sequences of them. */
module DrawingProps {
  import opened Common
  import opened Drawing

  /** One call on a room's drawing state, with the clock and random draw it
      consumes. */
  datatype Op =
    | Join(userId: UserId, data: UserData, pick: nat)
    | Leave(userId: UserId)
    | Begin(userId: UserId, clock: Clock)
    | AddSegment(userId: UserId, seg: Segment)
    | End(userId: UserId)
    | UndoOp
    | RedoOp
    | Clear

  function Apply(s: DrawingState, op: Op): DrawingState {
    match op
    case Join(u, d, p) => AddUser(s, u, d, p)
    case Leave(u) => RemoveUser(s, u)
    case Begin(u, c) => StartNewStroke(s, u, c)
    case AddSegment(u, seg) => AddDrawing(s, seg, u)
    case End(u) => EndStroke(s, u)
    case UndoOp => Undo(s).state
    case RedoOp => Redo(s).state
    case Clear => ClearCanvas(s)
  }

  function Run(s: DrawingState, ops: seq<Op>): DrawingState
    decreases |ops|
  {
    if |ops| == 0 then s else Run(Apply(s, ops[0]), ops[1..])
  }

  /** The strokes that the `End` operations of `ops` commit, in the order
      the operations run. */
  function CommitLog(s: DrawingState, ops: seq<Op>): seq<Stroke>
    decreases |ops|
  {
    if |ops| == 0 then []
    else
      Committed(s, ops[0]) + CommitLog(Apply(s, ops[0]), ops[1..])
  }

  /** The stroke a single operation commits, if any. */
  function Committed(s: DrawingState, op: Op): seq<Stroke> {
    if op.End? && Commits(s, op.userId) then [s.current[op.userId]] else []
  }

  /** Operations that only append to the history: no undo, redo or clear. */
  predicate AppendOnly(ops: seq<Op>) {
    forall i :: 0 <= i < |ops| ==> !(ops[i].UndoOp? || ops[i].RedoOp? || ops[i].Clear?)
  }

  // ---------------------------------------------------------------------
  // Invariant
  // ---------------------------------------------------------------------

  /** Every operation keeps the state valid. */
  lemma ApplyPreservesValid(s: DrawingState, op: Op)
    requires Valid(s)
    ensures Valid(Apply(s, op))
    ensures !(op.Join? || op.Leave?) ==> Apply(s, op).users == s.users
  {
    match op
    case Leave(u) =>
      var r := RemoveUser(s, u);
      assert Valid(r);
    case Begin(u, c) =>
      var r := StartNewStroke(s, u, c);
      assert forall id :: id in r.current ==> r.current[id].userId == id;
    case AddSegment(u, seg) =>
      var r := AddDrawing(s, seg, u);
      assert forall id :: id in r.current ==> r.current[id].userId == id;
    case End(u) =>
    case UndoOp =>
      var r := Undo(s).state;
      if |s.strokes| > 0 {
        assert forall i :: 0 <= i < |r.undone| ==> r.undone[i] in s.undone || r.undone[i] == s.strokes[|s.strokes| - 1];
      }
    case RedoOp =>
      var r := Redo(s).state;
      if |s.undone| > 0 {
        assert forall i :: 0 <= i < |r.strokes| ==> r.strokes[i] in s.strokes || r.strokes[i] == s.undone[|s.undone| - 1];
      }
    case Join(u, d, p) =>
    case Clear =>
  }

  lemma {:induction false} RunPreservesValid(s: DrawingState, ops: seq<Op>)
    requires Valid(s)
    ensures Valid(Run(s, ops))
    decreases |ops|
  {
    if |ops| > 0 {
      ApplyPreservesValid(s, ops[0]);
      RunPreservesValid(Apply(s, ops[0]), ops[1..]);
    }
  }

  // ---------------------------------------------------------------------
  // Commit order
  // ---------------------------------------------------------------------

  /** An operation other than undo, redo and clear appends to the history
      exactly the stroke it commits. */
  lemma ApplyAppendsCommitted(s: DrawingState, op: Op)
    requires !(op.UndoOp? || op.RedoOp? || op.Clear?)
    ensures Apply(s, op).strokes == s.strokes + Committed(s, op)
  {
  }

  /** One step of `Run` and of `CommitLog`. */
  lemma RunStep(s: DrawingState, ops: seq<Op>)
    requires |ops| > 0
    ensures Run(s, ops) == Run(Apply(s, ops[0]), ops[1..])
    ensures CommitLog(s, ops) == Committed(s, ops[0]) + CommitLog(Apply(s, ops[0]), ops[1..])
  {
  }

  /** Kept apart so that the step of `HistoryIsCommitOrder` does not prove
      it next to the unfolding of `Apply`. */
  lemma ConcatAssoc<T>(a: seq<T>, b: seq<T>, c: seq<T>)
    ensures a + b + c == a + (b + c)
  {
  }

  lemma AppendOnlyTail(ops: seq<Op>)
    requires |ops| > 0 && AppendOnly(ops)
    ensures AppendOnly(ops[1..])
  {
    forall i | 0 <= i < |ops[1..]| ensures !(ops[1..][i].UndoOp? || ops[1..][i].RedoOp? || ops[1..][i].Clear?) {
      assert ops[1..][i] == ops[i + 1];
    }
  }

  /** Without undo, redo or clear, the history grows by exactly the strokes
      committed, in the order their `endStroke` calls ran, however the
      segments of different users interleave. */
  lemma {:induction false} HistoryIsCommitOrder(s: DrawingState, ops: seq<Op>)
    requires AppendOnly(ops)
    ensures Run(s, ops).strokes == s.strokes + CommitLog(s, ops)
    decreases |ops|
  {
    if |ops| > 0 {
      var s' := Apply(s, ops[0]);
      RunStep(s, ops);
      ApplyAppendsCommitted(s, ops[0]);
      AppendOnlyTail(ops);
      HistoryIsCommitOrder(s', ops[1..]);
      ConcatAssoc(s.strokes, Committed(s, ops[0]), CommitLog(s', ops[1..]));
    }
  }

  /** A user's segments, appended one after another. */
  function AppendAll(s: DrawingState, userId: UserId, segs: seq<Segment>): DrawingState
    decreases |segs|
  {
    if |segs| == 0 then s else AppendAll(AddDrawing(s, segs[0], userId), userId, segs[1..])
  }

  lemma {:induction false} AppendAllExtends(s: DrawingState, userId: UserId, segs: seq<Segment>)
    requires userId in s.current
    ensures userId in AppendAll(s, userId, segs).current
    ensures AppendAll(s, userId, segs).current[userId] == s.current[userId].(lines := s.current[userId].lines + segs)
    ensures AppendAll(s, userId, segs).strokes == s.strokes
    ensures AppendAll(s, userId, segs).undone == s.undone
    decreases |segs|
  {
    if |segs| > 0 {
      var s' := AddDrawing(s, segs[0], userId);
      AppendAllExtends(s', userId, segs[1..]);
      assert s.current[userId].lines + [segs[0]] + segs[1..] == s.current[userId].lines + segs;
    }
  }

  /** A whole gesture (`startNewStroke`, the segments, `endStroke`) commits
      exactly one stroke, owned by the user and holding exactly those
      segments, when there is at least one segment; a gesture without
      segments commits nothing. */
  lemma GestureCommitsItsSegments(s: DrawingState, userId: UserId, clock: Clock, segs: seq<Segment>)
    ensures var r := EndStroke(AppendAll(StartNewStroke(s, userId, clock), userId, segs), userId);
      && (|segs| > 0 ==>
            && |r.strokes| == |s.strokes| + 1
            && r.strokes[..|s.strokes|] == s.strokes
            && r.strokes[|s.strokes|].lines == segs
            && r.strokes[|s.strokes|].userId == userId
            && r.undone == [])
      && (|segs| == 0 ==> r.strokes == s.strokes && r.undone == s.undone)
  {
    var t := StartNewStroke(s, userId, clock);
    AppendAllExtends(t, userId, segs);
    assert t.current[userId].lines + segs == segs;
  }

  // ---------------------------------------------------------------------
  // Undo and redo
  // ---------------------------------------------------------------------

  /** `undo` followed by `redo` gives back the state exactly, and both
      move the same stroke. */
  lemma UndoThenRedo(s: DrawingState)
    requires |s.strokes| > 0
    ensures Redo(Undo(s).state).state == s
    ensures Redo(Undo(s).state).stroke == Undo(s).stroke
  {
    var n := |s.strokes|;
    assert s.strokes[..n - 1] + [s.strokes[n - 1]] == s.strokes;
    assert (s.undone + [s.strokes[n - 1]])[..|s.undone|] == s.undone;
  }

  /** `redo` followed by `undo` gives back the state exactly. */
  lemma RedoThenUndo(s: DrawingState)
    requires |s.undone| > 0
    ensures Undo(Redo(s).state).state == s
    ensures Undo(Redo(s).state).stroke == Redo(s).stroke
  {
    var n := |s.undone|;
    assert s.undone[..n - 1] + [s.undone[n - 1]] == s.undone;
    assert (s.strokes + [s.undone[n - 1]])[..|s.strokes|] == s.strokes;
  }

  /** After `clearCanvas` there is nothing to undo or redo. */
  lemma ClearLeavesNothingToUndo(s: DrawingState)
    ensures Undo(ClearCanvas(s)).stroke == None
    ensures Redo(ClearCanvas(s)).stroke == None
    ensures Undo(ClearCanvas(s)).state == ClearCanvas(s)
  {
  }

  /** A committed stroke invalidates the redo branch: nothing can be redone
      right after a commit. */
  lemma CommitThenRedoIsNoop(s: DrawingState, userId: UserId)
    requires Commits(s, userId)
    ensures Redo(EndStroke(s, userId)).stroke == None
  {
  }

  // ---------------------------------------------------------------------
  // Leaving and snapshots
  // ---------------------------------------------------------------------

  /** Once a user has left, `endStroke` for them changes nothing: the stroke
      they had in progress can no longer be committed. */
  lemma EndAfterLeaveIsNoop(s: DrawingState, userId: UserId)
    ensures EndStroke(RemoveUser(s, userId), userId) == RemoveUser(s, userId)
  {
  }

  predicate NoBeginBy(ops: seq<Op>, userId: UserId) {
    forall i :: 0 <= i < |ops| ==> !(ops[i].Begin? && ops[i].userId == userId)
  }

  /** A user with no open stroke still has none after any operation except
      their own `Begin`, and the operation commits nothing of theirs. */
  lemma StaysAbsent(s: DrawingState, userId: UserId, op: Op)
    requires Valid(s)
    requires userId !in s.current
    requires !(op.Begin? && op.userId == userId)
    ensures userId !in Apply(s, op).current
    ensures forall k :: 0 <= k < |Committed(s, op)| ==> Committed(s, op)[k].userId != userId
  {
  }

  /** Leaves no trace: as long as a user who left does not start a new
      stroke, no operation commits a stroke owned by them. */
  lemma {:induction false} NoTraceAfterLeave(s: DrawingState, userId: UserId, ops: seq<Op>)
    requires Valid(s)
    requires userId !in s.current
    requires NoBeginBy(ops, userId)
    ensures forall k :: 0 <= k < |CommitLog(s, ops)| ==> CommitLog(s, ops)[k].userId != userId
    decreases |ops|
  {
    if |ops| > 0 {
      var s' := Apply(s, ops[0]);
      ApplyPreservesValid(s, ops[0]);
      StaysAbsent(s, userId, ops[0]);
      assert NoBeginBy(ops[1..], userId) by {
        forall i | 0 <= i < |ops[1..]| ensures !(ops[1..][i].Begin? && ops[1..][i].userId == userId) {
          assert ops[1..][i] == ops[i + 1];
        }
      }
      NoTraceAfterLeave(s', userId, ops[1..]);
      assert CommitLog(s, ops) == Committed(s, ops[0]) + CommitLog(s', ops[1..]);
    }
  }

  /** The snapshot a joiner receives never shows work in progress: starting
      a stroke or adding a segment to one leaves it unchanged. */
  lemma SnapshotIgnoresInProgress(s: DrawingState, userId: UserId, clock: Clock, seg: Segment)
    ensures GetState(StartNewStroke(s, userId, clock)) == GetState(s)
    ensures GetState(AddDrawing(s, seg, userId)) == GetState(s)
    ensures GetState(RemoveUser(s, userId)) == GetState(s)
  {
  }

  /** A user joining without a name or colour goes last in the roster,
      named after the roster size. */
  lemma JoinUnnamed(s: DrawingState, userId: UserId, pick: nat)
    requires userId !in IdSet(s.users)
    ensures AddUser(s, userId, UserData(None, None), pick).users
         == s.users + [User(userId, PaletteColor(pick), "User " + NatToString(|s.users| + 1))]
  {
  }

  /** Default names are not unique: the number in `User N` is the roster
      size plus one, and the roster shrinks when someone leaves. If `a` and
      `b` join a fresh room without a name (`User 1`, `User 2`), `a` leaves
      and `c` joins without a name, then `c` is also `User 2`. */
  lemma DefaultNamesCanRepeat(a: UserId, b: UserId, c: UserId, pick: nat)
    requires a != b && b != c && a != c
    ensures var none := UserData(None, None);
      var s := AddUser(RemoveUser(AddUser(AddUser(Empty(), a, none, pick), b, none, pick), a), c, none, pick);
      && Lookup(s.users, b).Some? && Lookup(s.users, c).Some?
      && Lookup(s.users, b).value.name == Lookup(s.users, c).value.name == "User " + NatToString(2)
  {
    var none := UserData(None, None);
    var color := PaletteColor(pick);
    var ub := User(b, color, "User " + NatToString(2));
    var uc := User(c, color, "User " + NatToString(2));
    var s3 := RemoveUser(AddUser(AddUser(Empty(), a, none, pick), b, none, pick), a);
    TwoJoinOneLeaves(a, b, pick);
    JoinUnnamed(s3, c, pick);
    Append([], ub);
    Append([ub], uc);
  }

  /** The roster of the scenario above after `a` has left: only `b`, as
      `User 2`. */
  lemma TwoJoinOneLeaves(a: UserId, b: UserId, pick: nat)
    requires a != b
    ensures var none := UserData(None, None);
      var s3 := RemoveUser(AddUser(AddUser(Empty(), a, none, pick), b, none, pick), a);
      && s3.users == [User(b, PaletteColor(pick), "User " + NatToString(2))]
      && IdSet(s3.users) == {b}
  {
    var none := UserData(None, None);
    var color := PaletteColor(pick);
    var ua := User(a, color, "User " + NatToString(1));
    var ub := User(b, color, "User " + NatToString(2));
    var s1 := AddUser(Empty(), a, none, pick);
    JoinUnnamed(Empty(), a, pick);
    IdSetSnoc([], ua);
    JoinUnnamed(s1, b, pick);
    WithoutSnoc([], ua, a);
    WithoutSnoc(s1.users, ub, a);
    IdSetSnoc([], ub);
  }

  /** Deleting from a roster, unfolded at its last entry. */
  lemma WithoutSnoc(init: seq<User>, last: User, id: UserId)
    ensures Without(init + [last], id) == if last.id == id then Without(init, id) else Without(init, id) + [last]
  {
    assert (init + [last])[..|init|] == init;
  }
}
