/** The authoritative drawing state of one room (`DrawingState` on the server):
    the committed strokes, the redo stack, at most one in-progress stroke per
    user, and the roster. Every operation is a pure function from the old
    state to the new one; the clock and the random colour choice are
    parameters. */
module Drawing {
  import opened Common

  /** A roster entry. */
  datatype User = User(id: UserId, color: Color, name: string)

  /** The optional profile a client supplies when joining. */
  datatype UserData = UserData(color: Option<string>, name: Option<string>)

  /** A stroke: the segments of one gesture, in the order they arrived. */
  datatype Stroke = Stroke(id: string, userId: UserId, lines: seq<Segment>, timestamp: nat)

  /** The two readings of the clock taken when a stroke starts: one for the
      stroke id, one for its timestamp. */
  datatype Clock = Clock(idTime: nat, stampTime: nat)

  /** `users` lists the roster in join order, as a JavaScript `Map` iterates;
      `current` holds the in-progress strokes keyed by user. */
  datatype DrawingState = DrawingState(
    strokes: seq<Stroke>,
    undone: seq<Stroke>,
    users: seq<User>,
    current: map<UserId, Stroke>)

  /** What `undo` and `redo` hand back: the new state and the stroke moved, if any. */
  datatype Moved = Moved(state: DrawingState, stroke: Option<Stroke>)

  /** The committed drawing a late joiner receives. */
  datatype Snapshot = Snapshot(strokes: seq<Stroke>)

  /** The colours a user without a colour of their own may be given. */
  const Palette: seq<Color> := ["#FF6B6B", "#4ECDC4", "#45B7D1", "#FFA07A", "#98D8C8", "#F7DC6F", "#BB8FCE", "#85C1E2"]

  // ---------------------------------------------------------------------
  // The roster as an insertion-ordered map
  // ---------------------------------------------------------------------

  predicate UniqueIds(users: seq<User>) {
    forall i, j :: 0 <= i < j < |users| ==> users[i].id != users[j].id
  }

  /** The ids of the roster, in roster order. */
  function Ids(users: seq<User>): (r: seq<UserId>)
    ensures |r| == |users|
    ensures forall i :: 0 <= i < |users| ==> r[i] == users[i].id
  {
    if |users| == 0 then [] else Ids(users[..|users| - 1]) + [users[|users| - 1].id]
  }

  /** The ids in the roster. */
  function IdSet(users: seq<User>): set<UserId>
    decreases |users|
  {
    if |users| == 0 then {} else IdSet(users[..|users| - 1]) + {users[|users| - 1].id}
  }

  lemma {:induction false} IdSetMembers(users: seq<User>, id: UserId)
    ensures id in IdSet(users) <==> exists i :: 0 <= i < |users| && users[i].id == id
    decreases |users|
  {
    if |users| > 0 {
      IdSetMembers(users[..|users| - 1], id);
      if id in IdSet(users[..|users| - 1]) {
        var i :| 0 <= i < |users| - 1 && users[..|users| - 1][i].id == id;
        assert users[i].id == id;
      }
    }
  }

  lemma IdSetSnoc(init: seq<User>, last: User)
    ensures IdSet(init + [last]) == IdSet(init) + {last.id}
  {
    assert (init + [last])[..|init|] == init;
  }

  /** Position of the entry for `id`, if the roster has one: the last
      position holding it. */
  function IndexOf(users: seq<User>, id: UserId): (r: Option<nat>)
    ensures r.Some? ==> r.value < |users| && users[r.value].id == id
    ensures r.Some? ==> forall j :: r.value < j < |users| ==> users[j].id != id
    ensures r.None? <==> id !in IdSet(users)
    decreases |users|
  {
    if |users| == 0 then None
    else if users[|users| - 1].id == id then Some(|users| - 1)
    else IndexOf(users[..|users| - 1], id)
  }

  /** `users.get(id)`. */
  function Lookup(users: seq<User>, id: UserId): (r: Option<User>)
    ensures r.Some? ==> r.value.id == id
    ensures r.None? <==> id !in IdSet(users)
  {
    match IndexOf(users, id)
    case Some(i) => Some(users[i])
    case None => None
  }

  /** Under unique ids, the entry at position `i` is the one `Lookup` finds. */
  lemma LookupAt(users: seq<User>, i: nat)
    requires UniqueIds(users)
    requires i < |users|
    ensures Lookup(users, users[i].id) == Some(users[i])
  {
    IdSetMembers(users, users[i].id);
  }

  // ---------------------------------------------------------------------
  // The state
  // ---------------------------------------------------------------------

  /** What every reachable state satisfies: one roster entry per user, only
      non-empty strokes in either stack, and each in-progress stroke owned by
      the user it is filed under. */
  predicate Valid(s: DrawingState) {
    && UniqueIds(s.users)
    && (forall i :: 0 <= i < |s.strokes| ==> |s.strokes[i].lines| > 0)
    && (forall i :: 0 <= i < |s.undone| ==> |s.undone[i].lines| > 0)
    && (forall u :: u in s.current ==> s.current[u].userId == u)
  }

  /** The state of a room nobody has drawn in yet (`new DrawingState()`). */
  function Empty(): (s: DrawingState)
    ensures Valid(s)
    ensures s.strokes == [] && s.undone == [] && s.users == [] && s.current == map[]
  {
    DrawingState([], [], [], map[])
  }

  /** The colour `generateColor` returns for the random draw `pick`. */
  function PaletteColor(pick: nat): (c: Color)
    ensures c in Palette
  {
    Palette[pick % |Palette|]
  }

  /** The roster entry `addUser` builds: the supplied colour and name when
      truthy, otherwise a palette colour and `User N` with N one more than
      the roster size before the call. */
  function NewUser(s: DrawingState, userId: UserId, data: UserData, pick: nat): (u: User)
    ensures u.id == userId
    ensures Truthy(data.color) ==> u.color == data.color.value
    ensures !Truthy(data.color) ==> u.color in Palette
    ensures Truthy(data.name) ==> u.name == data.name.value
    ensures !Truthy(data.name) ==> u.name == "User " + NatToString(|s.users| + 1)
  {
    User(userId,
      if Truthy(data.color) then data.color.value else PaletteColor(pick),
      if Truthy(data.name) then data.name.value else "User " + NatToString(|s.users| + 1))
  }

  /** `addUser`: sets the roster entry of `userId`. A returning id keeps its
      place in the roster order; a new one goes last. Nothing else changes. */
  function AddUser(s: DrawingState, userId: UserId, data: UserData, pick: nat): (r: DrawingState)
    ensures Lookup(r.users, userId) == Some(NewUser(s, userId, data, pick))
    ensures forall id :: id != userId ==> Lookup(r.users, id) == Lookup(s.users, id)
    ensures IdSet(r.users) == IdSet(s.users) + {userId}
    ensures Ids(r.users) == if userId in IdSet(s.users) then Ids(s.users) else Ids(s.users) + [userId]
    ensures UniqueIds(s.users) ==> UniqueIds(r.users)
    ensures r.strokes == s.strokes && r.undone == s.undone && r.current == s.current
  {
    var u := NewUser(s, userId, data, pick);
    match IndexOf(s.users, userId)
    case Some(i) =>
      ReplaceAt(s.users, i, u);
      s.(users := s.users[i := u])
    case None =>
      Append(s.users, u);
      s.(users := s.users + [u])
  }

  /** Rosters with the same ids at the same positions have the same id set
      and find every id at the same position. */
  lemma {:induction false} SameIds(a: seq<User>, b: seq<User>)
    requires |a| == |b|
    requires forall k :: 0 <= k < |a| ==> a[k].id == b[k].id
    ensures IdSet(a) == IdSet(b)
    ensures forall id :: IndexOf(a, id) == IndexOf(b, id)
    decreases |a|
  {
    if |a| > 0 {
      SameIds(a[..|a| - 1], b[..|b| - 1]);
    }
  }

  /** Overwriting the entry `IndexOf` found: the entry is the new one, and
      the id order, the other lookups and the id set are untouched. */
  lemma ReplaceAt(users: seq<User>, i: nat, u: User)
    requires IndexOf(users, u.id) == Some(i)
    ensures IndexOf(users[i := u], u.id) == Some(i)
    ensures forall id :: id != u.id ==> IndexOf(users[i := u], id) == IndexOf(users, id)
    ensures IdSet(users[i := u]) == IdSet(users)
    ensures Ids(users[i := u]) == Ids(users)
    ensures UniqueIds(users) ==> UniqueIds(users[i := u])
  {
    SameIds(users, users[i := u]);
  }

  /** Appending an entry for an id the roster lacks. */
  lemma Append(users: seq<User>, u: User)
    requires u.id !in IdSet(users)
    ensures IndexOf(users + [u], u.id) == Some(|users|)
    ensures forall id :: id != u.id ==> IndexOf(users + [u], id) == IndexOf(users, id)
    ensures IdSet(users + [u]) == IdSet(users) + {u.id}
    ensures Ids(users + [u]) == Ids(users) + [u.id]
    ensures UniqueIds(users) ==> UniqueIds(users + [u])
  {
    assert (users + [u])[..|users|] == users;
    IdSetMembers(users, u.id);
  }

  /** Deletes every entry for `id`; under unique ids that is the one entry. */
  function Without(users: seq<User>, id: UserId): (r: seq<User>)
    ensures IdSet(r) == IdSet(users) - {id}
    ensures forall k :: 0 <= k < |r| ==> r[k] in users && r[k].id != id
  {
    if |users| == 0 then []
    else
      var init := users[..|users| - 1];
      var last := users[|users| - 1];
      assert users == init + [last];
      IdSetSnoc(init, last);
      var rest := Without(init, id);
      if last.id == id then rest
      else
        IdSetSnoc(rest, last);
        rest + [last]
  }

  /** Deleting keeps the remaining ids unique. */
  lemma {:induction false} WithoutUnique(users: seq<User>, id: UserId)
    ensures UniqueIds(users) ==> UniqueIds(Without(users, id))
    decreases |users|
  {
    if |users| > 0 && UniqueIds(users) {
      var init := users[..|users| - 1];
      var last := users[|users| - 1];
      WithoutUnique(init, id);
      if last.id != id {
        IdSetMembers(init, last.id);
        assert last.id !in IdSet(Without(init, id));
        SnocUnique(Without(init, id), last);
      }
    }
  }

  /** Deleting an id the roster lacks changes nothing. */
  lemma {:induction false} WithoutAbsent(users: seq<User>, id: UserId)
    requires id !in IdSet(users)
    ensures Without(users, id) == users
    decreases |users|
  {
    if |users| > 0 {
      var init := users[..|users| - 1];
      var last := users[|users| - 1];
      assert users == init + [last];
      IdSetSnoc(init, last);
      WithoutAbsent(init, id);
      assert Without(users, id) == Without(init, id) + [last];
    }
  }

  /** `r` is `users` with some entries left out: what remains keeps its
      relative order. */
  predicate Subsequence(r: seq<User>, users: seq<User>)
    decreases |users|
  {
    if |r| == 0 then true
    else if |users| == 0 then false
    else if r[|r| - 1] == users[|users| - 1] then Subsequence(r[..|r| - 1], users[..|users| - 1])
    else Subsequence(r, users[..|users| - 1])
  }

  /** Deleting an entry keeps the others in their order, as `Map.delete` does. */
  lemma {:induction false} WithoutKeepsOrder(users: seq<User>, id: UserId)
    ensures Subsequence(Without(users, id), users)
    decreases |users|
  {
    if |users| > 0 {
      var init := users[..|users| - 1];
      var last := users[|users| - 1];
      var rest := Without(init, id);
      WithoutKeepsOrder(init, id);
      if last.id == id {
        assert Without(users, id) == rest;
        if |rest| > 0 {
          assert rest[|rest| - 1].id != id;
        }
      } else {
        assert Without(users, id) == rest + [last];
        assert (rest + [last])[..|rest|] == rest;
      }
    }
  }

  /** Appending an id the roster lacks keeps the ids unique. */
  lemma SnocUnique(users: seq<User>, u: User)
    ensures UniqueIds(users) && u.id !in IdSet(users) ==> UniqueIds(users + [u])
  {
    IdSetMembers(users, u.id);
  }

  /** `removeUser`: drops the roster entry and discards the in-progress
      stroke of `userId`; the committed strokes and the redo stack stay. */
  function RemoveUser(s: DrawingState, userId: UserId): (r: DrawingState)
    ensures Lookup(r.users, userId) == None
    ensures IdSet(r.users) == IdSet(s.users) - {userId}
    ensures userId !in r.current
    ensures forall id :: id != userId ==> (id in r.current <==> id in s.current)
    ensures forall id :: id in r.current ==> r.current[id] == s.current[id]
    ensures forall k :: 0 <= k < |r.users| ==> r.users[k] in s.users
    ensures UniqueIds(s.users) ==> UniqueIds(r.users)
    ensures r.strokes == s.strokes && r.undone == s.undone
  {
    WithoutUnique(s.users, userId);
    s.(users := Without(s.users, userId), current := s.current - {userId})
  }

  /** Removing an entry keeps the others in their join order, so the roster
      that `users-update` sends after a leave is the old one minus the
      leaver. */
  lemma RemoveUserKeepsOrder(s: DrawingState, userId: UserId)
    ensures Subsequence(RemoveUser(s, userId).users, s.users)
  {
    WithoutKeepsOrder(s.users, userId);
  }

  /** Removing an entry leaves the lookups of the other users as they were. */
  lemma RemoveUserKeepsOthers(s: DrawingState, userId: UserId, id: UserId)
    requires UniqueIds(s.users)
    requires id != userId
    ensures Lookup(RemoveUser(s, userId).users, id) == Lookup(s.users, id)
  {
    var r := RemoveUser(s, userId).users;
    match Lookup(s.users, id)
    case None =>
    case Some(u) =>
      assert id in IdSet(r);
      IdSetMembers(r, id);
      var k :| 0 <= k < |r| && r[k].id == id;
      var j :| 0 <= j < |s.users| && s.users[j] == r[k];
      LookupAt(s.users, j);
      LookupAt(r, k);
  }

  /** `getUsers`: the roster in join order. */
  function GetUsers(s: DrawingState): (r: seq<User>)
    ensures IdSet(r) == IdSet(s.users)
    ensures Ids(r) == Ids(s.users)
  {
    s.users
  }

  /** Every user the roster lists is the one `Lookup` finds for that id, and
      every user `Lookup` finds is listed. */
  lemma GetUsersAgreesWithLookup(s: DrawingState, id: UserId)
    requires UniqueIds(s.users)
    ensures Lookup(s.users, id).Some? ==> Lookup(s.users, id).value in GetUsers(s)
    ensures forall u :: u in GetUsers(s) && u.id == id ==> Lookup(s.users, id) == Some(u)
  {
    forall u | u in GetUsers(s) && u.id == id ensures Lookup(s.users, id) == Some(u) {
      var k :| 0 <= k < |s.users| && s.users[k] == u;
      LookupAt(s.users, k);
    }
  }

  // ---------------------------------------------------------------------
  // Strokes
  // ---------------------------------------------------------------------

  /** A stroke id: the clock reading in decimal, a dash, and the user id. */
  function StrokeId(time: nat, userId: UserId): (id: string)
    ensures |id| == |NatToString(time)| + 1 + |userId|
    ensures id[|NatToString(time)|] == '-'
  {
    NatToString(time) + "-" + userId
  }

  /** Two stroke ids are equal exactly when both the clock readings and the
      users are: the dash cannot be mistaken for a digit, so the id splits
      back into its two parts. Two strokes of one user started at the same
      reading share an id. */
  lemma StrokeIdInjective(t1: nat, u1: UserId, t2: nat, u2: UserId)
    ensures StrokeId(t1, u1) == StrokeId(t2, u2) <==> t1 == t2 && u1 == u2
  {
    if StrokeId(t1, u1) == StrokeId(t2, u2) {
      var a, b := NatToString(t1), NatToString(t2);
      var id := StrokeId(t1, u1);
      assert id == a + "-" + u1 && id == b + "-" + u2;
      assert forall k :: 0 <= k < |a| ==> id[k] == a[k];
      assert forall k :: 0 <= k < |b| ==> id[k] == b[k];
      assert id[|a|] == '-' && id[|b|] == '-';
      assert a == id[..|a|] == b;
      NatToStringInjective(t1, t2);
      assert u1 == id[|a| + 1..] == u2;
    }
  }

  /** `startNewStroke`: gives `userId` a fresh, empty in-progress stroke,
      abandoning any earlier one. Other users' strokes and both stacks stay. */
  function StartNewStroke(s: DrawingState, userId: UserId, clock: Clock): (r: DrawingState)
    ensures userId in r.current
    ensures r.current[userId].id == StrokeId(clock.idTime, userId)
    ensures r.current[userId].lines == [] && r.current[userId].userId == userId
    ensures r.current[userId].timestamp == clock.stampTime
    ensures r.current.Keys == s.current.Keys + {userId}
    ensures forall id :: id in s.current && id != userId ==> r.current[id] == s.current[id]
    ensures r.strokes == s.strokes && r.undone == s.undone && r.users == s.users
  {
    var stroke := Stroke(StrokeId(clock.idTime, userId), userId, [], clock.stampTime);
    s.(current := s.current[userId := stroke])
  }

  /** `addDrawing`: appends `seg` to the in-progress stroke of `userId` and
      to nothing else; without such a stroke it does nothing. */
  function AddDrawing(s: DrawingState, seg: Segment, userId: UserId): (r: DrawingState)
    ensures userId !in s.current ==> r == s
    ensures userId in s.current ==>
      && userId in r.current
      && r.current[userId].lines == s.current[userId].lines + [seg]
      && r.current[userId].id == s.current[userId].id
      && r.current[userId].userId == s.current[userId].userId
      && r.current[userId].timestamp == s.current[userId].timestamp
    ensures r.current.Keys == s.current.Keys
    ensures forall id :: id in s.current && id != userId ==> r.current[id] == s.current[id]
    ensures r.strokes == s.strokes && r.undone == s.undone && r.users == s.users
  {
    if userId in s.current then
      var stroke := s.current[userId];
      s.(current := s.current[userId := stroke.(lines := stroke.lines + [seg])])
    else s
  }

  /** Whether `endStroke(userId)` commits: the user has an in-progress
      stroke with at least one segment. */
  predicate Commits(s: DrawingState, userId: UserId) {
    userId in s.current && |s.current[userId].lines| > 0
  }

  /** `endStroke`: commits the in-progress stroke of `userId` to the tail of
      the history, forgets it, and empties the redo stack; a missing or empty
      stroke changes nothing (an empty one even stays in progress). */
  function EndStroke(s: DrawingState, userId: UserId): (r: DrawingState)
    ensures Commits(s, userId) ==>
      && r.strokes == s.strokes + [s.current[userId]]
      && r.current == s.current - {userId}
      && r.undone == []
      && r.users == s.users
    ensures !Commits(s, userId) ==> r == s
  {
    if Commits(s, userId) then
      s.(strokes := s.strokes + [s.current[userId]], current := s.current - {userId}, undone := [])
    else s
  }

  /** `undo`: moves the newest committed stroke onto the redo stack and
      returns it; with no committed stroke it returns nothing and changes
      nothing. The redo stack is only pushed, never cleared. */
  function Undo(s: DrawingState): (r: Moved)
    ensures |s.strokes| > 0 ==>
      && r.stroke == Some(s.strokes[|s.strokes| - 1])
      && r.state.strokes == s.strokes[..|s.strokes| - 1]
      && r.state.undone == s.undone + [s.strokes[|s.strokes| - 1]]
    ensures |s.strokes| == 0 ==> r.stroke == None && r.state == s
    ensures |r.state.strokes| + |r.state.undone| == |s.strokes| + |s.undone|
    ensures r.state.users == s.users && r.state.current == s.current
  {
    if |s.strokes| > 0 then
      var removed := s.strokes[|s.strokes| - 1];
      Moved(s.(strokes := s.strokes[..|s.strokes| - 1], undone := s.undone + [removed]), Some(removed))
    else Moved(s, None)
  }

  /** `redo`: moves the most recently undone stroke back to the tail of the
      history and returns it; with an empty redo stack it returns nothing and
      changes nothing. The history is only pushed, never cleared. */
  function Redo(s: DrawingState): (r: Moved)
    ensures |s.undone| > 0 ==>
      && r.stroke == Some(s.undone[|s.undone| - 1])
      && r.state.undone == s.undone[..|s.undone| - 1]
      && r.state.strokes == s.strokes + [s.undone[|s.undone| - 1]]
    ensures |s.undone| == 0 ==> r.stroke == None && r.state == s
    ensures |r.state.strokes| + |r.state.undone| == |s.strokes| + |s.undone|
    ensures r.state.users == s.users && r.state.current == s.current
  {
    if |s.undone| > 0 then
      var restored := s.undone[|s.undone| - 1];
      Moved(s.(undone := s.undone[..|s.undone| - 1], strokes := s.strokes + [restored]), Some(restored))
    else Moved(s, None)
  }

  /** `clearCanvas`: forgets every stroke, committed, undone or in progress;
      the roster stays. */
  function ClearCanvas(s: DrawingState): (r: DrawingState)
    ensures r.strokes == [] && r.undone == [] && r.current == map[]
    ensures r.users == s.users
  {
    s.(strokes := [], undone := [], current := map[])
  }

  /** `getState`: what a joiner is sent. */
  function GetState(s: DrawingState): (r: Snapshot)
    ensures |r.strokes| == |s.strokes|
    ensures Valid(s) ==> forall i :: 0 <= i < |r.strokes| ==> |r.strokes[i].lines| > 0
  {
    Snapshot(s.strokes)
  }

  /** `getAllStrokes`: what `redraw-canvas` carries. */
  function GetAllStrokes(s: DrawingState): (r: seq<Stroke>)
    ensures r == GetState(s).strokes
  {
    s.strokes
  }
}
