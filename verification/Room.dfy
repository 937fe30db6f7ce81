/**
 * The live side of a room's Durable Object (apps/realtime/src/index.ts): who is connected, what every open
 * socket was told, and the recent events and the board it keeps in memory and in storage.
 *
 * A handler runs from its first statement to its last storage operation without another one in between.
 */
module Room {
  import opened Options
  import opened ConnectionIds
  import opened MeshClient
  import opened Sequences

  const MAX_EVENTS: nat := 250
  const MAX_STROKES: nat := 4_000
  const GREETED_EVENTS: nat := 100

  datatype Storage = Storage(room: string, events: seq<RoomEvent>, strokes: seq<Segment>)

  /**
   * `sockets` are the attachments of the open sockets in enumeration order, `frames` everything sent to each
   * of them; `recorded` and `edits` are all events and board edits there ever were.
   */
  datatype State = State(
    room: string,
    sockets: seq<Participant>,
    participants: map<ConnectionId, Participant>,
    events: seq<RoomEvent>,
    strokes: seq<Segment>,
    stored: Storage,
    frames: map<ConnectionId, seq<Frame>>,
    recorded: seq<RoomEvent>,
    edits: seq<BoardEdit>)

  const NewRoom := State("", [], map[], [], [], Storage("", [], []), map[], [], [])

  /** restoreParticipants: later sockets win a connection id. */
  function FromSockets(sockets: seq<Participant>): map<ConnectionId, Participant> {
    if sockets == [] then map[]
    else
      var last := sockets[|sockets| - 1];
      FromSockets(sockets[..|sockets| - 1])[last.connection := last]
  }

  function SocketsWithout(sockets: seq<Participant>, connection: ConnectionId): seq<Participant> {
    if sockets == [] then []
    else
      var last := sockets[|sockets| - 1];
      SocketsWithout(sockets[..|sockets| - 1], connection) + if last.connection == connection then [] else [last]
  }

  predicate Distinct(sockets: seq<Participant>) {
    forall i, j :: 0 <= i < j < |sockets| ==> sockets[i].connection != sockets[j].connection
  }

  predicate HasUser(people: map<ConnectionId, Participant>, user: string) {
    exists c <- people :: people[c].user == user
  }

  function Recorded(r: State, e: RoomEvent): State {
    var events := Last(r.events + [e], MAX_EVENTS);
    r.(events := events, stored := r.stored.(events := events), recorded := r.recorded + [e])
  }

  function Broadcasted(r: State, f: Frame): State {
    r.(frames := map c | c in r.frames :: r.frames[c] + [f])
  }

  function People(r: State): set<Participant> {
    r.participants.Values
  }

  /** What a new socket is sent first. */
  function Greeting(r: State, p: Participant): Frame {
    Ready(p, People(r), Last(r.events, GREETED_EVENTS), r.strokes)
  }

  /** A new socket with its attachment, and the greeting it alone is sent. */
  function Opened(r: State, p: Participant): State {
    var r' := r.(sockets := r.sockets + [p], participants := r.participants[p.connection := p]);
    r'.(frames := r.frames[p.connection := [Greeting(r', p)]])
  }

  function Accepted(r: State, user: string, connection: ConnectionId): State {
    var r' := Opened(r, Participant(user, connection, false));
    var r'' := Broadcasted(r', Presence(People(r')));
    if HasUser(r.participants, user) then r'' else Recorded(r'', RoomEvent.Joined(user))
  }

  function Dropped(r: State, p: Participant): State {
    var open := SocketsWithout(r.sockets, p.connection);
    r.(sockets := open, participants := FromSockets(open), frames := r.frames - {p.connection})
  }

  function Closed(r: State, p: Participant): State {
    var r' := Dropped(r, p);
    var r'' := Broadcasted(r', Presence(People(r')));
    if HasUser(r'.participants, p.user) then r'' else Recorded(r'', RoomEvent.Left(p.user))
  }

  function Reattached(sockets: seq<Participant>, p: Participant): seq<Participant> {
    seq(|sockets|, i requires 0 <= i < |sockets| => if sockets[i].connection == p.connection then p else sockets[i])
  }

  function Shared(r: State, p: Participant, active: bool): State {
    var p' := p.(screenSharing := active);
    var r1 := r.(sockets := Reattached(r.sockets, p'), participants := r.participants[p.connection := p']);
    var r2 := Announced(r1, ScreenShared(p.user, active));
    Broadcasted(r2, Presence(People(r2)))
  }

  /** An event of the room is sent to everybody and recorded. */
  function Announced(r: State, e: RoomEvent): State {
    Recorded(Broadcasted(r, Live(e)), e)
  }

  function Edited(strokes: seq<Segment>, edit: BoardEdit): seq<Segment> {
    match edit
    case Clear => []
    case Draw(segment) => Last(strokes + [segment], MAX_STROKES)
  }

  function Sketched(r: State, user: string, edit: BoardEdit): State {
    var strokes := Edited(r.strokes, edit);
    var r' := Broadcasted(r, Drawn(user, edit));
    r'.(strokes := strokes, stored := r.stored.(strokes := strokes), edits := r.edits + [edit])
  }

  function Signalled(r: State, from: ConnectionId, to: ConnectionId, signal: string): State {
    if to in r.frames then r.(frames := r.frames[to := r.frames[to] + [Relayed(from, signal)]]) else r
  }

  /** Every request names the room, and the object remembers it. */
  function Visited(r: State, room: string): State {
    r.(room := room, stored := r.stored.(room := room))
  }

  /** Memory is lost and the constructor runs again. */
  function Woken(r: State): State {
    r.(room := r.stored.room, participants := FromSockets(r.sockets), events := r.stored.events,
       strokes := r.stored.strokes)
  }

  // ---- Runs ---------------------------------------------------------------------------------------

  datatype Step =
    | Visit(room: string)
    | Connect(user: string, connection: ConnectionId)
    | Close(socket: Participant)
    | Share(socket: Participant, active: bool)
    | Say(socket: Participant, payload: string)
    | Sketch(socket: Participant, edit: BoardEdit)
    | Signal(from: ConnectionId, to: ConnectionId, signal: string)
    | Wake

  /** Connection ids are fresh and not empty; only open sockets act, and nobody signals itself. */
  predicate Enabled(r: State, s: Step) {
    match s
    case Connect(_, connection) => connection != "" && connection !in r.participants
    case Close(socket) => socket in r.sockets
    case Share(socket, _) => socket in r.sockets
    case Say(socket, _) => socket in r.sockets
    case Sketch(socket, _) => socket in r.sockets
    case Signal(from, to, _) => from in r.participants && from != to
    case _ => true
  }

  function Next(r: State, s: Step): State
    requires Enabled(r, s)
  {
    match s
    case Visit(room) => Visited(r, room)
    case Connect(user, connection) => Accepted(r, user, connection)
    case Close(socket) => Closed(r, socket)
    case Share(socket, active) => Shared(r, socket, active)
    case Say(socket, payload) => Announced(r, Posted(socket.user, payload))
    case Sketch(socket, edit) => Sketched(r, socket.user, edit)
    case Signal(from, to, signal) => Signalled(r, from, to, signal)
    case Wake => Woken(r)
  }

  ghost predicate Run(r: State, steps: seq<Step>)
    decreases |steps|
  {
    steps == [] || (Enabled(r, steps[0]) && Run(Next(r, steps[0]), steps[1..]))
  }

  ghost function Result(r: State, steps: seq<Step>): State
    requires Run(r, steps)
    decreases |steps|
  {
    if steps == [] then r else Result(Next(r, steps[0]), steps[1..])
  }

  // ---- Memory agrees with the sockets -------------------------------------------------------------

  lemma {:induction false} FromSocketsIsExact(sockets: seq<Participant>)
    requires Distinct(sockets)
    ensures forall p <- sockets :: p.connection in FromSockets(sockets) && FromSockets(sockets)[p.connection] == p
    ensures forall c <- FromSockets(sockets) ::
      FromSockets(sockets)[c].connection == c && FromSockets(sockets)[c] in sockets
  {
    if sockets != [] {
      var n := |sockets| - 1;
      FromSocketsIsExact(sockets[..n]);
      assert sockets == sockets[..n] + [sockets[n]];
    }
  }

  /** The map is the only one with the sockets' participants under their connection ids. */
  lemma FromSocketsIsUnique(sockets: seq<Participant>, m: map<ConnectionId, Participant>)
    requires Distinct(sockets)
    requires forall p <- sockets :: p.connection in m && m[p.connection] == p
    requires forall c <- m :: m[c] in sockets && m[c].connection == c
    ensures m == FromSockets(sockets)
  {
    FromSocketsIsExact(sockets);
  }

  lemma {:induction false} WithoutIsExact(sockets: seq<Participant>, connection: ConnectionId)
    ensures forall p :: p in SocketsWithout(sockets, connection) <==> p in sockets && p.connection != connection
  {
    if sockets != [] {
      var n := |sockets| - 1;
      WithoutIsExact(sockets[..n], connection);
      assert sockets == sockets[..n] + [sockets[n]];
    }
  }

  lemma {:induction false} WithoutIsDistinct(sockets: seq<Participant>, connection: ConnectionId)
    requires Distinct(sockets)
    ensures Distinct(SocketsWithout(sockets, connection))
  {
    if sockets != [] {
      var n := |sockets| - 1;
      WithoutIsDistinct(sockets[..n], connection);
      WithoutIsExact(sockets[..n], connection);
      forall p <- SocketsWithout(sockets[..n], connection)
        ensures p.connection != sockets[n].connection
      {
        assert p in sockets[..n];
      }
    }
  }

  /** Sockets, participants and recipients are the same connections. */
  ghost predicate Connected(r: State) {
    && Distinct(r.sockets)
    && r.participants == FromSockets(r.sockets)
    && r.frames.Keys == r.participants.Keys
    && "" !in r.participants
  }

  /** Memory and storage agree, and hold the end of the history. */
  ghost predicate Kept(r: State) {
    && r.stored == Storage(r.room, r.events, r.strokes)
    && r.events == Last(r.recorded, MAX_EVENTS)
    && r.strokes == Last(SinceClear(r.edits), MAX_STROKES)
  }

  /** The segments drawn since the board was last cleared. */
  function SinceClear(edits: seq<BoardEdit>): seq<Segment> {
    if edits == [] then []
    else
      match edits[|edits| - 1]
      case Clear => []
      case Draw(segment) => SinceClear(edits[..|edits| - 1]) + [segment]
  }

  /** Trimming after every addition leaves the same end as trimming once. */
  lemma LastOfLast<T>(s: seq<T>, x: T, n: nat)
    requires n > 0
    ensures Last(Last(s, n) + [x], n) == Last(s + [x], n)
  {
  }

  lemma RecordedKeeps(r: State, e: RoomEvent)
    ensures Kept(r) ==> Kept(Recorded(r, e))
    ensures Connected(r) ==> Connected(Recorded(r, e))
    ensures Recorded(r, e).sockets == r.sockets && Recorded(r, e).participants == r.participants
    ensures Recorded(r, e).frames == r.frames
  {
    LastOfLast(r.recorded, e, MAX_EVENTS);
  }

  lemma BroadcastedKeeps(r: State, f: Frame)
    ensures Kept(r) ==> Kept(Broadcasted(r, f))
    ensures Connected(r) ==> Connected(Broadcasted(r, f))
    ensures Broadcasted(r, f).sockets == r.sockets && Broadcasted(r, f).participants == r.participants
    ensures Broadcasted(r, f).recorded == r.recorded
  {
  }

  lemma AnnouncedKeeps(r: State, e: RoomEvent)
    ensures Kept(r) ==> Kept(Announced(r, e))
    ensures Connected(r) ==> Connected(Announced(r, e))
    ensures Announced(r, e).sockets == r.sockets && Announced(r, e).participants == r.participants
  {
    BroadcastedKeeps(r, Live(e));
    RecordedKeeps(Broadcasted(r, Live(e)), e);
  }

  lemma OpenedKeeps(r: State, p: Participant)
    requires Connected(r) && p.connection != "" && p.connection !in r.participants
    ensures Connected(Opened(r, p)) && (Kept(r) ==> Kept(Opened(r, p)))
  {
    FromSocketsIsExact(r.sockets);
    FromSocketsAppend(r.sockets, p);
    var r' := Opened(r, p);
    assert r'.frames.Keys == r.frames.Keys + {p.connection} == r'.participants.Keys;
  }

  lemma FromSocketsAppend(sockets: seq<Participant>, p: Participant)
    ensures FromSockets(sockets + [p]) == FromSockets(sockets)[p.connection := p]
    ensures Distinct(sockets) && (forall q <- sockets :: q.connection != p.connection) ==> Distinct(sockets + [p])
  {
    assert (sockets + [p])[..|sockets|] == sockets;
  }

  lemma AcceptedKeeps(r: State, user: string, connection: ConnectionId)
    requires Connected(r) && Kept(r) && Enabled(r, Connect(user, connection))
    ensures Connected(Accepted(r, user, connection)) && Kept(Accepted(r, user, connection))
  {
    var r' := Opened(r, Participant(user, connection, false));
    OpenedKeeps(r, Participant(user, connection, false));
    BroadcastedKeeps(r', Presence(People(r')));
    RecordedKeeps(Broadcasted(r', Presence(People(r'))), RoomEvent.Joined(user));
  }

  lemma DroppedKeeps(r: State, p: Participant)
    requires Connected(r) && p in r.sockets
    ensures Connected(Dropped(r, p)) && (Kept(r) ==> Kept(Dropped(r, p)))
    ensures Dropped(r, p).participants == r.participants - {p.connection}
  {
    WithoutIsExact(r.sockets, p.connection);
    WithoutIsDistinct(r.sockets, p.connection);
    FromSocketsIsExact(r.sockets);
    FromSocketsIsUnique(SocketsWithout(r.sockets, p.connection), r.participants - {p.connection});
  }

  lemma ClosedKeeps(r: State, p: Participant)
    requires Connected(r) && Kept(r) && Enabled(r, Close(p))
    ensures Connected(Closed(r, p)) && Kept(Closed(r, p))
  {
    var r' := Dropped(r, p);
    DroppedKeeps(r, p);
    BroadcastedKeeps(r', Presence(People(r')));
    RecordedKeeps(Broadcasted(r', Presence(People(r'))), RoomEvent.Left(p.user));
  }

  lemma ReattachedIsExact(sockets: seq<Participant>, p: Participant, p': Participant)
    requires Distinct(sockets) && p in sockets && p'.connection == p.connection
    ensures Distinct(Reattached(sockets, p'))
    ensures FromSockets(Reattached(sockets, p')) == FromSockets(sockets)[p.connection := p']
  {
    var m, s := FromSockets(sockets)[p.connection := p'], Reattached(sockets, p');
    FromSocketsIsExact(sockets);
    forall q <- s
      ensures q.connection in m && m[q.connection] == q
    {
      var i :| 0 <= i < |s| && s[i] == q;
      assert sockets[i] in sockets;
    }
    forall c <- m
      ensures m[c] in s && m[c].connection == c
    {
      var q := if c == p.connection then p else m[c];
      var i :| 0 <= i < |sockets| && sockets[i] == q;
      assert s[i] == m[c];
    }
    FromSocketsIsUnique(s, m);
  }

  lemma SharedKeeps(r: State, p: Participant, active: bool)
    requires Connected(r) && Kept(r) && Enabled(r, Share(p, active))
    ensures Connected(Shared(r, p, active)) && Kept(Shared(r, p, active))
  {
    var p' := p.(screenSharing := active);
    FromSocketsIsExact(r.sockets);
    ReattachedIsExact(r.sockets, p, p');
    var r1 := r.(sockets := Reattached(r.sockets, p'), participants := r.participants[p.connection := p']);
    assert Connected(r1) && Kept(r1);
    AnnouncedKeeps(r1, ScreenShared(p.user, active));
    var r2 := Announced(r1, ScreenShared(p.user, active));
    BroadcastedKeeps(r2, Presence(People(r2)));
  }

  lemma SketchedKeeps(r: State, user: string, edit: BoardEdit)
    requires Connected(r) && Kept(r)
    ensures Connected(Sketched(r, user, edit)) && Kept(Sketched(r, user, edit))
  {
    BroadcastedKeeps(r, Drawn(user, edit));
    assert (r.edits + [edit])[..|r.edits|] == r.edits;
    if edit.Draw? { LastOfLast(SinceClear(r.edits), edit.segment, MAX_STROKES); }
  }

  lemma StepKeeps(r: State, s: Step)
    requires Connected(r) && Kept(r) && Enabled(r, s)
    ensures Connected(Next(r, s)) && Kept(Next(r, s))
  {
    match s
    case Connect(user, connection) => AcceptedKeeps(r, user, connection);
    case Close(socket) => ClosedKeeps(r, socket);
    case Share(socket, active) => SharedKeeps(r, socket, active);
    case Say(socket, payload) => AnnouncedKeeps(r, Posted(socket.user, payload));
    case Sketch(socket, edit) => SketchedKeeps(r, socket.user, edit);
    case _ =>
  }

  lemma {:induction false} RunKeeps(r: State, steps: seq<Step>)
    requires Connected(r) && Kept(r) && Run(r, steps)
    ensures Connected(Result(r, steps)) && Kept(Result(r, steps))
    decreases |steps|
  {
    if steps != [] {
      StepKeeps(r, steps[0]);
      RunKeeps(Next(r, steps[0]), steps[1..]);
    }
  }

  /** The same object as far as storage, the platform and history go, whatever is in memory. */
  predicate DiffersInMemory(r: State, lost: State) {
    && lost.sockets == r.sockets && lost.stored == r.stored && lost.frames == r.frames
    && lost.recorded == r.recorded && lost.edits == r.edits
  }

  /** Hibernation is invisible: whatever is left of memory, running the constructor again brings all of it back. */
  lemma HibernationIsInvisible(steps: seq<Step>, lost: State)
    requires Run(NewRoom, steps) && DiffersInMemory(Result(NewRoom, steps), lost)
    ensures var r := Result(NewRoom, steps);
      && Woken(lost) == r
      && r.events == Last(r.recorded, 250)
      && r.strokes == Last(SinceClear(r.edits), 4_000)
  {
    RunKeeps(NewRoom, steps);
  }

  lemma LastOfTheLast<T>(s: seq<T>, m: nat, n: nat)
    requires n <= m
    ensures Last(Last(s, m), n) == Last(s, n)
  {
  }

  lemma AcceptedGreetsFirst(r: State, user: string, connection: ConnectionId)
    requires Connected(r) && Enabled(r, Connect(user, connection))
    ensures var r' := Accepted(r, user, connection); var p := Participant(user, connection, false);
      && connection in r'.frames && r'.frames[connection] != []
      && r'.frames[connection][0] == Ready(p, People(r'), Last(r.events, GREETED_EVENTS), r.strokes)
  {
    var p := Participant(user, connection, false);
    assert Opened(r, p).frames[connection] == [Greeting(Opened(r, p), p)];
  }

  /**
   * Whoever joins is greeted, whatever happened before and however often the object slept, with everybody
   * then connected, the last hundred events ever recorded, and the board as drawn since it was last cleared.
   */
  lemma GreetingsShowTheRoom(steps: seq<Step>, user: string, connection: ConnectionId)
    requires Run(NewRoom, steps) && Enabled(Result(NewRoom, steps), Connect(user, connection))
    ensures var r := Result(NewRoom, steps); var r' := Next(r, Connect(user, connection));
      && connection in r'.frames && r'.frames[connection] != []
      && r'.frames[connection][0] == Ready(
           Participant(user, connection, false),
           People(r'),
           Last(r.recorded, 100),
           Last(SinceClear(r.edits), 4_000))
  {
    RunKeeps(NewRoom, steps);
    var r := Result(NewRoom, steps);
    AcceptedGreetsFirst(r, user, connection);
    LastOfTheLast(r.recorded, MAX_EVENTS, GREETED_EVENTS);
  }

  // ---- The presence record ------------------------------------------------------------------------

  /** A user's arrivals (true) and departures (false), in the order recorded. */
  function PresenceOf(events: seq<RoomEvent>, user: string): seq<bool> {
    if events == [] then []
    else
      PresenceOf(events[..|events| - 1], user)
      + match events[|events| - 1]
        case Joined(u) => if u == user then [true] else []
        case Left(u) => if u == user then [false] else []
        case _ => []
  }

  predicate Alternates(presence: seq<bool>) {
    forall i :: 0 <= i < |presence| ==> presence[i] == (i % 2 == 0)
  }

  ghost predicate PresenceIsTrue(r: State, user: string) {
    var presence := PresenceOf(r.recorded, user);
    Alternates(presence) && (HasUser(r.participants, user) <==> |presence| % 2 == 1)
  }

  lemma PresenceAfterRecording(r: State, e: RoomEvent, user: string)
    ensures PresenceOf(Recorded(r, e).recorded, user) == PresenceOf(r.recorded, user)
      + match e
        case Joined(u) => if u == user then [true] else []
        case Left(u) => if u == user then [false] else []
        case _ => []
  {
    assert (r.recorded + [e])[..|r.recorded|] == r.recorded;
  }

  lemma UsersAfterOpening(r: State, p: Participant, anyone: string)
    requires p.connection !in r.participants
    ensures HasUser(Opened(r, p).participants, anyone) <==> HasUser(r.participants, anyone) || anyone == p.user
  {
    var people := Opened(r, p).participants;
    assert people[p.connection] == p;
    assert forall c <- r.participants :: people[c] == r.participants[c];
  }

  lemma UsersAfterDropping(r: State, p: Participant, anyone: string)
    requires Connected(r) && p in r.sockets
    ensures HasUser(r.participants, p.user)
    ensures anyone != p.user ==> (HasUser(Dropped(r, p).participants, anyone) <==> HasUser(r.participants, anyone))
  {
    DroppedKeeps(r, p);
    FromSocketsIsExact(r.sockets);
    assert r.participants[p.connection] == p;
    var people := Dropped(r, p).participants;
    assert forall c <- people :: people[c] == r.participants[c];
    assert forall c <- r.participants :: c in people || c == p.connection;
  }

  lemma UsersAfterSharing(people: map<ConnectionId, Participant>, p: Participant, active: bool, anyone: string)
    requires p.connection in people && people[p.connection] == p
    ensures HasUser(people[p.connection := p.(screenSharing := active)], anyone) <==> HasUser(people, anyone)
  {
    var people' := people[p.connection := p.(screenSharing := active)];
    assert forall c <- people :: people'[c].user == people[c].user;
  }

  /** Recording an arrival or a departure when, and only when, presence changes keeps the record true. */
  lemma PresenceAfterChange(r: State, r': State, e: RoomEvent, user: string, anyone: string)
    requires PresenceIsTrue(r, anyone) && r'.recorded == r.recorded
    requires e == RoomEvent.Joined(user) ==>
      (HasUser(r'.participants, anyone) <==> HasUser(r.participants, anyone) || anyone == user)
    requires e == RoomEvent.Left(user) ==>
      && HasUser(r.participants, user)
      && (anyone != user ==> (HasUser(r'.participants, anyone) <==> HasUser(r.participants, anyone)))
    requires e == RoomEvent.Joined(user) || e == RoomEvent.Left(user)
    ensures e.Joined? && !HasUser(r.participants, user) ==> PresenceIsTrue(Recorded(r', e), anyone)
    ensures e.Joined? && HasUser(r.participants, user) ==> PresenceIsTrue(r', anyone)
    ensures e.Left? && !HasUser(r'.participants, user) ==> PresenceIsTrue(Recorded(r', e), anyone)
    ensures e.Left? && HasUser(r'.participants, user) ==> PresenceIsTrue(r', anyone)
  {
    PresenceAfterRecording(r', e, anyone);
  }

  lemma AcceptedTellsTheTruth(r: State, user: string, connection: ConnectionId, anyone: string)
    requires Connected(r) && PresenceIsTrue(r, anyone) && Enabled(r, Connect(user, connection))
    ensures PresenceIsTrue(Accepted(r, user, connection), anyone)
  {
    var p := Participant(user, connection, false);
    var r' := Broadcasted(Opened(r, p), Presence(People(Opened(r, p))));
    UsersAfterOpening(r, p, anyone);
    PresenceAfterChange(r, r', RoomEvent.Joined(user), user, anyone);
  }

  lemma ClosedTellsTheTruth(r: State, p: Participant, anyone: string)
    requires Connected(r) && PresenceIsTrue(r, anyone) && Enabled(r, Close(p))
    ensures PresenceIsTrue(Closed(r, p), anyone)
  {
    var r' := Broadcasted(Dropped(r, p), Presence(People(Dropped(r, p))));
    UsersAfterDropping(r, p, anyone);
    PresenceAfterChange(r, r', RoomEvent.Left(p.user), p.user, anyone);
  }

  lemma SharedTellsTheTruth(r: State, p: Participant, active: bool, anyone: string)
    requires Connected(r) && PresenceIsTrue(r, anyone) && Enabled(r, Share(p, active))
    ensures PresenceIsTrue(Shared(r, p, active), anyone)
  {
    var p' := p.(screenSharing := active);
    FromSocketsIsExact(r.sockets);
    UsersAfterSharing(r.participants, p, active, anyone);
    var r' := r.(sockets := Reattached(r.sockets, p'), participants := r.participants[p.connection := p']);
    PresenceAfterRecording(Broadcasted(r', Live(ScreenShared(p.user, active))), ScreenShared(p.user, active), anyone);
  }

  lemma SaidTellsTheTruth(r: State, e: RoomEvent, user: string)
    requires PresenceIsTrue(r, user) && e.Posted?
    ensures PresenceIsTrue(Announced(r, e), user)
  {
    PresenceAfterRecording(Broadcasted(r, Live(e)), e, user);
  }

  lemma StepTellsTheTruth(r: State, s: Step, user: string)
    requires Connected(r) && Kept(r) && PresenceIsTrue(r, user) && Enabled(r, s)
    ensures PresenceIsTrue(Next(r, s), user)
  {
    match s
    case Connect(u, connection) => AcceptedTellsTheTruth(r, u, connection, user);
    case Close(socket) => ClosedTellsTheTruth(r, socket, user);
    case Share(socket, active) => SharedTellsTheTruth(r, socket, active, user);
    case Say(socket, payload) => SaidTellsTheTruth(r, Posted(socket.user, payload), user);
    case _ =>
  }

  lemma {:induction false} RunTellsTheTruth(r: State, steps: seq<Step>, user: string)
    requires Connected(r) && Kept(r) && PresenceIsTrue(r, user) && Run(r, steps)
    ensures PresenceIsTrue(Result(r, steps), user)
    decreases |steps|
  {
    if steps != [] {
      StepKeeps(r, steps[0]);
      StepTellsTheTruth(r, steps[0], user);
      RunTellsTheTruth(Next(r, steps[0]), steps[1..], user);
    }
  }

  lemma UsersHaveSockets(r: State, user: string)
    requires Connected(r)
    ensures HasUser(r.participants, user) <==> exists p <- r.sockets :: p.user == user
  {
    FromSocketsIsExact(r.sockets);
    if p :| p in r.sockets && p.user == user {
      assert r.participants[p.connection].user == user;
    }
  }

  lemma AlternationEnds(presence: seq<bool>)
    requires Alternates(presence)
    ensures |presence| % 2 == 1 <==> presence != [] && presence[|presence| - 1]
  {
  }

  lemma NobodyIsPresentAtFirst(user: string)
    ensures PresenceIsTrue(NewRoom, user)
  {
  }

  /**
   * However many devices a user connects and closes, the record of the user alternates between joined and
   * left, starts with joined, and ends with joined exactly while some device is connected.
   */
  lemma PresenceRecordAlternates(steps: seq<Step>, user: string)
    requires Run(NewRoom, steps)
    ensures var r := Result(NewRoom, steps); var presence := PresenceOf(r.recorded, user);
      && Alternates(presence)
      && ((exists p <- r.sockets :: p.user == user) <==> presence != [] && presence[|presence| - 1])
  {
    var r := Result(NewRoom, steps);
    NobodyIsPresentAtFirst(user);
    RunKeeps(NewRoom, steps);
    RunTellsTheTruth(NewRoom, steps, user);
    UsersHaveSockets(r, user);
    AlternationEnds(PresenceOf(r.recorded, user));
  }

  // ---- What every client knows --------------------------------------------------------------------

  /** A client that knows everyone else, is connected to them, and initiated to the greater ids. */
  function Member(connection: ConnectionId, everyone: set<ConnectionId>): Client {
    var others := everyone - {connection};
    Client(connection, others, others, set p <- others | Initiates(connection, p))
  }

  ghost predicate IsUpToDate(r: State, connection: ConnectionId) {
    connection in r.frames ==> AfterAll(r.frames[connection]) == Member(connection, r.participants.Keys)
  }

  /** A presence frame brings any member up to date, whoever came or went. */
  lemma SyncedIsMember(connection: ConnectionId, before: set<ConnectionId>, people: set<Participant>)
    requires connection != ""
    ensures Synced(Member(connection, before), people) == Member(connection, ConnectionsOf(people) + {connection})
  {
  }

  lemma PeopleAreTheConnections(r: State)
    requires Connected(r)
    ensures ConnectionsOf(People(r)) == r.participants.Keys
  {
    FromSocketsIsExact(r.sockets);
    forall c <- r.participants
      ensures c in ConnectionsOf(People(r))
    {
      assert r.participants[c] in People(r);
    }
  }

  lemma AfterBroadcast(r: State, f: Frame, connection: ConnectionId)
    requires connection in r.frames
    ensures AfterAll(Broadcasted(r, f).frames[connection]) == Handled(AfterAll(r.frames[connection]), f)
  {
    AfterOneMore(r.frames[connection], f);
  }

  lemma PresenceBringsUpToDate(r: State, connection: ConnectionId, before: set<ConnectionId>)
    requires Connected(r)
    requires connection in r.frames ==> AfterAll(r.frames[connection]) == Member(connection, before)
    ensures IsUpToDate(Broadcasted(r, Presence(People(r))), connection)
  {
    if connection in r.frames {
      AfterBroadcast(r, Presence(People(r)), connection);
      PeopleAreTheConnections(r);
      SyncedIsMember(connection, before, People(r));
      assert r.participants.Keys + {connection} == r.participants.Keys;
    }
  }

  lemma OthersChangeNothing(c: Client, f: Frame)
    requires f.Live? || f.Drawn?
    ensures Handled(c, f) == c
  {
  }

  lemma OthersKeepUpToDate(r: State, f: Frame, connection: ConnectionId)
    requires IsUpToDate(r, connection) && (f.Live? || f.Drawn?)
    ensures IsUpToDate(Broadcasted(r, f), connection)
  {
    if connection in r.frames {
      OthersChangeNothing(AfterAll(r.frames[connection]), f);
      AfterBroadcast(r, f, connection);
    }
    BroadcastedKeeps(r, f);
  }

  /** The greeting alone makes its receiver a member that knows everyone. */
  lemma GreetingIsUpToDate(r: State, p: Participant)
    requires Connected(r) && p.connection != "" && p.connection !in r.participants
    ensures var r' := Opened(r, p); AfterAll(r'.frames[p.connection]) == Member(p.connection, r'.participants.Keys)
  {
    var r' := Opened(r, p);
    OpenedKeeps(r, p);
    PeopleAreTheConnections(r');
    SyncedIsMember(p.connection, {}, People(r'));
    assert r'.frames[p.connection] == [] + [Greeting(r', p)];
    AfterOneMore([], Greeting(r', p));
    assert r'.participants.Keys + {p.connection} == r'.participants.Keys;
    assert Member(p.connection, {}) == Client(p.connection, {}, {}, {});
  }

  lemma AcceptedIsUpToDate(r: State, user: string, added: ConnectionId, connection: ConnectionId)
    requires Connected(r) && IsUpToDate(r, connection) && Enabled(r, Connect(user, added))
    ensures IsUpToDate(Accepted(r, user, added), connection)
  {
    var p := Participant(user, added, false);
    var r' := Opened(r, p);
    OpenedKeeps(r, p);
    if connection == added {
      GreetingIsUpToDate(r, p);
      PresenceBringsUpToDate(r', connection, r'.participants.Keys);
    } else {
      assert connection in r'.frames ==> r'.frames[connection] == r.frames[connection];
      PresenceBringsUpToDate(r', connection, r.participants.Keys);
    }
  }

  lemma ClosedIsUpToDate(r: State, p: Participant, connection: ConnectionId)
    requires Connected(r) && IsUpToDate(r, connection) && Enabled(r, Close(p))
    ensures IsUpToDate(Closed(r, p), connection)
  {
    DroppedKeeps(r, p);
    PresenceBringsUpToDate(Dropped(r, p), connection, r.participants.Keys);
  }

  lemma SharedIsUpToDate(r: State, p: Participant, active: bool, connection: ConnectionId)
    requires Connected(r) && Kept(r) && IsUpToDate(r, connection) && Enabled(r, Share(p, active))
    ensures IsUpToDate(Shared(r, p, active), connection)
  {
    var p' := p.(screenSharing := active);
    FromSocketsIsExact(r.sockets);
    ReattachedIsExact(r.sockets, p, p');
    var r1 := r.(sockets := Reattached(r.sockets, p'), participants := r.participants[p.connection := p']);
    assert r1.participants.Keys == r.participants.Keys;
    assert IsUpToDate(r1, connection);
    OthersKeepUpToDate(r1, Live(ScreenShared(p.user, active)), connection);
    AnnouncedKeeps(r1, ScreenShared(p.user, active));
    var r2 := Announced(r1, ScreenShared(p.user, active));
    PresenceBringsUpToDate(r2, connection, r2.participants.Keys);
  }

  lemma SignalledIsUpToDate(
    r: State, from: ConnectionId, to: ConnectionId, signal: string, connection: ConnectionId)
    requires Connected(r) && IsUpToDate(r, connection) && Enabled(r, Signal(from, to, signal))
    ensures IsUpToDate(Signalled(r, from, to, signal), connection)
  {
    if to in r.frames && to == connection {
      AfterOneMore(r.frames[to], Relayed(from, signal));
      var c := Member(connection, r.participants.Keys);
      assert c.mesh + {from} == c.mesh;
    }
  }

  lemma {:induction false} RunKeepsUpToDate(r: State, steps: seq<Step>, connection: ConnectionId)
    requires Connected(r) && Kept(r) && IsUpToDate(r, connection) && Run(r, steps)
    ensures IsUpToDate(Result(r, steps), connection)
    decreases |steps|
  {
    if steps != [] {
      var s := steps[0];
      StepKeeps(r, s);
      match s {
        case Connect(user, added) => AcceptedIsUpToDate(r, user, added, connection);
        case Close(socket) => ClosedIsUpToDate(r, socket, connection);
        case Share(socket, active) => SharedIsUpToDate(r, socket, active, connection);
        case Say(socket, payload) => OthersKeepUpToDate(r, Live(Posted(socket.user, payload)), connection);
        case Sketch(socket, edit) => OthersKeepUpToDate(r, Drawn(socket.user, edit), connection);
        case Signal(from, to, signal) => SignalledIsUpToDate(r, from, to, signal, connection);
        case Visit(_) =>
        case Wake =>
      }
      RunKeepsUpToDate(Next(r, s), steps[1..], connection);
    }
  }

  /**
   * A client that has handled everything sent to its open socket knows exactly the others connected, and
   * its mesh has exactly their connections, whatever came, went, or was relayed in between.
   */
  lemma ClientsKnowTheRoom(steps: seq<Step>, connection: ConnectionId)
    requires Run(NewRoom, steps) && connection in Result(NewRoom, steps).participants
    ensures var r := Result(NewRoom, steps); var others := r.participants.Keys - {connection};
      && connection in r.frames
      && AfterAll(r.frames[connection]).known == others
      && AfterAll(r.frames[connection]).mesh == others
  {
    RunKeeps(NewRoom, steps);
    RunKeepsUpToDate(NewRoom, steps, connection);
  }

  /** Of any two connected clients exactly one initiated, and it is the one that is not polite to the other. */
  lemma EveryPairHasOneInitiator(steps: seq<Step>, a: ConnectionId, b: ConnectionId)
    requires Run(NewRoom, steps) && a != b
    requires a in Result(NewRoom, steps).participants && b in Result(NewRoom, steps).participants
    ensures var r := Result(NewRoom, steps);
      && a in r.frames && b in r.frames
      && b in AfterAll(r.frames[a]).mesh && a in AfterAll(r.frames[b]).mesh
      && (b in AfterAll(r.frames[a]).initiated <==> a !in AfterAll(r.frames[b]).initiated)
      && (b in AfterAll(r.frames[a]).initiated <==> !IsPolite(a, b))
  {
    RunKeeps(NewRoom, steps);
    RunKeepsUpToDate(NewRoom, steps, a);
    RunKeepsUpToDate(NewRoom, steps, b);
    OneInitiatorPerPair(a, b);
  }

  // ---- The object as the source updates it --------------------------------------------------------

  function Connections(sockets: seq<Participant>): set<ConnectionId> {
    set p <- sockets :: p.connection
  }

  /** What rebuilding the participants socket by socket gives, leaving one out. */
  function Rebuilt(sockets: seq<Participant>, excluded: Option<ConnectionId>): map<ConnectionId, Participant> {
    if sockets == [] then map[]
    else
      var last := sockets[|sockets| - 1];
      var before := Rebuilt(sockets[..|sockets| - 1], excluded);
      if excluded == Some(last.connection) then before else before[last.connection := last]
  }

  lemma {:induction false} RebuiltIsFromSockets(sockets: seq<Participant>, connection: ConnectionId)
    ensures Rebuilt(sockets, None) == FromSockets(sockets)
    ensures Rebuilt(sockets, Some(connection)) == FromSockets(SocketsWithout(sockets, connection))
    ensures Rebuilt(SocketsWithout(sockets, connection), Some(connection)) ==
      FromSockets(SocketsWithout(sockets, connection))
  {
    if sockets != [] {
      var n := |sockets| - 1;
      RebuiltIsFromSockets(sockets[..n], connection);
      var open := SocketsWithout(sockets[..n], connection);
      assert (open + [sockets[n]])[..|open|] == open && open + [] == open;
    }
  }

  lemma {:induction false} WithoutTwice(sockets: seq<Participant>, connection: ConnectionId)
    ensures SocketsWithout(SocketsWithout(sockets, connection), connection) == SocketsWithout(sockets, connection)
  {
    if sockets != [] {
      var n := |sockets| - 1;
      WithoutTwice(sockets[..n], connection);
      var open := SocketsWithout(sockets[..n], connection);
      assert (open + [sockets[n]])[..|open|] == open && open + [] == open;
    }
  }

  lemma RemainingSockets(sockets: seq<Participant>, connection: ConnectionId)
    requires Distinct(sockets)
    ensures var open := SocketsWithout(sockets, connection);
      Distinct(open) && Connections(open) <= Connections(sockets) && SocketsWithout(open, connection) == open
  {
    WithoutIsExact(sockets, connection);
    WithoutIsDistinct(sockets, connection);
    WithoutTwice(sockets, connection);
  }

  /** What sending a frame socket by socket gives; a socket that takes nothing is passed over. */
  function Delivered(sockets: seq<Participant>, frames: map<ConnectionId, seq<Frame>>, f: Frame)
    : map<ConnectionId, seq<Frame>>
  {
    if sockets == [] then frames
    else
      var c := sockets[|sockets| - 1].connection;
      var before := Delivered(sockets[..|sockets| - 1], frames, f);
      if c in before then before[c := before[c] + [f]] else before
  }

  lemma {:induction false} DeliveredToEach(sockets: seq<Participant>, frames: map<ConnectionId, seq<Frame>>, f: Frame)
    requires Distinct(sockets)
    ensures Delivered(sockets, frames, f).Keys == frames.Keys
    ensures forall c <- frames ::
      Delivered(sockets, frames, f)[c] == frames[c] + if c in Connections(sockets) then [f] else []
  {
    if sockets != [] {
      var n := |sockets| - 1;
      DeliveredToEach(sockets[..n], frames, f);
      assert sockets == sockets[..n] + [sockets[n]];
      assert Connections(sockets) == Connections(sockets[..n]) + {sockets[n].connection};
      assert sockets[n].connection !in Connections(sockets[..n]);
    }
  }

  lemma DeliveredIsBroadcast(sockets: seq<Participant>, r: State, f: Frame)
    requires Distinct(sockets) && r.frames.Keys <= Connections(sockets)
    ensures Delivered(sockets, r.frames, f) == Broadcasted(r, f).frames
  {
    DeliveredToEach(sockets, r.frames, f);
  }

  lemma RecipientsAreOpen(r: State)
    requires Connected(r)
    ensures r.frames.Keys <= Connections(r.sockets)
  {
    FromSocketsIsExact(r.sockets);
    forall c <- r.frames
      ensures c in Connections(r.sockets)
    {
      assert r.participants[c] in r.sockets;
    }
  }

  /** `sockets` and `frames` belong to the platform: the enumeration getWebSockets() gives and what it carried. */
  class RoomDurableObject {
    var roomId: string
    var sockets: seq<Participant>
    var participants: map<ConnectionId, Participant>
    var events: seq<RoomEvent>
    var strokes: seq<Segment>
    var storage: Storage
    var frames: map<ConnectionId, seq<Frame>>
    ghost var recorded: seq<RoomEvent>
    ghost var edits: seq<BoardEdit>

    ghost function Value(): State
      reads this
    {
      State(roomId, sockets, participants, events, strokes, storage, frames, recorded, edits)
    }

    constructor ()
      ensures Value() == NewRoom
    {
      roomId, sockets, participants, events, strokes := "", [], map[], [], [];
      storage, frames, recorded, edits := Storage("", [], []), map[], [], [];
    }

    /** The constructor of a woken object, on what storage and the platform kept. */
    method Restore()
      modifies this
      ensures Value() == Woken(old(Value()))
    {
      events := storage.events;
      roomId := storage.room;
      strokes := storage.strokes;
      RestoreParticipants(None);
      RebuiltIsFromSockets(sockets, "");
    }

    /** The beginning of fetch, for a ticket that fits. */
    method Visit(room: string)
      modifies this
      ensures Value() == Visited(old(Value()), room)
    {
      roomId := room;
      storage := storage.(room := room);
    }

    /** Rebuilds the participants from the enumeration, leaving out a socket known to be gone. */
    method RestoreParticipants(excluded: Option<ConnectionId>)
      modifies this`participants
      ensures participants == Rebuilt(sockets, excluded)
    {
      participants := map[];
      for i := 0 to |sockets|
        invariant participants == Rebuilt(sockets[..i], excluded)
      {
        assert sockets[..i + 1][..i] == sockets[..i];
        if excluded != Some(sockets[i].connection) {
          participants := participants[sockets[i].connection := sockets[i]];
        }
      }
      assert sockets[..|sockets|] == sockets;
    }

    method IsUserPresent(user: string) returns (present: bool)
      ensures present == HasUser(participants, user)
    {
      present := false;
      var todo := participants.Keys;
      while todo != {}
        invariant todo <= participants.Keys
        invariant present <==> exists c <- participants.Keys - todo :: participants[c].user == user
        decreases |todo|
      {
        var c :| c in todo;
        todo := todo - {c};
        if participants[c].user == user { present := true; }
      }
    }

    /** Sends to every enumerated socket; one that is closed but still enumerated takes nothing. */
    method Broadcast(f: Frame)
      requires Distinct(sockets) && frames.Keys <= Connections(sockets)
      modifies this`frames
      ensures Value() == Broadcasted(old(Value()), f)
    {
      for i := 0 to |sockets|
        invariant frames == Delivered(sockets[..i], old(frames), f)
      {
        assert sockets[..i + 1][..i] == sockets[..i];
        var c := sockets[i].connection;
        if c in frames { frames := frames[c := frames[c] + [f]]; }
      }
      assert sockets[..|sockets|] == sockets;
      DeliveredIsBroadcast(sockets, old(Value()), f);
    }

    method Record(e: RoomEvent)
      modifies this
      ensures Value() == Recorded(old(Value()), e)
    {
      events := Last(events + [e], MAX_EVENTS);
      storage := storage.(events := events);
      recorded := recorded + [e];
    }

    method AcceptSocket(user: string, connection: ConnectionId)
      requires Connected(Value()) && connection != "" && connection !in participants
      modifies this
      ensures Value() == Accepted(old(Value()), user, connection)
    {
      var alreadyPresent := IsUserPresent(user);
      var participant := Participant(user, connection, false);
      OpenedKeeps(Value(), participant);
      sockets := sockets + [participant];
      participants := participants[connection := participant];
      frames := frames[connection := [Ready(participant, participants.Values, Last(events, GREETED_EVENTS), strokes)]];
      assert Value() == Opened(old(Value()), participant);
      RecipientsAreOpen(Value());
      Broadcast(Presence(participants.Values));
      if !alreadyPresent { Record(RoomEvent.Joined(user)); }
    }

    /** The enumeration may still hold the closing socket; afterwards the platform has dropped it. */
    method WebSocketClose(socket: Participant, lingers: bool)
      requires Connected(Value()) && socket in sockets
      modifies this
      ensures Value() == Closed(old(Value()), socket)
    {
      ghost var dropped := Dropped(Value(), socket);
      DroppedKeeps(Value(), socket);
      RecipientsAreOpen(dropped);
      ForgetSocket(socket, lingers);
      assert dropped.frames.Keys <= Connections(sockets);
      Broadcast(Presence(participants.Values));
      sockets := SocketsWithout(sockets, socket.connection);
      assert Value() == Broadcasted(dropped, Presence(People(dropped)));
      var userStillPresent := IsUserPresent(socket.user);
      if !userStillPresent { Record(RoomEvent.Left(socket.user)); }
    }

    /** The socket takes no more frames and is no participant any more, though it may still be enumerated. */
    method ForgetSocket(socket: Participant, lingers: bool)
      requires Connected(Value()) && socket in sockets
      modifies this
      ensures var dropped := Dropped(old(Value()), socket);
        && Value().(sockets := dropped.sockets) == dropped
        && Distinct(sockets) && Connections(dropped.sockets) <= Connections(sockets)
        && SocketsWithout(sockets, socket.connection) == dropped.sockets
    {
      assert Distinct(sockets);
      RebuiltIsFromSockets(sockets, socket.connection);
      RemainingSockets(sockets, socket.connection);
      frames := frames - {socket.connection};
      if !lingers { sockets := SocketsWithout(sockets, socket.connection); }
      RestoreParticipants(Some(socket.connection));
    }

    method ShareScreen(socket: Participant, active: bool)
      requires Connected(Value()) && socket in sockets
      modifies this
      ensures Value() == Shared(old(Value()), socket, active)
    {
      var participant := socket.(screenSharing := active);
      Reattach(socket, participant);
      RecipientsAreOpen(Value());
      Broadcast(Live(ScreenShared(socket.user, active)));
      Record(ScreenShared(socket.user, active));
      Broadcast(Presence(participants.Values));
    }

    method Say(socket: Participant, payload: string)
      requires Connected(Value())
      modifies this
      ensures Value() == Announced(old(Value()), Posted(socket.user, payload))
    {
      RecipientsAreOpen(Value());
      Broadcast(Live(Posted(socket.user, payload)));
      Record(Posted(socket.user, payload));
    }

    /** A signal goes to the one connection it names. */
    method Relay(from: ConnectionId, to: ConnectionId, signal: string)
      modifies this
      ensures Value() == Signalled(old(Value()), from, to, signal)
    {
      if to in frames { frames := frames[to := frames[to] + [Relayed(from, signal)]]; }
    }

    /** Writes a participant's new attachment back to its socket and to memory. */
    method Reattach(socket: Participant, participant: Participant)
      requires Connected(Value()) && socket in sockets && participant.connection == socket.connection
      modifies this
      ensures Connected(Value())
      ensures Value() == old(Value()).(
                           sockets := Reattached(old(sockets), participant),
                           participants := old(participants)[socket.connection := participant])
    {
      FromSocketsIsExact(sockets);
      ReattachedIsExact(sockets, socket, participant);
      sockets := Reattached(sockets, participant);
      participants := participants[socket.connection := participant];
    }

    method ApplyWhiteboard(user: string, edit: BoardEdit)
      requires Connected(Value())
      modifies this
      ensures Value() == Sketched(old(Value()), user, edit)
    {
      RecipientsAreOpen(Value());
      Broadcast(Drawn(user, edit));
      if edit.Clear? {
        strokes := [];
      } else {
        strokes := strokes + [edit.segment];
        if |strokes| > MAX_STROKES { strokes := strokes[|strokes| - MAX_STROKES..]; }
      }
      storage := storage.(strokes := strokes);
      edits := edits + [edit];
    }
  }
}
