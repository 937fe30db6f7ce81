/**
 * What a room makes of its steps (apps/realtime/src/index.ts), counted off the steps alone: who is connected,
 * what each open socket is sent, and what is recorded. Nothing here reads the state in between.
 */
module Traffic {
  import opened ConnectionIds
  import opened MeshClient
  import opened Room

  // ---- Who is connected ---------------------------------------------------------------------------

  /** The participants after a step that found `people`. */
  function PeopleAfter(people: set<Participant>, s: Step): set<Participant> {
    match s
    case Connect(user, connection) => people + {Participant(user, connection, false)}
    case Close(socket) => people - {socket}
    case Share(socket, active) => people - {socket} + {socket.(screenSharing := active)}
    case _ => people
  }

  function PeopleIn(people: set<Participant>, steps: seq<Step>): set<Participant>
    decreases |steps|
  {
    if steps == [] then people else PeopleIn(PeopleAfter(people, steps[0]), steps[1..])
  }

  lemma PeopleAreTheSockets(r: State)
    requires Connected(r)
    ensures forall p :: p in People(r) <==> p in r.sockets
  {
    FromSocketsIsExact(r.sockets);
    forall p <- r.sockets
      ensures p in People(r)
    {
      assert r.participants[p.connection] == p;
    }
  }

  lemma OpenedPeople(r: State, p: Participant)
    requires p.connection !in r.participants
    ensures People(Opened(r, p)) == People(r) + {p}
  {
    var m, m' := r.participants, Opened(r, p).participants;
    assert m'[p.connection] == p && forall c <- m :: m'[c] == m[c];
  }

  lemma DroppedPeople(r: State, p: Participant)
    requires Connected(r) && p in r.sockets
    ensures People(Dropped(r, p)) == People(r) - {p}
  {
    DroppedKeeps(r, p);
    FromSocketsIsExact(r.sockets);
    var m, m' := r.participants, Dropped(r, p).participants;
    forall q <- m.Values | q != p
      ensures q in m'.Values
    {
      assert q.connection in m' && m'[q.connection] == q;
    }
  }

  lemma SharedPeople(m: map<ConnectionId, Participant>, p: Participant, active: bool)
    requires (forall c <- m :: m[c].connection == c) && p.connection in m && m[p.connection] == p
    ensures m[p.connection := p.(screenSharing := active)].Values ==
      m.Values - {p} + {p.(screenSharing := active)}
  {
    var m' := m[p.connection := p.(screenSharing := active)];
    forall q <- m.Values | q != p
      ensures q in m'.Values
    {
      assert q.connection in m && m'[q.connection] == q;
    }
    assert m'[p.connection] in m'.Values;
  }

  lemma StepPeople(r: State, s: Step)
    requires Connected(r) && Kept(r) && Enabled(r, s)
    ensures People(Next(r, s)) == PeopleAfter(People(r), s)
  {
    match s
    case Connect(user, connection) => OpenedPeople(r, Participant(user, connection, false));
    case Close(socket) => DroppedPeople(r, socket);
    case Share(socket, active) =>
      FromSocketsIsExact(r.sockets);
      SharedPeople(r.participants, socket, active);
    case _ =>
  }

  // ---- What a socket is sent ----------------------------------------------------------------------

  /** What others did, in the order the frames tell it. */
  function Contents(frames: seq<Frame>): seq<Frame> {
    if frames == [] then []
    else
      var f := frames[|frames| - 1];
      Contents(frames[..|frames| - 1]) + if f.Relayed? || f.Live? || f.Drawn? then [f] else []
  }

  lemma ContentsOfOneMore(frames: seq<Frame>, f: Frame)
    ensures Contents(frames + [f]) == Contents(frames) + if f.Relayed? || f.Live? || f.Drawn? then [f] else []
  {
    assert (frames + [f])[..|frames|] == frames;
  }

  /**
   * What the socket `c` has to be told, after a step that found `told`: signals for it alone, and everything
   * said, shared or drawn. A new socket has been told nothing.
   */
  function ToldAfter(told: seq<Frame>, s: Step, c: ConnectionId): seq<Frame> {
    match s
    case Connect(_, connection) => if connection == c then [] else told
    case Signal(from, to, signal) => if to == c then told + [Relayed(from, signal)] else told
    case Say(socket, payload) => told + [Live(Posted(socket.user, payload))]
    case Share(socket, active) => told + [Live(ScreenShared(socket.user, active))]
    case Sketch(socket, edit) => told + [Drawn(socket.user, edit)]
    case _ => told
  }

  function ToldIn(told: seq<Frame>, steps: seq<Step>, c: ConnectionId): seq<Frame>
    decreases |steps|
  {
    if steps == [] then told else ToldIn(ToldAfter(told, steps[0], c), steps[1..], c)
  }

  ghost predicate IsTold(r: State, told: seq<Frame>, c: ConnectionId) {
    c in r.frames ==> Contents(r.frames[c]) == told
  }

  lemma BroadcastTells(r: State, f: Frame, told: seq<Frame>, c: ConnectionId)
    requires IsTold(r, told, c)
    ensures f.Presence? ==> IsTold(Broadcasted(r, f), told, c)
    ensures f.Live? || f.Drawn? ==> IsTold(Broadcasted(r, f), told + [f], c)
  {
    if c in r.frames { ContentsOfOneMore(r.frames[c], f); }
  }

  lemma OnlyTheGreeting(r: State, p: Participant)
    ensures Contents(Opened(r, p).frames[p.connection]) == []
  {
    var r' := r.(sockets := r.sockets + [p], participants := r.participants[p.connection := p]);
    var greeting := Greeting(r', p);
    assert Opened(r, p).frames[p.connection] == [greeting];
    ContentsOfOneMore([], greeting);
    assert [] + [greeting] == [greeting];
  }

  lemma OpeningTells(r: State, p: Participant, told: seq<Frame>, c: ConnectionId)
    requires IsTold(r, told, c)
    ensures IsTold(Opened(r, p), if p.connection == c then [] else told, c)
  {
    if p.connection == c { OnlyTheGreeting(r, p); }
  }

  lemma AcceptedTells(r: State, user: string, connection: ConnectionId, told: seq<Frame>, c: ConnectionId)
    requires IsTold(r, told, c)
    ensures IsTold(Accepted(r, user, connection), if connection == c then [] else told, c)
  {
    var r' := Opened(r, Participant(user, connection, false));
    OpeningTells(r, Participant(user, connection, false), told, c);
    BroadcastTells(r', Presence(People(r')), if connection == c then [] else told, c);
  }

  lemma ClosedTells(r: State, p: Participant, told: seq<Frame>, c: ConnectionId)
    requires IsTold(r, told, c)
    ensures IsTold(Closed(r, p), told, c)
  {
    var r' := Dropped(r, p);
    BroadcastTells(r', Presence(People(r')), told, c);
  }

  lemma SharedTells(r: State, p: Participant, active: bool, told: seq<Frame>, c: ConnectionId)
    requires IsTold(r, told, c)
    ensures IsTold(Shared(r, p, active), told + [Live(ScreenShared(p.user, active))], c)
  {
    var p', e := p.(screenSharing := active), ScreenShared(p.user, active);
    var r1 := r.(sockets := Reattached(r.sockets, p'), participants := r.participants[p.connection := p']);
    BroadcastTells(r1, Live(e), told, c);
    BroadcastTells(Announced(r1, e), Presence(People(Announced(r1, e))), told + [Live(e)], c);
  }

  lemma SignalTells(r: State, from: ConnectionId, to: ConnectionId, signal: string, told: seq<Frame>, c: ConnectionId)
    requires IsTold(r, told, c)
    ensures IsTold(Signalled(r, from, to, signal), if to == c then told + [Relayed(from, signal)] else told, c)
  {
    if to in r.frames && to == c { ContentsOfOneMore(r.frames[to], Relayed(from, signal)); }
  }

  lemma StepTells(r: State, s: Step, told: seq<Frame>, c: ConnectionId)
    requires Connected(r) && Enabled(r, s) && IsTold(r, told, c)
    ensures IsTold(Next(r, s), ToldAfter(told, s, c), c)
  {
    match s
    case Connect(user, connection) => AcceptedTells(r, user, connection, told, c);
    case Close(socket) => ClosedTells(r, socket, told, c);
    case Share(socket, active) => SharedTells(r, socket, active, told, c);
    case Say(socket, payload) => BroadcastTells(r, Live(Posted(socket.user, payload)), told, c);
    case Sketch(socket, edit) => BroadcastTells(r, Drawn(socket.user, edit), told, c);
    case Signal(from, to, signal) => SignalTells(r, from, to, signal, told, c);
    case _ =>
  }

  /** The last list of participants among the frames. */
  function LastList(frames: seq<Frame>): set<Participant> {
    if frames == [] then {}
    else
      match frames[|frames| - 1]
      case Ready(_, people, _, _) => people
      case Presence(people) => people
      case _ => LastList(frames[..|frames| - 1])
  }

  ghost predicate SeesEverybody(r: State, c: ConnectionId) {
    c in r.frames ==> LastList(r.frames[c]) == People(r)
  }

  lemma LastListOfOneMore(frames: seq<Frame>, f: Frame)
    ensures LastList(frames + [f]) ==
      match f
      case Ready(_, people, _, _) => people
      case Presence(people) => people
      case _ => LastList(frames)
  {
    assert (frames + [f])[..|frames|] == frames;
  }

  lemma ContentsShowNobody(r: State, f: Frame, c: ConnectionId)
    requires f.Relayed? || f.Live? || f.Drawn?
    ensures c in r.frames ==> LastList(r.frames[c] + [f]) == LastList(r.frames[c])
  {
    if c in r.frames { LastListOfOneMore(r.frames[c], f); }
  }

  lemma StepShowsEverybody(r: State, s: Step, c: ConnectionId)
    requires Connected(r) && Kept(r) && Enabled(r, s) && SeesEverybody(r, c)
    ensures SeesEverybody(Next(r, s), c)
  {
    match s
    case Connect(user, connection) => PresenceShowsEverybody(Opened(r, Participant(user, connection, false)), c);
    case Close(socket) => PresenceShowsEverybody(Dropped(r, socket), c);
    case Share(socket, active) =>
      var p' := socket.(screenSharing := active);
      var r1 := r.(sockets := Reattached(r.sockets, p'), participants := r.participants[socket.connection := p']);
      PresenceShowsEverybody(Announced(r1, ScreenShared(socket.user, active)), c);
    case Say(socket, payload) => ContentsShowNobody(r, Live(Posted(socket.user, payload)), c);
    case Sketch(socket, edit) => ContentsShowNobody(r, Drawn(socket.user, edit), c);
    case Signal(from, to, signal) => ContentsShowNobody(r, Relayed(from, signal), c);
    case _ =>
  }

  lemma PresenceShowsEverybody(r: State, c: ConnectionId)
    ensures SeesEverybody(Broadcasted(r, Presence(People(r))), c)
  {
    if c in r.frames { LastListOfOneMore(r.frames[c], Presence(People(r))); }
  }

  // ---- What is recorded ---------------------------------------------------------------------------

  /** What was said or shared, in the order recorded; arrivals and departures are told apart elsewhere. */
  function PostsOf(events: seq<RoomEvent>): seq<RoomEvent> {
    if events == [] then []
    else
      var e := events[|events| - 1];
      PostsOf(events[..|events| - 1]) + if e.Posted? || e.ScreenShared? then [e] else []
  }

  function PostsAfter(posts: seq<RoomEvent>, s: Step): seq<RoomEvent> {
    match s
    case Say(socket, payload) => posts + [Posted(socket.user, payload)]
    case Share(socket, active) => posts + [ScreenShared(socket.user, active)]
    case _ => posts
  }

  function PostsIn(posts: seq<RoomEvent>, steps: seq<Step>): seq<RoomEvent>
    decreases |steps|
  {
    if steps == [] then posts else PostsIn(PostsAfter(posts, steps[0]), steps[1..])
  }

  function EditsIn(edits: seq<BoardEdit>, steps: seq<Step>): seq<BoardEdit>
    decreases |steps|
  {
    if steps == [] then edits
    else EditsIn(if steps[0].Sketch? then edits + [steps[0].edit] else edits, steps[1..])
  }

  function RoomIn(room: string, steps: seq<Step>): string
    decreases |steps|
  {
    if steps == [] then room else RoomIn(if steps[0].Visit? then steps[0].room else room, steps[1..])
  }

  lemma PostsOfOneMore(events: seq<RoomEvent>, e: RoomEvent)
    ensures PostsOf(events + [e]) == if e.Posted? || e.ScreenShared? then PostsOf(events) + [e] else PostsOf(events)
  {
    assert (events + [e])[..|events|] == events;
  }

  /** What a step may record. */
  predicate Records(before: seq<RoomEvent>, after: seq<RoomEvent>, s: Step) {
    match s
    case Connect(user, _) => after == before || after == before + [RoomEvent.Joined(user)]
    case Close(socket) => after == before || after == before + [RoomEvent.Left(socket.user)]
    case Share(socket, active) => after == before + [ScreenShared(socket.user, active)]
    case Say(socket, payload) => after == before + [Posted(socket.user, payload)]
    case _ => after == before
  }

  lemma StepRecordsOne(r: State, s: Step)
    requires Enabled(r, s)
    ensures Records(r.recorded, Next(r, s).recorded, s)
  {
  }

  lemma PostsAfterOne(before: seq<RoomEvent>, after: seq<RoomEvent>, s: Step)
    requires Records(before, after, s)
    ensures PostsOf(after) == PostsAfter(PostsOf(before), s)
  {
    match s
    case Connect(user, _) => PostsOfOneMore(before, RoomEvent.Joined(user));
    case Close(socket) => PostsOfOneMore(before, RoomEvent.Left(socket.user));
    case Share(socket, active) => PostsOfOneMore(before, ScreenShared(socket.user, active));
    case Say(socket, payload) => PostsOfOneMore(before, Posted(socket.user, payload));
    case _ =>
  }

  lemma StepRecords(r: State, s: Step)
    requires Kept(r) && Enabled(r, s)
    ensures PostsOf(Next(r, s).recorded) == PostsAfter(PostsOf(r.recorded), s)
    ensures Next(r, s).edits == if s.Sketch? then r.edits + [s.edit] else r.edits
    ensures Next(r, s).room == if s.Visit? then s.room else r.room
  {
    StepRecordsOne(r, s);
    PostsAfterOne(r.recorded, Next(r, s).recorded, s);
  }

  // ---- Over every run -----------------------------------------------------------------------------

  lemma {:induction false} RunTells(r: State, steps: seq<Step>, told: seq<Frame>, c: ConnectionId)
    requires Connected(r) && Kept(r) && Run(r, steps) && IsTold(r, told, c) && SeesEverybody(r, c)
    ensures IsTold(Result(r, steps), ToldIn(told, steps, c), c) && SeesEverybody(Result(r, steps), c)
    decreases |steps|
  {
    if steps != [] {
      StepKeeps(r, steps[0]);
      StepTells(r, steps[0], told, c);
      StepShowsEverybody(r, steps[0], c);
      RunTells(Next(r, steps[0]), steps[1..], ToldAfter(told, steps[0], c), c);
    }
  }

  lemma {:induction false} RunRecords(r: State, steps: seq<Step>)
    requires Connected(r) && Kept(r) && Run(r, steps)
    ensures var r' := Result(r, steps);
      && Connected(r') && Kept(r')
      && PostsOf(r'.recorded) == PostsIn(PostsOf(r.recorded), steps)
      && r'.edits == EditsIn(r.edits, steps)
      && r'.room == RoomIn(r.room, steps)
      && People(r') == PeopleIn(People(r), steps)
    decreases |steps|
  {
    if steps != [] {
      StepKeeps(r, steps[0]);
      StepPeople(r, steps[0]);
      StepRecords(r, steps[0]);
      RunRecords(Next(r, steps[0]), steps[1..]);
    }
  }

  /** Connected, in memory and as sockets, are those who connected and have not closed, sharing as they last said. */
  lemma ConnectedAreThoseWhoCame(steps: seq<Step>, p: Participant)
    requires Run(NewRoom, steps)
    ensures var r := Result(NewRoom, steps);
      && (p in r.sockets <==> p in PeopleIn({}, steps))
      && (p.connection in r.participants && r.participants[p.connection] == p <==> p in PeopleIn({}, steps))
  {
    RunRecords(NewRoom, steps);
    var r := Result(NewRoom, steps);
    PeopleAreTheSockets(r);
    FromSocketsIsExact(r.sockets);
    assert People(NewRoom) == {};
  }

  /**
   * An open socket has been told exactly the signals addressed to it and all that was said, shared and drawn
   * since it connected, in the order it happened; and the last list it was sent shows everybody now connected.
   */
  lemma SocketsAreToldEverything(steps: seq<Step>, c: ConnectionId)
    requires Run(NewRoom, steps)
    ensures var r := Result(NewRoom, steps);
      && (c in r.frames <==> exists p <- PeopleIn({}, steps) :: p.connection == c)
      && (c in r.frames ==> Contents(r.frames[c]) == ToldIn([], steps, c))
      && (c in r.frames ==> LastList(r.frames[c]) == PeopleIn({}, steps))
  {
    RunTells(NewRoom, steps, [], c);
    RunRecords(NewRoom, steps);
    var r := Result(NewRoom, steps);
    assert People(NewRoom) == {};
    FromSocketsIsExact(r.sockets);
    if c in r.frames { assert r.participants[c] in People(r); }
  }

  /** The record holds what was said and shared, the board what was drawn, the room id is the last one visited. */
  lemma TheRecordIsWhatHappened(steps: seq<Step>)
    requires Run(NewRoom, steps)
    ensures var r := Result(NewRoom, steps);
      && PostsOf(r.recorded) == PostsIn([], steps)
      && r.edits == EditsIn([], steps)
      && r.room == RoomIn("", steps)
  {
    RunRecords(NewRoom, steps);
  }
}
