/** What a browser does with the frames of its room socket, as far as its peer mesh goes (room-workspace.tsx). */
module MeshClient {
  import opened ConnectionIds

  datatype Participant = Participant(user: string, connection: ConnectionId, screenSharing: bool)

  datatype Segment = Segment(fromX: int, fromY: int, toX: int, toY: int)

  datatype BoardEdit = Draw(segment: Segment) | Clear

  datatype RoomEvent =
    | Joined(user: string)
    | Left(user: string)
    | Posted(user: string, payload: string)
    | ScreenShared(user: string, active: bool)

  /**
   * `Ready` opens a connection with the recent events and the board, `Presence` lists the room again,
   * `Relayed` is a signal of another peer; `Live` and `Drawn` are what somebody in the room just did.
   */
  datatype Frame =
    | Ready(self: Participant, people: set<Participant>, events: seq<RoomEvent>, strokes: seq<Segment>)
    | Presence(people: set<Participant>)
    | Relayed(from: ConnectionId, signal: string)
    | Live(event: RoomEvent)
    | Drawn(user: string, edit: BoardEdit)

  /** `known` is knownPeersRef, `mesh` the keys of PeerMesh.peers, `initiated` the peers connected to as initiator. */
  datatype Client = Client(
    local: ConnectionId,
    known: set<ConnectionId>,
    mesh: set<ConnectionId>,
    initiated: set<ConnectionId>)

  const Unconnected := Client("", {}, {}, {})

  function ConnectionsOf(people: set<Participant>): set<ConnectionId> {
    set p <- people :: p.connection
  }

  function Without(c: Client, gone: set<ConnectionId>): Client {
    Client(c.local, c.known - gone, c.mesh - gone, c.initiated - gone)
  }

  lemma WithoutOneMore(c: Client, gone: set<ConnectionId>, peer: ConnectionId)
    ensures Without(Without(c, gone), {peer}) == Without(c, gone + {peer})
  {
  }

  function WithoutDeparted(c: Client, present: set<ConnectionId>): Client {
    Without(c, c.known - present)
  }

  function WithArrived(c: Client, arrived: set<ConnectionId>): Client {
    Client(c.local, c.known + arrived, c.mesh + arrived,
           c.initiated + set p <- arrived | Initiates(c.local, p))
  }

  function NewTo(c: Client, people: set<Participant>): set<ConnectionId> {
    ConnectionsOf(people) - {c.local} - c.known
  }

  /** Welcoming people one at a time comes to the same as welcoming them together. */
  lemma ArrivalsAddUp(c: Client, done: set<Participant>, p: Participant)
    ensures var c' := WithArrived(c, NewTo(c, done));
      WithArrived(c, NewTo(c, done + {p})) ==
        if p.connection != c'.local && p.connection !in c'.known then WithArrived(c', {p.connection}) else c'
  {
    assert ConnectionsOf(done + {p}) == ConnectionsOf(done) + {p.connection};
    var a, b := NewTo(c, done), NewTo(c, done + {p});
    if p.connection == c.local || p.connection in c.known + a {
      assert b == a;
    } else {
      assert b == a + {p.connection};
      assert (set q <- b | Initiates(c.local, q)) ==
        (set q <- a | Initiates(c.local, q)) + (set q <- {p.connection} | Initiates(c.local, q));
    }
  }

  function Synced(c: Client, people: set<Participant>): Client {
    if c.local == "" then c
    else
      var present := ConnectionsOf(people) - {c.local};
      WithArrived(WithoutDeparted(c, present), present - c.known)
  }

  function Handled(c: Client, f: Frame): Client {
    match f
    case Ready(self, people, _, _) => Synced(c.(local := self.connection), people)
    case Presence(people) => Synced(c, people)
    case Relayed(from, _) => c.(mesh := c.mesh + {from})
    case _ => c
  }

  /** The client after all its frames, in order. */
  function AfterAll(frames: seq<Frame>): Client {
    if frames == [] then Unconnected
    else Handled(AfterAll(frames[..|frames| - 1]), frames[|frames| - 1])
  }

  lemma AfterOneMore(frames: seq<Frame>, f: Frame)
    ensures AfterAll(frames + [f]) == Handled(AfterAll(frames), f)
  {
    assert (frames + [f])[..|frames|] == frames;
  }

  /** The peers that sent a signal. */
  function SendersOf(frames: seq<Frame>): set<ConnectionId> {
    set f <- frames | f.Relayed? :: f.from
  }

  /** Until the room is ready a client takes no notice of who is present: its peers are those who signalled to it. */
  lemma {:induction false} OnlySignalsBeforeReady(frames: seq<Frame>)
    requires forall f <- frames :: !f.Ready?
    ensures AfterAll(frames) == Client("", {}, SendersOf(frames), {})
  {
    if frames != [] {
      var front, last := frames[..|frames| - 1], frames[|frames| - 1];
      assert frames == front + [last];
      OnlySignalsBeforeReady(front);
      assert SendersOf(frames) == SendersOf(front) + if last.Relayed? then {last.from} else {};
    }
  }

  class RoomClient {
    var localId: ConnectionId
    var knownPeers: set<ConnectionId>
    var mesh: set<ConnectionId>
    ghost var initiated: set<ConnectionId>

    ghost function State(): Client
      reads this
    {
      Client(localId, knownPeers, mesh, initiated)
    }

    constructor ()
      ensures State() == Unconnected
    {
      localId, knownPeers, mesh, initiated := "", {}, {}, {};
    }

    method OnFrame(f: Frame)
      modifies this
      ensures State() == Handled(old(State()), f)
    {
      match f
      case Ready(self, people, _, _) =>
        localId := self.connection;
        SyncPeers(people);
      case Presence(people) => SyncPeers(people);
      case Relayed(from, _) => mesh := mesh + {from};
      case _ =>
    }

    /** syncPeers: close connections to peers that left, then connect to the ones not known yet. */
    method SyncPeers(people: set<Participant>)
      modifies this
      ensures State() == Synced(old(State()), people)
    {
      if localId == "" { return; }
      var present := ConnectionsOf(people) - {localId};
      DropDeparted(present);
      assert present - knownPeers == present - old(knownPeers);
      AddArrived(people);
    }

    method DropDeparted(present: set<ConnectionId>)
      modifies this
      ensures State() == WithoutDeparted(old(State()), present)
    {
      var todo, gone := knownPeers, {};
      while todo != {}
        invariant todo <= old(knownPeers)
        invariant forall p :: p in gone <==> p in old(knownPeers) && p !in todo && p !in present
        invariant State() == Without(old(State()), gone)
        decreases |todo|
      {
        var peer :| peer in todo;
        todo := todo - {peer};
        if peer !in present {
          WithoutOneMore(old(State()), gone, peer);
          gone := gone + {peer};
          Disconnect(peer);
        }
      }
      assert gone == old(knownPeers) - present;
    }

    method AddArrived(people: set<Participant>)
      modifies this
      ensures State() == WithArrived(old(State()), ConnectionsOf(people) - {localId} - old(knownPeers))
    {
      var todo, done := people, {};
      while todo != {}
        invariant todo + done == people
        invariant State() == WithArrived(old(State()), NewTo(old(State()), done))
        decreases |todo|
      {
        var person :| person in todo;
        ArrivalsAddUp(old(State()), done, person);
        todo, done := todo - {person}, done + {person};
        if person.connection != localId && person.connection !in knownPeers {
          Connect(person.connection, Less(localId, person.connection));
        }
      }
      assert done == people;
    }

    /** Registers a peer and connects to it. */
    method Connect(peer: ConnectionId, initiator: bool)
      requires initiator == Initiates(localId, peer)
      modifies this
      ensures State() == WithArrived(old(State()), {peer})
    {
      knownPeers := knownPeers + {peer};
      mesh := mesh + {peer};
      if initiator { initiated := initiated + {peer}; }
    }

    /** Closes the connection to a peer and forgets it. */
    method Disconnect(peer: ConnectionId)
      modifies this
      ensures State() == Without(old(State()), {peer})
    {
      mesh := mesh - {peer};
      initiated := initiated - {peer};
      knownPeers := knownPeers - {peer};
    }
  }
}
