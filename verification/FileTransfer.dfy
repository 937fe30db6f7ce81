/** Sending files over a peer's data channel (apps/web/lib/peer-mesh.ts, sendFile and configureChannel). */
module FileTransfer {
  import opened Numbers
  import opened Options

  newtype Byte = b: int | 0 <= b < 256
  type Bytes = seq<Byte>
  type PeerId = string

  const CHUNK_SIZE: nat := 16384
  const DEFAULT_NAME := "shared-file"
  const DEFAULT_TYPE := "application/octet-stream"

  datatype File = File(name: string, mime: string, content: Bytes)

  /** A text message is parsed metadata of some kind; a binary one is a chunk. */
  datatype Message =
    | Header(name: Option<string>, mime: Option<string>, size: nat)
    | End
    | OtherText
    | Chunk(data: Bytes)

  // ---- The sender ---------------------------------------------------------------------------------

  function ChunkAt(content: Bytes, offset: nat): Message
    requires offset < |content|
  {
    Chunk(content[offset..Min(offset + CHUNK_SIZE, |content|)])
  }

  /** The chunks from an offset on. */
  function ChunksFrom(content: Bytes, offset: nat): seq<Message>
    decreases |content| - offset
  {
    if offset >= |content| then []
    else [ChunkAt(content, offset)] + ChunksFrom(content, offset + CHUNK_SIZE)
  }

  function HeaderOf(file: File): Message {
    Header(Some(file.name), Some(file.mime), |file.content|)
  }

  /** Everything one recipient is sent for a file. */
  function Transfer(file: File): seq<Message> {
    [HeaderOf(file)] + ChunksFrom(file.content, 0) + [End]
  }

  function Data(messages: seq<Message>): Bytes {
    if messages == [] then []
    else
      var front := Data(messages[..|messages| - 1]);
      if messages[|messages| - 1].Chunk? then front + messages[|messages| - 1].data else front
  }

  lemma DataAppend(messages: seq<Message>, m: Message)
    ensures Data(messages + [m]) == if m.Chunk? then Data(messages) + m.data else Data(messages)
  {
    assert (messages + [m])[..|messages|] == messages;
  }

  lemma {:induction false} DataConcat(a: seq<Message>, b: seq<Message>)
    ensures Data(a + b) == Data(a) + Data(b)
  {
    if b == [] {
      assert a + b == a;
    } else {
      var front, last := b[..|b| - 1], b[|b| - 1];
      DataConcat(a, front);
      assert (a + b)[..|a + b| - 1] == a + front && (a + b)[|a + b| - 1] == last;
      if last.Chunk? { assert Data(a) + (Data(front) + last.data) == Data(a) + Data(front) + last.data; }
    }
  }

  lemma DataCons(m: Message, rest: seq<Message>)
    requires m.Chunk?
    ensures Data([m] + rest) == m.data + Data(rest)
  {
    DataConcat([m], rest);
    DataAppend([], m);
    assert [] + [m] == [m];
  }

  /** How many chunks n bytes take. */
  function ChunkCount(n: nat): nat {
    (n + CHUNK_SIZE - 1) / CHUNK_SIZE
  }

  /** The chunks carry exactly the rest of the content. */
  lemma {:induction false} ChunksCarryTheContent(content: Bytes, offset: nat)
    requires offset <= |content|
    ensures Data(ChunksFrom(content, offset)) == content[offset..]
    decreases |content| - offset
  {
    if offset < |content| {
      var end := Min(offset + CHUNK_SIZE, |content|);
      DataCons(Chunk(content[offset..end]), ChunksFrom(content, offset + CHUNK_SIZE));
      if end == |content| {
        assert content[offset..] == content[offset..end];
      } else {
        ChunksCarryTheContent(content, end);
        assert content[offset..] == content[offset..end] + content[end..];
      }
    }
  }

  /** All chunks are full but perhaps the last, which is not empty; so there are as few as can be. */
  lemma {:induction false} ChunksAreFull(content: Bytes, offset: nat)
    requires offset <= |content|
    ensures var chunks := ChunksFrom(content, offset);
      && |chunks| == (|content| - offset + 16_383) / 16_384
      && (forall i :: 0 <= i < |chunks| ==> chunks[i].Chunk? && 0 < |chunks[i].data| <= 16_384)
      && (forall i :: 0 <= i < |chunks| - 1 ==> |chunks[i].data| == 16_384)
    decreases |content| - offset
  {
    if offset + CHUNK_SIZE < |content| {
      ChunksAreFull(content, offset + CHUNK_SIZE);
    } else if offset < |content| {
      assert ChunksFrom(content, offset + CHUNK_SIZE) == [];
    }
  }

  // ---- The receiver -------------------------------------------------------------------------------

  datatype Incoming = Incoming(name: string, mime: string)

  /** What a peer's entry holds of a file on its way; nothing of it is cleared when a file ends. */
  datatype Receiver = Receiver(parts: seq<Bytes>, incoming: Option<Incoming>)

  /** A receiving end: the peer's entry, absent once the peer is disconnected, and the files handed over. */
  datatype State = State(peer: Option<Receiver>, files: seq<File>)

  function Or<T>(value: Option<T>, otherwise: T): T {
    if value.Some? then value.value else otherwise
  }

  function Joined(parts: seq<Bytes>): Bytes {
    if parts == [] then [] else Joined(parts[..|parts| - 1]) + parts[|parts| - 1]
  }

  function Assembled(peer: Option<Receiver>): File {
    if peer.None? then File(DEFAULT_NAME, DEFAULT_TYPE, [])
    else
      var info := Or(peer.value.incoming, Incoming(DEFAULT_NAME, DEFAULT_TYPE));
      File(info.name, info.mime, Joined(peer.value.parts))
  }

  /** The data channel's message handler. */
  function Received(s: State, m: Message): State {
    match m
    case Header(name, mime, _) =>
      if s.peer.None? then s
      else s.(peer := Some(Receiver([], Some(Incoming(Or(name, DEFAULT_NAME), Or(mime, DEFAULT_TYPE))))))
    case End => s.(files := s.files + [Assembled(s.peer)])
    case OtherText => s
    case Chunk(data) =>
      if s.peer.None? then s else s.(peer := Some(s.peer.value.(parts := s.peer.value.parts + [data])))
  }

  function AllReceived(s: State, messages: seq<Message>): State {
    if messages == [] then s
    else Received(AllReceived(s, messages[..|messages| - 1]), messages[|messages| - 1])
  }

  lemma AllReceivedAppend(s: State, messages: seq<Message>, m: Message)
    ensures AllReceived(s, messages + [m]) == Received(AllReceived(s, messages), m)
  {
    assert (messages + [m])[..|messages|] == messages;
  }

  lemma {:induction false} AllReceivedConcat(s: State, a: seq<Message>, b: seq<Message>)
    ensures AllReceived(s, a + b) == AllReceived(AllReceived(s, a), b)
  {
    if b == [] {
      assert a + b == a;
    } else {
      var front, last := b[..|b| - 1], b[|b| - 1];
      AllReceivedConcat(s, a, front);
      assert (a + b)[..|a + b| - 1] == a + front && (a + b)[|a + b| - 1] == last;
    }
  }

  lemma JoinedAppend(parts: seq<Bytes>, data: Bytes)
    ensures Joined(parts + [data]) == Joined(parts) + data
  {
    assert (parts + [data])[..|parts|] == parts;
  }

  predicate NoHeader(messages: seq<Message>) {
    forall m <- messages :: !m.Header?
  }

  predicate HasGathered(s: State, data: Bytes, after: State) {
    && s.peer.Some? && after.peer.Some?
    && after.peer.value.incoming == s.peer.value.incoming
    && Joined(after.peer.value.parts) == Joined(s.peer.value.parts) + data
  }

  lemma GathersOne(s: State, data: Bytes, so: State, m: Message)
    requires HasGathered(s, data, so) && !m.Header?
    ensures HasGathered(s, if m.Chunk? then data + m.data else data, Received(so, m))
  {
    if m.Chunk? { JoinedAppend(so.peer.value.parts, m.data); }
  }

  /** Between headers the receiver only gathers: the data it holds grows by exactly what came in. */
  lemma {:induction false} GathersSinceTheHeader(s: State, messages: seq<Message>)
    requires s.peer.Some? && NoHeader(messages)
    ensures HasGathered(s, Data(messages), AllReceived(s, messages))
  {
    if messages != [] {
      var front, last := messages[..|messages| - 1], messages[|messages| - 1];
      GathersSinceTheHeader(s, front);
      GathersOne(s, Data(front), AllReceived(s, front), last);
    }
  }

  lemma {:induction false} KeepsThePeer(s: State, messages: seq<Message>)
    requires s.peer.Some?
    ensures AllReceived(s, messages).peer.Some?
  {
    if messages != [] { KeepsThePeer(s, messages[..|messages| - 1]); }
  }

  /**
   * What an end of file hands over, whatever came before it: the name and type of the latest header, with
   * exactly the data received since that header.
   */
  lemma TheLatestHeaderCounts(s: State, before: seq<Message>, header: Message, since: seq<Message>)
    requires s.peer.Some? && header.Header? && NoHeader(since)
    ensures
      var name := if header.name.Some? then header.name.value else "shared-file";
      var mime := if header.mime.Some? then header.mime.value else "application/octet-stream";
      var file := File(name, mime, Data(since));
      var so := AllReceived(s, before + [header] + since);
      AllReceived(s, before + [header] + since + [End]).files == so.files + [file]
  {
    var began := AllReceived(s, before + [header]);
    KeepsThePeer(s, before);
    AllReceivedAppend(s, before, header);
    AllReceivedConcat(s, before + [header], since);
    GathersSinceTheHeader(began, since);
    AllReceivedAppend(s, before + [header] + since, End);
    var info := Incoming(Or(header.name, DEFAULT_NAME), Or(header.mime, DEFAULT_TYPE));
    assert began.peer == Some(Receiver([], Some(info)));
    assert Joined([]) + Data(since) == Data(since);
  }

  /** An end before any header hands over what came before it under the default name and type. */
  lemma EndsWithoutAHeader(files: seq<File>, since: seq<Message>)
    requires NoHeader(since)
    ensures var s := State(Some(Receiver([], None)), files);
      AllReceived(s, since + [End]).files
        == AllReceived(s, since).files + [File("shared-file", "application/octet-stream", Data(since))]
  {
    var s := State(Some(Receiver([], None)), files);
    GathersSinceTheHeader(s, since);
    AllReceivedAppend(s, since, End);
    assert Joined([]) + Data(since) == Data(since);
  }

  /** An empty file under the default name and type for each end of file. */
  function DefaultsFor(messages: seq<Message>): seq<File> {
    if messages == [] then []
    else
      var front := DefaultsFor(messages[..|messages| - 1]);
      if messages[|messages| - 1].End? then front + [File("shared-file", "application/octet-stream", [])] else front
  }

  /** A channel whose peer was disconnected keeps nothing of what still comes in, and all it hands over is empty. */
  lemma {:induction false} DisconnectedPeersKeepNothing(files: seq<File>, messages: seq<Message>)
    ensures AllReceived(State(None, files), messages) == State(None, files + DefaultsFor(messages))
  {
    if messages != [] { DisconnectedPeersKeepNothing(files, messages[..|messages| - 1]); }
  }

  lemma {:induction false} ChunksHandNothingOver(s: State, messages: seq<Message>)
    requires forall m <- messages :: !m.End?
    ensures AllReceived(s, messages).files == s.files
  {
    if messages != [] { ChunksHandNothingOver(s, messages[..|messages| - 1]); }
  }

  lemma TransferParts(file: File)
    ensures var body := [HeaderOf(file)] + ChunksFrom(file.content, 0);
      && Transfer(file) == body + [End] && |body| == |Transfer(file)| - 1
      && (forall m <- body :: !m.End?) && NoHeader(ChunksFrom(file.content, 0))
  {
    ChunksAreFull(file.content, 0);
  }

  /** From whatever an earlier transfer left behind, a whole transfer hands over an identical file. */
  lemma RoundTrip(s: State, file: File)
    requires s.peer.Some?
    ensures AllReceived(s, Transfer(file)).files == s.files + [file]
    ensures AllReceived(s, Transfer(file)).peer.Some?
  {
    var chunks := ChunksFrom(file.content, 0);
    TransferParts(file);
    ChunksCarryTheContent(file.content, 0);
    assert [] + [HeaderOf(file)] + chunks == [HeaderOf(file)] + chunks;
    TheLatestHeaderCounts(s, [], HeaderOf(file), chunks);
    ChunksHandNothingOver(s, [HeaderOf(file)] + chunks);
    KeepsThePeer(s, Transfer(file));
  }

  /** A transfer as far as it got: all of it, or the front of one that was abandoned. */
  datatype Sending = Sending(file: File, count: nat)

  predicate AreSendings(sendings: seq<Sending>) {
    forall i :: 0 <= i < |sendings| ==> sendings[i].count <= |Transfer(sendings[i].file)|
  }

  function SentFor(sendings: seq<Sending>): seq<Message>
    requires AreSendings(sendings)
  {
    if sendings == [] then []
    else
      var last := sendings[|sendings| - 1];
      SentFor(sendings[..|sendings| - 1]) + Transfer(last.file)[..last.count]
  }

  function Completed(sendings: seq<Sending>): seq<File>
    requires AreSendings(sendings)
  {
    if sendings == [] then []
    else
      var last, front := sendings[|sendings| - 1], Completed(sendings[..|sendings| - 1]);
      if last.count == |Transfer(last.file)| then front + [last.file] else front
  }

  lemma AbandonedHandsNothingOver(s: State, file: File, count: nat)
    requires count < |Transfer(file)|
    ensures AllReceived(s, Transfer(file)[..count]).files == s.files
  {
    TransferParts(file);
    var body := [HeaderOf(file)] + ChunksFrom(file.content, 0);
    assert Transfer(file)[..count] == body[..count];
    ChunksHandNothingOver(s, body[..count]);
  }

  lemma SentForOneMore(sendings: seq<Sending>, last: Sending)
    requires AreSendings(sendings + [last])
    ensures AreSendings(sendings) && last.count <= |Transfer(last.file)|
    ensures SentFor(sendings + [last]) == SentFor(sendings) + Transfer(last.file)[..last.count]
    ensures Completed(sendings + [last]) ==
      if last.count == |Transfer(last.file)| then Completed(sendings) + [last.file] else Completed(sendings)
  {
    var all := sendings + [last];
    assert all[..|all| - 1] == sendings && all[|sendings|] == last;
    assert forall i :: 0 <= i < |sendings| ==> all[i] == sendings[i];
  }

  lemma OneMoreSending(s: State, file: File, count: nat)
    requires s.peer.Some? && count <= |Transfer(file)|
    ensures AllReceived(s, Transfer(file)[..count]).files ==
      if count == |Transfer(file)| then s.files + [file] else s.files
  {
    if count == |Transfer(file)| {
      assert Transfer(file)[..count] == Transfer(file);
      RoundTrip(s, file);
    } else {
      AbandonedHandsNothingOver(s, file, count);
    }
  }

  /**
   * Any sequence of transfers on one channel, one after the other, some abandoned at any point: the files
   * handed over are exactly those sent to the end, in order and byte for byte.
   */
  lemma {:induction false} ExactlyTheCompletedArrive(s: State, sendings: seq<Sending>)
    requires s.peer.Some? && AreSendings(sendings)
    ensures AllReceived(s, SentFor(sendings)).files == s.files + Completed(sendings)
  {
    if sendings != [] {
      var front, last := sendings[..|sendings| - 1], sendings[|sendings| - 1];
      assert sendings == front + [last];
      SentForOneMore(front, last);
      ExactlyTheCompletedArrive(s, front);
      KeepsThePeer(s, SentFor(front));
      AllReceivedConcat(s, SentFor(front), Transfer(last.file)[..last.count]);
      OneMoreSending(AllReceived(s, SentFor(front)), last.file, last.count);
    }
  }

  // ---- The objects --------------------------------------------------------------------------------

  /** The receiving handler of one channel, over the peer's mutable entry. */
  class FileReceiver {
    var connected: bool
    var fileParts: seq<Bytes>
    var incomingFile: Option<Incoming>
    var files: seq<File>

    ghost function Value(): State
      reads this
    {
      State(if connected then Some(Receiver(fileParts, incomingFile)) else None, files)
    }

    constructor ()
      ensures Value() == State(Some(Receiver([], None)), [])
    {
      connected, fileParts, incomingFile, files := true, [], None, [];
    }

    method OnMessage(m: Message)
      modifies this
      ensures Value() == Received(old(Value()), m)
    {
      match m {
        case Header(name, mime, _) =>
          if connected {
            fileParts := [];
            incomingFile := Some(Incoming(Or(name, DEFAULT_NAME), Or(mime, DEFAULT_TYPE)));
          }
        case End =>
          var name, mime, content := DEFAULT_NAME, DEFAULT_TYPE, [];
          if connected {
            content := Contents();
            if incomingFile.Some? { name, mime := incomingFile.value.name, incomingFile.value.mime; }
          }
          files := files + [File(name, mime, content)];
        case OtherText =>
        case Chunk(data) =>
          if connected { fileParts := fileParts + [data]; }
      }
    }

    /** What the File constructor does with the parts. */
    method Contents() returns (content: Bytes)
      ensures content == Joined(fileParts)
    {
      content := [];
      for i := 0 to |fileParts|
        invariant content == Joined(fileParts[..i])
      {
        JoinedAppend(fileParts[..i], fileParts[i]);
        assert fileParts[..i + 1] == fileParts[..i] + [fileParts[i]];
        content := content + fileParts[i];
      }
      assert fileParts[..|fileParts|] == fileParts;
    }
  }

  /** A data channel: whether it is open, and what was sent on it. */
  datatype Channel = Channel(open: bool, sent: seq<Message>)

  type Channels = map<PeerId, Channel>

  /** Each recipient was sent all of `messages`, and nobody else anything. */
  predicate HasSent(before: Channels, after: Channels, recipients: seq<PeerId>, messages: seq<Message>) {
    && after.Keys == before.Keys
    && forall p <- before :: after[p].sent == if p in recipients then before[p].sent + messages else before[p].sent
  }

  /** A recipient was sent a front of a transfer, perhaps none of it or all of it. */
  predicate IsPartlySent(file: File, before: seq<Message>, after: seq<Message>) {
    exists n | 0 <= n <= |Transfer(file)| :: after == before + Transfer(file)[..n]
  }

  /** A transfer that ended early: everybody has a front of it, and nobody but the recipients has anything. */
  predicate IsAbandoned(file: File, before: Channels, after: Channels, recipients: seq<PeerId>) {
    && after.Keys == before.Keys
    && (forall p <- before :: IsPartlySent(file, before[p].sent, after[p].sent))
    && (forall p <- before :: p !in recipients ==> after[p].sent == before[p].sent)
  }

  predicate AllOpen(channels: Channels, recipients: seq<PeerId>) {
    forall p <- recipients :: p in channels && channels[p].open
  }

  /** Nothing goes wrong while the first n chunks are read. */
  predicate Undisturbed(n: nat, recipients: seq<PeerId>, isRead: nat -> bool, closes: nat -> set<PeerId>) {
    forall k: nat | k < n :: isRead(k) && forall p <- recipients :: p !in closes(k)
  }

  lemma FrontIsPart(file: File, sent: seq<Message>, front: seq<Message>)
    requires front <= Transfer(file)
    ensures IsPartlySent(file, sent, sent + front)
  {
    assert Transfer(file)[..|front|] == front;
  }

  lemma SentOneMore(file: File, before: Channels, mid: Channels, after: Channels, recipients: seq<PeerId>,
      done: seq<Message>, m: Message)
    requires HasSent(before, mid, recipients, done) && IsSent(mid, after, recipients, m)
    requires done + [m] <= Transfer(file)
    ensures IsAbandoned(file, before, after, recipients)
  {
    forall p <- before
      ensures IsPartlySent(file, before[p].sent, after[p].sent)
    {
      if after[p] != mid[p] {
        FrontIsPart(file, before[p].sent, done + [m]);
        assert before[p].sent + done + [m] == before[p].sent + (done + [m]);
      } else if p in recipients {
        FrontIsPart(file, before[p].sent, done);
      } else {
        FrontIsPart(file, before[p].sent, []);
        assert before[p].sent + [] == before[p].sent;
      }
    }
  }

  lemma SentNothing(file: File, channels: Channels, recipients: seq<PeerId>)
    ensures HasSent(channels, channels, recipients, []) && IsAbandoned(file, channels, channels, recipients)
  {
    forall p <- channels
      ensures channels[p].sent == channels[p].sent + [] && IsPartlySent(file, channels[p].sent, channels[p].sent)
    {
      assert channels[p].sent == channels[p].sent + [];
      FrontIsPart(file, channels[p].sent, []);
    }
  }

  lemma SentToEveryone(before: Channels, mid: Channels, after: Channels, recipients: seq<PeerId>,
      done: seq<Message>, m: Message)
    requires HasSent(before, mid, recipients, done) && IsSent(mid, after, recipients, m)
    requires forall p <- recipients :: p in mid && after[p] == mid[p].(sent := mid[p].sent + [m])
    ensures HasSent(before, after, recipients, done + [m])
  {
    forall p <- before | p in recipients
      ensures after[p].sent == before[p].sent + (done + [m])
    {
      assert before[p].sent + done + [m] == before[p].sent + (done + [m]);
    }
  }

  /** The peers that have a channel and whose channel is open, in order. */
  function Opened(channels: Channels, peers: seq<PeerId>): seq<PeerId> {
    if peers == [] then []
    else
      var front, last := Opened(channels, peers[..|peers| - 1]), peers[|peers| - 1];
      if last in channels && channels[last].open then front + [last] else front
  }

  /** Some of the recipients were sent m; nothing else happened. */
  predicate IsSent(before: Channels, after: Channels, recipients: seq<PeerId>, m: Message) {
    && after.Keys == before.Keys
    && forall p <- before ::
      after[p] == before[p] || (p in recipients && after[p] == before[p].(sent := before[p].sent + [m]))
  }

  predicate Unique(peers: seq<PeerId>) {
    forall i, j :: 0 <= i < j < |peers| ==> peers[i] != peers[j]
  }

  lemma {:induction false} OpenedIsExact(channels: Channels, peers: seq<PeerId>)
    requires Unique(peers)
    ensures forall p: PeerId :: p in Opened(channels, peers) <==> p in peers && p in channels && channels[p].open
    ensures Unique(Opened(channels, peers))
  {
    if peers != [] {
      var n := |peers| - 1;
      OpenedIsExact(channels, peers[..n]);
      assert peers == peers[..n] + [peers[n]];
    }
  }

  /** The transfer is done up to an offset: every recipient has it so far and can still be reached. */
  ghost predicate IsDoneUpTo(file: File, before: Channels, channels: Channels, recipients: seq<PeerId>,
      offset: nat, done: seq<Message>)
  {
    && Transfer(file) == done + ChunksFrom(file.content, offset) + [End]
    && HasSent(before, channels, recipients, done)
    && AllOpen(channels, recipients)
  }

  lemma NextChunk(file: File, done: seq<Message>, offset: nat)
    requires offset < |file.content|
    requires Transfer(file) == done + ChunksFrom(file.content, offset) + [End]
    ensures var m := ChunkAt(file.content, offset);
      && done + [m] <= Transfer(file)
      && Transfer(file) == done + [m] + ChunksFrom(file.content, offset + CHUNK_SIZE) + [End]
  {
    var m, rest := ChunkAt(file.content, offset), ChunksFrom(file.content, offset + CHUNK_SIZE);
    assert done + ([m] + rest) + [End] == done + [m] + rest + [End];
  }

  class FileSender {
    var channels: Channels

    constructor (channels: Channels)
      ensures this.channels == channels
    {
      this.channels := channels;
    }

    /** Sends one message to each recipient in turn; a channel that has closed throws, which ends it all. */
    method SendToAll(recipients: seq<PeerId>, m: Message) returns (thrown: bool)
      requires Unique(recipients) && forall p <- recipients :: p in channels
      modifies this
      ensures IsSent(old(channels), channels, recipients, m)
      ensures !thrown ==> forall p <- recipients ::
        channels[p] == old(channels)[p].(sent := old(channels)[p].sent + [m])
      ensures thrown <==> exists p <- recipients :: !old(channels)[p].open
    {
      for i := 0 to |recipients|
        invariant IsSent(old(channels), channels, recipients, m)
        invariant forall j :: i <= j < |recipients| ==> channels[recipients[j]] == old(channels)[recipients[j]]
        invariant forall j :: 0 <= j < i ==>
          var was := old(channels)[recipients[j]];
          was.open && channels[recipients[j]] == was.(sent := was.sent + [m])
      {
        var p := recipients[i];
        if !channels[p].open { return true; }
        channels := channels[p := channels[p].(sent := channels[p].sent + [m])];
      }
      return false;
    }

    /** Channels that close while a chunk is being read. */
    method Close(gone: set<PeerId>)
      modifies this
      ensures channels.Keys == old(channels).Keys
      ensures forall p <- channels :: channels[p] == Channel(old(channels)[p].open && p !in gone, old(channels)[p].sent)
    {
      channels := map p <- channels :: Channel(channels[p].open && p !in gone, channels[p].sent);
    }

    /** One chunk, with the channels that closed while it was read. */
    method SendChunk(recipients: seq<PeerId>, file: File, offset: nat, gone: set<PeerId>,
        ghost before: Channels, ghost done: seq<Message>)
      returns (thrown: bool)
      requires Unique(recipients) && offset < |file.content|
      requires IsDoneUpTo(file, before, channels, recipients, offset, done)
      modifies this
      ensures thrown <==> exists p <- recipients :: p in gone
      ensures thrown ==> IsAbandoned(file, before, channels, recipients)
      ensures !thrown ==> IsDoneUpTo(file, before, channels, recipients, offset + CHUNK_SIZE,
        done + [ChunkAt(file.content, offset)])
    {
      var m := ChunkAt(file.content, offset);
      NextChunk(file, done, offset);
      Close(gone);
      ghost var mid := channels;
      thrown := SendToAll(recipients, m);
      if thrown {
        SentOneMore(file, before, mid, channels, recipients, done, m);
      } else {
        SentToEveryone(before, mid, channels, recipients, done, m);
      }
    }

    /** The sending loop. Reading chunk k may fail, or channels may close meanwhile: both end it. */
    method SendChunks(recipients: seq<PeerId>, file: File, isRead: nat -> bool, closes: nat -> set<PeerId>,
        ghost before: Channels)
      returns (thrown: bool)
      requires Unique(recipients) && IsDoneUpTo(file, before, channels, recipients, 0, [HeaderOf(file)])
      modifies this
      ensures thrown ==> IsAbandoned(file, before, channels, recipients)
      ensures !thrown ==>
        && AllOpen(channels, recipients)
        && HasSent(before, channels, recipients, [HeaderOf(file)] + ChunksFrom(file.content, 0))
      ensures !thrown <==> Undisturbed(ChunkCount(|file.content|), recipients, isRead, closes)
    {
      ghost var done := [HeaderOf(file)];
      var offset, k := 0, 0;
      while offset < |file.content|
        invariant offset == k * CHUNK_SIZE && offset < |file.content| + CHUNK_SIZE
        invariant IsDoneUpTo(file, before, channels, recipients, offset, done)
        invariant Undisturbed(k, recipients, isRead, closes)
      {
        if !isRead(k) {
          NextChunk(file, done, offset);
          SentOneMore(file, before, channels, channels, recipients, done, ChunkAt(file.content, offset));
          return true;
        }
        thrown := SendChunk(recipients, file, offset, closes(k), before, done);
        if thrown { return true; }
        done, offset, k := done + [ChunkAt(file.content, offset)], offset + CHUNK_SIZE, k + 1;
      }
      assert done == (done + [] + [End])[..|done|] == [HeaderOf(file)] + ChunksFrom(file.content, 0);
      return false;
    }

    /**
     * Sends a file to every open channel. Reading chunk k may fail (`!isRead(k)`), and channels may close
     * meanwhile (`closes(k)`); either abandons the transfer for everybody, and no count is returned.
     */
    method SendFile(peers: seq<PeerId>, file: File, isRead: nat -> bool, closes: nat -> set<PeerId>)
      returns (count: Option<nat>)
      requires Unique(peers)
      modifies this
      ensures IsAbandoned(file, old(channels), channels, Opened(old(channels), peers))
      ensures count.Some? ==>
        && count.value == |Opened(old(channels), peers)|
        && HasSent(old(channels), channels, Opened(old(channels), peers), Transfer(file))
      ensures count.Some? <==>
        || Opened(old(channels), peers) == []
        || Undisturbed(ChunkCount(|file.content|), Opened(old(channels), peers), isRead, closes)
    {
      ghost var before := channels;
      var recipients := Opened(channels, peers);
      OpenedIsExact(channels, peers);
      SentNothing(file, before, recipients);
      if recipients == [] { return Some(0); }
      var thrown := SendToAll(recipients, HeaderOf(file));
      SentToEveryone(before, before, channels, recipients, [], HeaderOf(file));
      assert [] + [HeaderOf(file)] == [HeaderOf(file)];
      thrown := SendChunks(recipients, file, isRead, closes, before);
      if thrown { return None; }
      ghost var last := channels;
      thrown := SendToAll(recipients, End);
      ghost var done := [HeaderOf(file)] + ChunksFrom(file.content, 0);
      SentOneMore(file, before, last, channels, recipients, done, End);
      SentToEveryone(before, last, channels, recipients, done, End);
      return Some(|recipients|);
    }
  }
}
