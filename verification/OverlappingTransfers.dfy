/** Two files sent at once over one data channel (apps/web/lib/peer-mesh.ts, room-workspace.tsx). */
module OverlappingTransfers {
  import opened FileTransfer
  import opened Numbers
  import opened Options
  import opened Sequences

  predicate AreChunks(messages: seq<Message>) {
    forall i :: 0 <= i < |messages| ==> messages[i].Chunk? && |messages[i].data| > 0
  }

  lemma FirstChunks(content: Bytes, offset: nat, k: nat)
    requires offset <= |content| && 0 < k <= |ChunksFrom(content, offset)|
    ensures var rest := ChunksFrom(content, offset + CHUNK_SIZE);
      && offset < |content| && k - 1 <= |rest| && (offset + CHUNK_SIZE >= |content| ==> k == 1)
      && ChunksFrom(content, offset)[..k] == [ChunkAt(content, offset)] + rest[..k - 1]
  {
  }

  lemma SlicesJoin(content: Bytes, a: nat, b: nat, c: nat)
    requires a <= b <= c <= |content|
    ensures content[a..b] + content[b..c] == content[a..c]
  {
  }

  /** The first k chunks carry the first k * CHUNK_SIZE bytes. */
  lemma {:induction false} FrontChunks(content: Bytes, offset: nat, k: nat)
    requires offset <= |content| && k <= |ChunksFrom(content, offset)|
    ensures Data(ChunksFrom(content, offset)[..k]) == content[offset..Min(offset + k * CHUNK_SIZE, |content|)]
    decreases |content| - offset
  {
    if k > 0 {
      var next, end := offset + CHUNK_SIZE, Min(offset + k * CHUNK_SIZE, |content|);
      FirstChunks(content, offset, k);
      DataCons(ChunkAt(content, offset), ChunksFrom(content, next)[..k - 1]);
      if next < |content| {
        FrontChunks(content, next, k - 1);
        assert next + (k - 1) * CHUNK_SIZE == offset + k * CHUNK_SIZE;
        SlicesJoin(content, offset, next, end);
      }
    }
  }

  lemma ChunksHaveData(messages: seq<Message>)
    requires AreChunks(messages)
    ensures messages != [] ==> |Data(messages)| > 0
  {
    if messages != [] {
      assert messages == [messages[0]] + messages[1..];
      DataCons(messages[0], messages[1..]);
    }
  }

  /** Chunks u, an end, chunks v and an end, with as much data in all as x and y have. */
  predicate EndsTwice(ms: seq<Message>, x: seq<Message>, y: seq<Message>, u: seq<Message>, v: seq<Message>) {
    && ms == u + [End] + v + [End] && AreChunks(u) && AreChunks(v)
    && |Data(u)| + |Data(v)| == |Data(x)| + |Data(y)|
  }

  lemma EndFirst(ms: seq<Message>, x: seq<Message>, y: seq<Message>)
    requires AreChunks(x) && AreChunks(y)
    requires ms != [] && ms[0] == End && IsMerge(ms[1..], x + [End], []) && y == []
    ensures EndsTwice(ms, x, y, [], x)
  {
    MergeWithNothing(ms[1..], x + [End]);
    assert ms == [ms[0]] + ms[1..] && [] + [End] + x + [End] == [End] + (x + [End]);
  }

  lemma OneMoreChunk(ms: seq<Message>, x: seq<Message>, y: seq<Message>, u: seq<Message>, v: seq<Message>)
    requires AreChunks(x) && x != [] && ms != [] && ms[0] == x[0]
    requires EndsTwice(ms[1..], x[1..], y, u, v)
    ensures EndsTwice(ms, x, y, [x[0]] + u, v)
  {
    DataCons(x[0], u);
    DataCons(x[0], x[1..]);
    assert x == [x[0]] + x[1..] && ms == [ms[0]] + ms[1..];
    assert [x[0]] + (u + [End] + v + [End]) == [x[0]] + u + [End] + v + [End];
  }

  lemma EndsTwiceIsSymmetric(ms: seq<Message>, x: seq<Message>, y: seq<Message>, u: seq<Message>, v: seq<Message>)
    requires EndsTwice(ms, x, y, u, v)
    ensures EndsTwice(ms, y, x, u, v)
  {
  }

  /** Two chunk sequences with their ends, merged: all the data comes, part of it after the first end. */
  lemma {:induction false} TwoEnds(ms: seq<Message>, x: seq<Message>, y: seq<Message>)
    returns (u: seq<Message>, v: seq<Message>)
    requires AreChunks(x) && AreChunks(y) && IsMerge(ms, x + [End], y + [End])
    ensures EndsTwice(ms, x, y, u, v)
    ensures x == [] ==> u + v == y
    decreases |ms|
  {
    if ms[0] == (x + [End])[0] && IsMerge(ms[1..], (x + [End])[1..], y + [End]) {
      if x == [] {
        assert (x + [End])[1..] == [];
        MergeIsSymmetric(ms[1..], [], y + [End]);
        u, v := [], y;
        EndFirst(ms, y, x);
        EndsTwiceIsSymmetric(ms, y, x, u, v);
      } else {
        assert (x + [End])[1..] == x[1..] + [End];
        u, v := TwoEnds(ms[1..], x[1..], y);
        OneMoreChunk(ms, x, y, u, v);
        u := [x[0]] + u;
      }
    } else if y == [] {
      u, v := [], x;
      assert (y + [End])[1..] == [];
      EndFirst(ms, x, y);
    } else {
      assert (y + [End])[1..] == y[1..] + [End];
      u, v := TwoEnds(ms[1..], x, y[1..]);
      EndsTwiceIsSymmetric(ms[1..], x, y[1..], u, v);
      OneMoreChunk(ms, y, x, u, v);
      u := [y[0]] + u;
      EndsTwiceIsSymmetric(ms, y, x, u, v);
    }
  }

  lemma DataBetweenEnds(u: seq<Message>, v: seq<Message>)
    ensures Data(u + [End] + v) == Data(u) + Data(v)
  {
    DataAppend(u, End);
    DataConcat(u + [End], v);
  }

  lemma NothingAfterAnEnd(s: State, before: seq<Message>, v: seq<Message>)
    requires AreChunks(v)
    ensures AllReceived(s, before + v).files == AllReceived(s, before).files
  {
    AllReceivedConcat(s, before, v);
    ChunksHandNothingOver(AllReceived(s, before), v);
  }

  lemma FirstEnd(s: State, front: seq<Message>, header: Message, u: seq<Message>)
    requires s.peer.Some? && header.Header? && AreChunks(u) && forall m <- front :: !m.End?
    ensures AllReceived(s, front + [header] + u + [End]).files ==
      s.files + [File(Or(header.name, DEFAULT_NAME), Or(header.mime, DEFAULT_TYPE), Data(u))]
  {
    ChunksHandNothingOver(s, front + [header] + u);
    TheLatestHeaderCounts(s, front, header, u);
  }

  lemma SecondEnd(s: State, front: seq<Message>, header: Message, u: seq<Message>, v: seq<Message>)
    requires s.peer.Some? && header.Header? && AreChunks(u) && AreChunks(v)
    ensures AllReceived(s, front + [header] + u + [End] + v + [End]).files ==
      AllReceived(s, front + [header] + u + [End]).files
      + [File(Or(header.name, DEFAULT_NAME), Or(header.mime, DEFAULT_TYPE), Data(u) + Data(v))]
  {
    var since := u + [End] + v;
    assert front + [header] + since == front + [header] + u + [End] + v;
    DataBetweenEnds(u, v);
    TheLatestHeaderCounts(s, front, header, since);
    NothingAfterAnEnd(s, front + [header] + u + [End], v);
  }

  /** Two ends after a last header: each hands over that header's name, the second one with everything since. */
  lemma TwoEndsAfterAHeader(s: State, front: seq<Message>, header: Message, u: seq<Message>, v: seq<Message>)
    requires s.peer.Some? && header.Header? && AreChunks(u) && AreChunks(v)
    requires forall m <- front :: !m.End?
    ensures var name, mime := Or(header.name, DEFAULT_NAME), Or(header.mime, DEFAULT_TYPE);
      AllReceived(s, front + [header] + u + [End] + v + [End]).files ==
        s.files + [File(name, mime, Data(u)), File(name, mime, Data(u) + Data(v))]
  {
    FirstEnd(s, front, header, u);
    SecondEnd(s, front, header, u, v);
  }

  /** All of one transfer before the other, or the other way round. */
  predicate AreApart(ms: seq<Message>, a: File, b: File) {
    ms == Transfer(a) + Transfer(b) || ms == Transfer(b) + Transfer(a)
  }

  function Body(file: File): seq<Message> {
    ChunksFrom(file.content, 0)
  }

  lemma BodyIsChunks(file: File)
    ensures AreChunks(Body(file)) && Data(Body(file)) == file.content
    ensures Transfer(file) == [HeaderOf(file)] + (Body(file) + [End])
  {
    ChunksAreFull(file.content, 0);
    ChunksCarryTheContent(file.content, 0);
  }

  /** What a merge looks like in which b's header interrupts a: `cut` chunks of a, then u, an end, v and an end. */
  predicate Interrupts(ms: seq<Message>, a: File, b: File, cut: nat, u: seq<Message>, v: seq<Message>) {
    && cut <= |Body(a)| && AreChunks(u) && AreChunks(v)
    && ms == [HeaderOf(a)] + Body(a)[..cut] + [HeaderOf(b)] + u + [End] + v + [End]
    && |Data(u)| + |Data(v)| == |Data(Body(a)[cut..])| + |b.content|
    && (cut == |Body(a)| ==> u + v == Body(b))
  }

  lemma SplitBeforeTheEnd(body: seq<Message>, before: seq<Message>, left: seq<Message>)
    requires body + [End] == before + left && left != []
    ensures |before| <= |body| && before == body[..|before|] && left == body[|before|..] + [End]
  {
    assert before == (body + [End])[..|before|] && left == (body + [End])[|before|..];
  }

  /** A merge that begins with a: b begins after a's end, or it interrupts a. */
  lemma FirstIsDoneOrInterrupted(ms: seq<Message>, a: File, b: File)
    returns (cut: nat, u: seq<Message>, v: seq<Message>)
    requires ms != [] && ms[0] == HeaderOf(a) && IsMerge(ms[1..], Body(a) + [End], Transfer(b))
    ensures ms == Transfer(a) + Transfer(b) || Interrupts(ms, a, b, cut, u, v)
  {
    cut, u, v := 0, [], [];
    BodyIsChunks(a);
    BodyIsChunks(b);
    var before, after, left := SecondBegins(ms[1..], Body(a) + [End], Transfer(b));
    assert ms == [HeaderOf(a)] + before + [HeaderOf(b)] + after;
    assert Transfer(b)[1..] == Body(b) + [End];
    if left == [] {
      MergeIsSymmetric(after, [], Body(b) + [End]);
      MergeWithNothing(after, Body(b) + [End]);
      DoneBefore(ms, a, b, before, after);
    } else {
      cut := |before|;
      SplitBeforeTheEnd(Body(a), before, left);
      u, v := InterruptedBy(ms, a, b, cut, after);
    }
  }

  lemma InterruptedBy(ms: seq<Message>, a: File, b: File, cut: nat, after: seq<Message>)
    returns (u: seq<Message>, v: seq<Message>)
    requires cut <= |Body(a)| && ms == [HeaderOf(a)] + Body(a)[..cut] + [HeaderOf(b)] + after
    requires IsMerge(after, Body(a)[cut..] + [End], Body(b) + [End])
    ensures Interrupts(ms, a, b, cut, u, v)
  {
    BodyIsChunks(a);
    BodyIsChunks(b);
    u, v := TwoEnds(after, Body(a)[cut..], Body(b));
    var front := [HeaderOf(a)] + Body(a)[..cut] + [HeaderOf(b)];
    assert front + (u + [End] + v + [End]) == front + u + [End] + v + [End];
  }

  lemma DoneBefore(ms: seq<Message>, a: File, b: File, before: seq<Message>, after: seq<Message>)
    requires ms == [HeaderOf(a)] + before + [HeaderOf(b)] + after
    requires before + [] == Body(a) + [End] && after == Body(b) + [End]
    ensures ms == Transfer(a) + Transfer(b)
  {
    BodyIsChunks(a);
    BodyIsChunks(b);
    assert before == Body(a) + [End];
  }

  /** Unless one transfer lies wholly before the other, one file's header interrupts the other's transfer. */
  lemma OverlapsInterrupt(ms: seq<Message>, a: File, b: File)
    returns (early: File, late: File, cut: nat, u: seq<Message>, v: seq<Message>)
    requires IsMerge(ms, Transfer(a), Transfer(b)) && !AreApart(ms, a, b)
    ensures (early == a && late == b) || (early == b && late == a)
    ensures Interrupts(ms, early, late, cut, u, v)
  {
    BodyIsChunks(a);
    BodyIsChunks(b);
    if ms[0] == HeaderOf(a) && IsMerge(ms[1..], Transfer(a)[1..], Transfer(b)) {
      assert Transfer(a)[1..] == Body(a) + [End];
      early, late := a, b;
      cut, u, v := FirstIsDoneOrInterrupted(ms, a, b);
    } else {
      assert Transfer(b)[1..] == Body(b) + [End];
      MergeIsSymmetric(ms[1..], Transfer(a), Transfer(b)[1..]);
      early, late := b, a;
      cut, u, v := FirstIsDoneOrInterrupted(ms, b, a);
    }
  }

  lemma InterruptedHandsOver(s: State, ms: seq<Message>, a: File, b: File, cut: nat, u: seq<Message>, v: seq<Message>)
    requires s.peer.Some? && Interrupts(ms, a, b, cut, u, v)
    ensures AllReceived(s, ms).files ==
      s.files + [File(b.name, b.mime, Data(u)), File(b.name, b.mime, Data(u) + Data(v))]
  {
    BodyIsChunks(a);
    TwoEndsAfterAHeader(s, [HeaderOf(a)] + Body(a)[..cut], HeaderOf(b), u, v);
  }

  /**
   * Any overlap of two transfers hands over two files of the later header's name and type: the data between
   * that header and the first end, and the data up to the second one. What came before that header is lost.
   */
  lemma OverlappingTransfersMix(s: State, ms: seq<Message>, a: File, b: File)
    returns (early: File, late: File, cut: nat, u: seq<Message>, v: seq<Message>)
    requires s.peer.Some? && IsMerge(ms, Transfer(a), Transfer(b)) && !AreApart(ms, a, b)
    ensures (early == a && late == b) || (early == b && late == a)
    ensures Interrupts(ms, early, late, cut, u, v)
    ensures AllReceived(s, ms).files ==
      s.files + [File(late.name, late.mime, Data(u)), File(late.name, late.mime, Data(u) + Data(v))]
  {
    early, late, cut, u, v := OverlapsInterrupt(ms, a, b);
    InterruptedHandsOver(s, ms, early, late, cut, u, v);
  }

  // ---- What the sender sends between two awaits ---------------------------------------------------

  function Flat(runs: seq<seq<Message>>): seq<Message> {
    if runs == [] then [] else runs[0] + Flat(runs[1..])
  }

  /** A chunk is read before it is sent, and the end follows the last chunk at once. */
  function ChunkRuns(chunks: seq<Message>): (runs: seq<seq<Message>>)
    requires chunks != []
    ensures |runs| == |chunks|
  {
    if |chunks| == 1 then [[chunks[0], End]] else [[chunks[0]]] + ChunkRuns(chunks[1..])
  }

  /** The header is sent before anything is read; if there is nothing to read, the end with it. */
  function Runs(file: File): seq<seq<Message>> {
    if Body(file) == [] then [[HeaderOf(file), End]] else [[HeaderOf(file)]] + ChunkRuns(Body(file))
  }

  lemma {:induction false} FlatConcat(a: seq<seq<Message>>, b: seq<seq<Message>>)
    ensures Flat(a + b) == Flat(a) + Flat(b)
  {
    if a == [] {
      assert a + b == b;
    } else {
      assert (a + b)[0] == a[0] && (a + b)[1..] == a[1..] + b;
      FlatConcat(a[1..], b);
    }
  }

  lemma FlatOne(run: seq<Message>)
    ensures Flat([run]) == run
  {
    assert [run][1..] == [];
  }

  lemma FirstOfRuns(chunks: seq<Message>, before: seq<seq<Message>>, left: seq<seq<Message>>)
    requires |chunks| > 1 && ChunkRuns(chunks) == before + left && before != []
    ensures before[0] == [chunks[0]] && before[1..] + left == ChunkRuns(chunks[1..])
  {
    var runs := ChunkRuns(chunks);
    assert runs[0] == (before + left)[0] && runs[1..] == (before + left)[1..] == before[1..] + left;
    assert runs == [[chunks[0]]] + ChunkRuns(chunks[1..]);
  }

  lemma {:induction false} AllRuns(chunks: seq<Message>)
    requires chunks != []
    ensures Flat(ChunkRuns(chunks)) == chunks + [End]
  {
    var runs := ChunkRuns(chunks);
    if |chunks| == 1 {
      FlatOne([chunks[0], End]);
    } else {
      assert runs[0] == [chunks[0]] && runs[1..] == ChunkRuns(chunks[1..]);
      AllRuns(chunks[1..]);
      assert [chunks[0]] + (chunks[1..] + [End]) == chunks + [End];
    }
  }

  /** Where the runs of some chunks are cut, before the last of them. */
  lemma {:induction false} CutRuns(chunks: seq<Message>, before: seq<seq<Message>>, left: seq<seq<Message>>)
    requires chunks != [] && ChunkRuns(chunks) == before + left && left != []
    ensures |before| < |chunks|
    ensures Flat(before) == chunks[..|before|] && Flat(left) == chunks[|before|..] + [End]
  {
    if before == [] {
      assert left == ChunkRuns(chunks);
      AllRuns(chunks);
    } else {
      FirstOfRuns(chunks, before, left);
      CutRuns(chunks[1..], before[1..], left);
      var n := |before| - 1;
      assert [chunks[0]] + chunks[1..][..n] == chunks[..n + 1] && chunks[1..][n..] == chunks[n + 1..];
    }
  }

  lemma RunsAreTheTransfer(file: File)
    ensures Flat(Runs(file)) == Transfer(file)
    ensures Body(file) != [] ==> Runs(file)[1..] == ChunkRuns(Body(file)) && Flat(Runs(file)[1..]) == Body(file) + [End]
  {
    BodyIsChunks(file);
    if Body(file) == [] {
      FlatOne([HeaderOf(file), End]);
    } else {
      assert Runs(file)[1..] == ChunkRuns(Body(file));
      AllRuns(Body(file));
    }
  }

  /** Merging runs merges their messages. */
  lemma {:induction false} FlatMerge(rs: seq<seq<Message>>, x: seq<seq<Message>>, y: seq<seq<Message>>)
    requires IsMerge(rs, x, y)
    ensures IsMerge(Flat(rs), Flat(x), Flat(y))
    decreases |rs|
  {
    if rs != [] {
      if x != [] && rs[0] == x[0] && IsMerge(rs[1..], x[1..], y) {
        FlatMerge(rs[1..], x[1..], y);
        MergeAfter(rs[0], Flat(rs[1..]), Flat(x[1..]), Flat(y));
      } else {
        FlatMerge(rs[1..], x, y[1..]);
        MergeIsSymmetric(Flat(rs[1..]), Flat(x), Flat(y[1..]));
        MergeAfter(rs[0], Flat(rs[1..]), Flat(y[1..]), Flat(x));
        MergeIsSymmetric(Flat(rs), Flat(y), Flat(x));
      }
    }
  }

  /** What follows b's header, its end at once if b is empty, merged with what is left of a. */
  lemma AfterTheHeader(b: File, after: seq<seq<Message>>, left: seq<seq<Message>>) returns (rest: seq<Message>)
    requires IsMerge(after, left, Runs(b)[1..])
    ensures Runs(b)[0] + Flat(after) == [HeaderOf(b)] + rest && IsMerge(rest, Flat(left), Body(b) + [End])
  {
    RunsAreTheTransfer(b);
    FlatMerge(after, left, Runs(b)[1..]);
    if Body(b) == [] {
      var tail := Flat(left);
      assert Runs(b)[1..] == [];
      MergeWithNothing(after, left);
      rest := [End] + tail;
      MergeWithNothing(tail, tail);
      MergeIsSymmetric(tail, tail, []);
      MergeAfter([End], tail, [], tail);
      assert [End] + [] == [End] && [] + [End] == [End];
      MergeIsSymmetric(rest, [End], tail);
    } else {
      rest := Flat(after);
    }
  }

  /** A schedule that begins with a: b begins after a's end, or it interrupts a before its last chunk. */
  lemma FirstRunIsDoneOrInterrupted(rs: seq<seq<Message>>, a: File, b: File)
    returns (cut: nat, u: seq<Message>, v: seq<Message>)
    requires rs != [] && rs[0] == Runs(a)[0] && IsMerge(rs[1..], Runs(a)[1..], Runs(b))
    ensures Flat(rs) == Transfer(a) + Transfer(b) || (cut < |Body(a)| && Interrupts(Flat(rs), a, b, cut, u, v))
  {
    cut, u, v := 0, [], [];
    var before, after, left := SecondBegins(rs[1..], Runs(a)[1..], Runs(b));
    assert rs == [rs[0]] + before + [Runs(b)[0]] + after;
    if left == [] {
      MergeIsSymmetric(after, [], Runs(b)[1..]);
      MergeWithNothing(after, Runs(b)[1..]);
      RunsInSequence(rs, a, b, before);
    } else {
      cut := |before|;
      u, v := RunsInterrupted(rs, a, b, before, after, left);
    }
  }

  lemma RunsInterrupted(rs: seq<seq<Message>>, a: File, b: File,
      before: seq<seq<Message>>, after: seq<seq<Message>>, left: seq<seq<Message>>)
    returns (u: seq<Message>, v: seq<Message>)
    requires rs == [Runs(a)[0]] + before + [Runs(b)[0]] + after && left != []
    requires Runs(a)[1..] == before + left && IsMerge(after, left, Runs(b)[1..])
    ensures |before| < |Body(a)| && Interrupts(Flat(rs), a, b, |before|, u, v)
  {
    RunsAreTheTransfer(a);
    CutRuns(Body(a), before, left);
    var rest := AfterTheHeader(b, after, left);
    FlatOfParts(Runs(a)[0], before, Runs(b)[0], after);
    assert Flat(rs) == [HeaderOf(a)] + Body(a)[..|before|] + [HeaderOf(b)] + rest;
    u, v := InterruptedBy(Flat(rs), a, b, |before|, rest);
  }

  lemma FlatOfParts(first: seq<Message>, before: seq<seq<Message>>, next: seq<Message>, after: seq<seq<Message>>)
    ensures Flat([first] + before + [next] + after) == first + Flat(before) + (next + Flat(after))
  {
    FlatConcat([first] + before + [next], after);
    FlatConcat([first] + before, [next]);
    FlatConcat([first], before);
    FlatOne(first);
    FlatOne(next);
  }

  lemma FirstsAndRests<T>(all: seq<T>, a: seq<T>, b: seq<T>, rest: seq<T>)
    requires a != [] && b != [] && rest + [] == a[1..] && all == [a[0]] + rest + [b[0]] + b[1..]
    ensures all == a + b
  {
    assert a == [a[0]] + rest;
  }

  lemma RunsInSequence(rs: seq<seq<Message>>, a: File, b: File, before: seq<seq<Message>>)
    requires before + [] == Runs(a)[1..] && rs == [Runs(a)[0]] + before + [Runs(b)[0]] + Runs(b)[1..]
    ensures Flat(rs) == Transfer(a) + Transfer(b)
  {
    FirstsAndRests(rs, Runs(a), Runs(b), before);
    FlatConcat(Runs(a), Runs(b));
    RunsAreTheTransfer(a);
    RunsAreTheTransfer(b);
  }

  /** Unless one transfer lies wholly before the other, one file's header interrupts the other before its last chunk. */
  lemma SchedulesInterrupt(rs: seq<seq<Message>>, a: File, b: File)
    returns (early: File, late: File, cut: nat, u: seq<Message>, v: seq<Message>)
    requires IsMerge(rs, Runs(a), Runs(b)) && !AreApart(Flat(rs), a, b)
    ensures (early == a && late == b) || (early == b && late == a)
    ensures cut < |Body(early)| && Interrupts(Flat(rs), early, late, cut, u, v)
  {
    if rs[0] == Runs(a)[0] && IsMerge(rs[1..], Runs(a)[1..], Runs(b)) {
      early, late := a, b;
      cut, u, v := FirstRunIsDoneOrInterrupted(rs, a, b);
    } else {
      MergeIsSymmetric(rs[1..], Runs(a), Runs(b)[1..]);
      early, late := b, a;
      cut, u, v := FirstRunIsDoneOrInterrupted(rs, b, a);
    }
  }

  // ---- When both files arrive intact --------------------------------------------------------------

  /** One file is, under the same name and type, shorter than the other and its front up to a chunk boundary. */
  predicate IsChunkFront(a: File, b: File) {
    && a.name == b.name && a.mime == b.mime
    && a.content <= b.content && |a.content| < |b.content| && |a.content| % CHUNK_SIZE == 0
  }

  lemma InterruptedIntactOnlyIf(ms: seq<Message>, a: File, b: File, cut: nat, u: seq<Message>, v: seq<Message>)
    requires cut < |Body(a)| && Interrupts(ms, a, b, cut, u, v)
    ensures var first, second := File(b.name, b.mime, Data(u)), File(b.name, b.mime, Data(u) + Data(v));
      && !(first == a && second == b)
      && (first == b && second == a ==> IsChunkFront(b, a))
  {
    BodyIsChunks(a);
    ChunksHaveData(Body(a)[cut..]);
    HalvesCarryTheWhole(a, cut);
    FrontChunks(a.content, 0, cut);
  }

  predicate HandsOverBoth(before: seq<File>, after: seq<File>, a: File, b: File) {
    after == before + [a, b] || after == before + [b, a]
  }

  /**
   * Whatever the sender interleaves of two files neither of which is a chunk-aligned front of the other under
   * the same name and type - two that differ in name or type, or two that are the same - both are handed over
   * intact if and only if one transfer lies wholly before the other.
   */
  lemma IntactIffApart(s: State, rs: seq<seq<Message>>, a: File, b: File)
    requires s.peer.Some? && IsMerge(rs, Runs(a), Runs(b))
    requires !IsChunkFront(a, b) && !IsChunkFront(b, a)
    ensures HandsOverBoth(s.files, AllReceived(s, Flat(rs)).files, a, b) <==> AreApart(Flat(rs), a, b)
  {
    if AreApart(Flat(rs), a, b) {
      ApartIsIntact(s, Flat(rs), a, b);
    } else {
      var early, late, cut, u, v := SchedulesInterrupt(rs, a, b);
      InterruptedHandsOver(s, Flat(rs), early, late, cut, u, v);
      InterruptedIntactOnlyIf(Flat(rs), early, late, cut, u, v);
      var first, second := File(late.name, late.mime, Data(u)), File(late.name, late.mime, Data(u) + Data(v));
      var files := AllReceived(s, Flat(rs)).files;
      assert files[|s.files|] == first && files[|s.files| + 1] == second;
    }
  }

  lemma ApartIsIntact(s: State, ms: seq<Message>, a: File, b: File)
    requires s.peer.Some? && AreApart(ms, a, b)
    ensures HandsOverBoth(s.files, AllReceived(s, ms).files, a, b)
  {
    var (first, second) := if ms == Transfer(a) + Transfer(b) then (a, b) else (b, a);
    RoundTrip(s, first);
    RoundTrip(AllReceived(s, Transfer(first)), second);
    AllReceivedConcat(s, Transfer(first), Transfer(second));
  }

  // ---- The overlap that does no harm --------------------------------------------------------------

  lemma HalvesCarryTheWhole(file: File, k: nat)
    requires k <= |Body(file)|
    ensures Body(file)[..k] + Body(file)[k..] == Body(file)
    ensures Data(Body(file)[..k]) + Data(Body(file)[k..]) == file.content
  {
    BodyIsChunks(file);
    DataConcat(Body(file)[..k], Body(file)[k..]);
    assert Body(file)[..k] + Body(file)[k..] == Body(file);
  }

  /** The longer file's header and as many of its chunks as the shorter file has, the shorter file, and the rest. */
  function HarmlessOverlap(a: File, b: File): seq<seq<Message>>
    requires IsChunkFront(a, b)
  {
    var k := Min(|Body(a)| + 1, |Runs(b)|);
    Runs(b)[..k] + Runs(a) + Runs(b)[k..]
  }

  lemma HarmlessOverlapIsAMerge(a: File, b: File)
    requires IsChunkFront(a, b)
    ensures IsMerge(HarmlessOverlap(a, b), Runs(a), Runs(b))
  {
    var k := Min(|Body(a)| + 1, |Runs(b)|);
    var front, tail := Runs(b)[..k], Runs(b)[k..];
    MergeWithNothing(tail, tail);
    MergeIsSymmetric(tail, tail, []);
    MergeAfter(Runs(a), tail, [], tail);
    assert Runs(a) + [] == Runs(a) && front + tail == Runs(b) && front + (Runs(a) + tail) == front + Runs(a) + tail;
    MergeIsSymmetric(Runs(a) + tail, Runs(a), tail);
    MergeAfter(front, Runs(a) + tail, tail, Runs(a));
    MergeIsSymmetric(front + (Runs(a) + tail), Runs(b), Runs(a));
  }

  lemma FrontHasFewerChunks(a: File, b: File)
    requires IsChunkFront(a, b)
    ensures |Body(a)| < |Body(b)| && Data(Body(b)[..|Body(a)|]) == a.content
  {
    ChunksAreFull(a.content, 0);
    ChunksAreFull(b.content, 0);
    FrontChunks(b.content, 0, |Body(a)|);
    assert b.content[0..|a.content|] == a.content;
  }

  lemma HalvesOfRuns(file: File, n: nat)
    requires n < |Body(file)|
    ensures |Runs(file)| == |Body(file)| + 1
    ensures Flat(Runs(file)[..n + 1]) == [HeaderOf(file)] + Body(file)[..n]
    ensures Flat(Runs(file)[n + 1..]) == Body(file)[n..] + [End]
  {
    var all := ChunkRuns(Body(file));
    assert all == all[..n] + all[n..];
    assert Runs(file)[..n + 1] == [[HeaderOf(file)]] + all[..n] && Runs(file)[n + 1..] == all[n..];
    CutRuns(Body(file), all[..n], all[n..]);
    FlatConcat([[HeaderOf(file)]], all[..n]);
    FlatOne([HeaderOf(file)]);
  }

  lemma HarmlessMessages(a: File, b: File)
    requires IsChunkFront(a, b)
    ensures var n := |Body(a)|;
      && n < |Body(b)|
      && Flat(HarmlessOverlap(a, b)) ==
           [HeaderOf(b)] + Body(b)[..n] + [HeaderOf(a)] + Body(a) + [End] + Body(b)[n..] + [End]
  {
    var n := |Body(a)|;
    FrontHasFewerChunks(a, b);
    RunsAreTheTransfer(a);
    BodyIsChunks(a);
    HalvesOfRuns(b, n);
    FlatConcat(Runs(b)[..n + 1] + Runs(a), Runs(b)[n + 1..]);
    FlatConcat(Runs(b)[..n + 1], Runs(a));
    Regrouped([HeaderOf(b)] + Body(b)[..n], [HeaderOf(a)], Body(a), [End], Body(b)[n..]);
  }

  lemma Regrouped(a: seq<Message>, b: seq<Message>, c: seq<Message>, d: seq<Message>, e: seq<Message>)
    ensures a + (b + (c + d)) + (e + d) == a + b + c + d + e + d
  {
  }

  /** The exception is needed: every chunk-aligned front has an overlap that hands both files over intact. */
  lemma ChunkFrontsMayOverlap(s: State, a: File, b: File)
    requires s.peer.Some? && IsChunkFront(a, b)
    ensures var rs := HarmlessOverlap(a, b);
      && IsMerge(rs, Runs(a), Runs(b)) && !AreApart(Flat(rs), a, b)
      && AllReceived(s, Flat(rs)).files == s.files + [a, b]
  {
    HarmlessOverlapIsAMerge(a, b);
    HarmlessMessages(a, b);
    HarmlessHandsOver(s, a, b);
    HarmlessIsNotApart(a, b);
  }

  lemma HarmlessHandsOver(s: State, a: File, b: File)
    requires s.peer.Some? && IsChunkFront(a, b) && |Body(a)| < |Body(b)|
    ensures var n := |Body(a)|;
      AllReceived(s, [HeaderOf(b)] + Body(b)[..n] + [HeaderOf(a)] + Body(a) + [End] + Body(b)[n..] + [End]).files
        == s.files + [a, b]
  {
    var n := |Body(a)|;
    BodyIsChunks(a);
    BodyIsChunks(b);
    FrontHasFewerChunks(a, b);
    HalvesCarryTheWhole(b, n);
    TwoEndsAfterAHeader(s, [HeaderOf(b)] + Body(b)[..n], HeaderOf(a), Body(a), Body(b)[n..]);
  }

  lemma HarmlessIsNotApart(a: File, b: File)
    requires IsChunkFront(a, b)
    ensures !AreApart(Flat(HarmlessOverlap(a, b)), a, b)
  {
    var n, ms := |Body(a)|, Flat(HarmlessOverlap(a, b));
    HarmlessMessages(a, b);
    BodyIsChunks(b);
    assert ms[0] == HeaderOf(b) && ms[n + 1] == HeaderOf(a);
    assert (Transfer(a) + Transfer(b))[0] == HeaderOf(a);
    assert (Transfer(b) + Transfer(a))[n + 1] == Body(b)[n];
  }

  /**
   * Put together: for two given files every overlap the sender can produce does harm if and only if neither is
   * a chunk-aligned front of the other under the same name and type.
   */
  lemma OverlapsAlwaysHarmIff(s: State, a: File, b: File)
    requires s.peer.Some?
    ensures (!IsChunkFront(a, b) && !IsChunkFront(b, a)) <==>
      forall rs | IsMerge(rs, Runs(a), Runs(b)) && HandsOverBoth(s.files, AllReceived(s, Flat(rs)).files, a, b) ::
        AreApart(Flat(rs), a, b)
  {
    if IsChunkFront(a, b) {
      ChunkFrontsMayOverlap(s, a, b);
    } else if IsChunkFront(b, a) {
      ChunkFrontsMayOverlap(s, b, a);
      MergeIsSymmetric(HarmlessOverlap(b, a), Runs(b), Runs(a));
    } else {
      forall rs | IsMerge(rs, Runs(a), Runs(b)) && HandsOverBoth(s.files, AllReceived(s, Flat(rs)).files, a, b)
        ensures AreApart(Flat(rs), a, b)
      {
        IntactIffApart(s, rs, a, b);
      }
    }
  }
}
