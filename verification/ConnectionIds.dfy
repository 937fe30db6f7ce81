/** Connection ids and the tie-break built on their order (peer-mesh.ts, room-workspace.tsx). */
module ConnectionIds {

  type ConnectionId = string

  /**
   * The `<` of JavaScript strings on ids, which are ASCII: the first differing character decides, and a prefix
   * comes first.
   */
  predicate Less(a: ConnectionId, b: ConnectionId) {
    if b == "" then false
    else if a == "" then true
    else a[0] < b[0] || (a[0] == b[0] && Less(a[1..], b[1..]))
  }

  /** Trichotomy: the order leaves no pair of distinct ids undecided, and none decided twice. */
  lemma {:induction false} OrderIsTotal(a: ConnectionId, b: ConnectionId)
    ensures a == b ==> !Less(a, b) && !Less(b, a)
    ensures a != b ==> Less(a, b) == !Less(b, a)
  {
    if a != "" && b != "" && a[0] == b[0] {
      OrderIsTotal(a[1..], b[1..]);
      assert a == [a[0]] + a[1..] && b == [b[0]] + b[1..];
    }
  }

  /** Whether the holder of `local` yields to `remote` when two offers collide. */
  predicate IsPolite(local: ConnectionId, remote: ConnectionId) {
    Less(remote, local)
  }

  /** Whether `local` opens the data channel that triggers the first offer. */
  predicate Initiates(local: ConnectionId, remote: ConnectionId) {
    Less(local, remote)
  }

  /** In a pair exactly one side is polite and exactly one initiates, and the initiator is the impolite one. */
  lemma OneInitiatorPerPair(a: ConnectionId, b: ConnectionId)
    requires a != b
    ensures IsPolite(a, b) == !IsPolite(b, a)
    ensures Initiates(a, b) == !Initiates(b, a)
    ensures Initiates(a, b) == !IsPolite(a, b)
  {
    OrderIsTotal(a, b);
  }
}
