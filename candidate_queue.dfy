/** The relay's candidate buffer: a table from room id to the ICE candidates
    that arrived for that room while no endpoint could take them, oldest
    first. Entries are created lazily, appended to, emptied by a drain and
    deleted by a clear. */
module CandidateQueue {
  import opened Types

  type Queues = map<RoomId, seq<Candidate>>

  /** The candidates buffered for `room`; a missing key buffers nothing. */
  function Pending(q: Queues, room: RoomId): seq<Candidate>
  {
    if room in q then q[room] else []
  }

  /** Every room other than `room` has the same key status and the same
      queue in `q` and `q'`. */
  ghost predicate OthersUnchanged(q: Queues, q': Queues, room: RoomId)
  {
    forall k :: k != room ==> (k in q <==> k in q') && (k in q ==> q[k] == q'[k])
  }

  /** clearCandidatesQueue: the room's key is deleted; absent, nothing happens. */
  function Clear(q: Queues, room: RoomId): (r: Queues)
    ensures room !in r && Pending(r, room) == []
    ensures OthersUnchanged(q, r, room)
    ensures room !in q ==> r == q
  {
    q - {room}
  }

  /** The buffering branch of iceCandidate: the room's queue is created empty
      when missing, then the candidate goes to its end. */
  function Enqueue(q: Queues, room: RoomId, c: Candidate): (r: Queues)
    ensures room in r && Pending(r, room) == Pending(q, room) + [c]
    ensures OthersUnchanged(q, r, room)
  {
    q[room := Pending(q, room) + [c]]
  }

  /** The queue after the `shift` loop has taken every candidate: a present
      key stays, holding an empty array; a missing key stays missing. */
  function Drained(q: Queues, room: RoomId): (r: Queues)
    ensures (room in r <==> room in q) && Pending(r, room) == []
    ensures OthersUnchanged(q, r, room)
  {
    if room in q then q[room := []] else q
  }
}
