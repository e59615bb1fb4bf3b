/** Reading a room object: which viewer entry belongs to a socket, who is
    notified on stop, and where an incoming candidate is routed. */
module Rooms {
  import opened Types

  /** `viewers.find(viewer => id === viewer.id)`: the index of the FIRST
      entry whose id is `id`, or None when no entry has it. */
  function FindViewer(vs: seq<Viewer>, id: SockId): (r: Option<nat>)
    ensures r.Some? ==> r.value < |vs| && vs[r.value].id == id
    ensures r.Some? ==> forall j :: 0 <= j < r.value ==> vs[j].id != id
    ensures r.None? <==> forall j :: 0 <= j < |vs| ==> vs[j].id != id
  {
    if vs == [] then None
    else if vs[0].id == id then Some(0)
    else match FindViewer(vs[1..], id)
      case None => None
      case Some(k) => Some(k + 1)
  }

  /** Some entry of the (defined) viewers list has id `id`. */
  predicate Listed(viewers: Option<seq<Viewer>>, id: SockId)
  {
    viewers.Some? && exists j :: 0 <= j < |viewers.value| && viewers.value[j].id == id
  }

  /** The socket ids of a viewers list, in list order. */
  function Ids(vs: seq<Viewer>): seq<SockId>
  {
    seq(|vs|, i requires 0 <= i < |vs| => vs[i].id)
  }

  /** Where iceCandidate sends a candidate from socket `id`. */
  datatype Target = ToStreamer | ToViewer(index: nat) | ToQueue

  /** The routing rule: the streamer test comes first; then the first viewer
      entry with the sender's id; otherwise the room's queue. */
  function Destination(room: Room, id: SockId): (t: Target)
    ensures t == ToStreamer <==> room.streamer == Some(id)
    ensures t.ToViewer? ==>
      && room.streamer != Some(id)
      && room.viewers.Some?
      && t.index < |room.viewers.value|
      && room.viewers.value[t.index].id == id
      && forall j :: 0 <= j < t.index ==> room.viewers.value[j].id != id
    ensures t == ToQueue <==> room.streamer != Some(id) && !Listed(room.viewers, id)
  {
    if room.streamer == Some(id) then ToStreamer
    else if room.viewers.None? then ToQueue
    else match FindViewer(room.viewers.value, id)
      case Some(i) => ToViewer(i)
      case None => ToQueue
  }
}
