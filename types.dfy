/** Vocabulary shared by the relay model: sockets, rooms, candidates and the
    opaque handles of objects the media server owns. */
module Types {

  datatype Option<T> = None | Some(value: T)

  /** A socket.io connection id. socket.io never issues an empty id, so a
      registered id is always truthy in the relay's `streamer && ...` test. */
  type SockId = s: string | s != "" witness "s"

  /** The room name a client sends in its messages. */
  type RoomId = string

  /** An ICE candidate as the media server's IceCandidate type carries it.
      The relay only stores and forwards candidates; it never inspects them. */
  datatype Candidate = Candidate(candidate: string, sdpMid: string, sdpMLineIndex: nat)

  /** Handles of a media pipeline and of a WebRTC endpoint. */
  type PipelineId = nat
  type EndpointId = nat

  /** One entry of a room's `viewers` list: the viewer's socket id and the
      endpoint created for it. */
  datatype Viewer = Viewer(id: SockId, endpoint: EndpointId)

  /** The fields the relay writes onto a socket.io room object. `None` stands
      for a field that is still undefined, and for `streamer` also for null. */
  datatype Room = Room(
    streamer: Option<SockId>,
    viewers: Option<seq<Viewer>>,
    pipeline: Option<PipelineId>,
    endpoint: Option<EndpointId>)

  /** A room object as socket.io creates it when the first socket joins. */
  const Joined: Room := Room(None, None, None, None)
}
