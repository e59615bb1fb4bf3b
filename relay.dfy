/** The relay as the program keeps it: a candidate table and the room
    objects, updated in place by the message handlers and by the media
    server's callbacks. Each method is proved to make exactly the step the
    matching function of RelaySpec describes. */
module Signaling {
  import opened Types
  import opened CandidateQueue
  import opened Rooms
  import opened RelaySpec

  class Relay {
    /** The module-level candidate table. */
    var candidatesQueue: Queues
    /** The relay's fields on each socket.io room object. */
    var rooms: map<RoomId, Room>
    /** Per created endpoint, the candidates passed to its addIceCandidate. */
    ghost var applied: map<EndpointId, seq<Candidate>>

    ghost function Model(): State
      reads this
    {
      State(candidatesQueue, rooms, applied)
    }

    ghost predicate Valid()
      reads this
    {
      Wellformed(Model())
    }

    constructor ()
      ensures Valid()
      ensures candidatesQueue == map[] && rooms == map[] && applied == map[]
    {
      candidatesQueue := map[];
      rooms := map[];
      applied := map[];
    }

    /** The media server's `addIceCandidate` on endpoint `ep`. */
    ghost method AddIceCandidate(ep: EndpointId, c: Candidate)
      modifies this`applied
      ensures Model() == AddCandidate(old(Model()), ep, c)
    {
      applied := applied[ep := Log(Model(), ep) + [c]];
    }

    /** `socket.join(room)`. */
    method Join(room: RoomId)
      requires Valid()
      modifies this
      ensures Valid()
      ensures Model() == JoinStep(old(Model()), room)
    {
      if room !in rooms {
        rooms := rooms[room := Joined];
      }
    }

    /** clearCandidatesQueue. */
    method ClearCandidatesQueue(room: RoomId)
      requires Valid()
      modifies this
      ensures Valid()
      ensures Model() == ClearStep(old(Model()), room)
    {
      if room in candidatesQueue {
        candidatesQueue := candidatesQueue - {room};
      }
    }

    /** startStream up to the request for a media pipeline. */
    method StartStream(room: RoomId)
      requires Valid()
      modifies this
      ensures Valid()
      ensures Model() == ClearStep(old(Model()), room)
    {
      ClearCandidatesQueue(room);
    }

    /** The MediaPipeline callback of startStream. */
    method OnPipelineCreated(room: RoomId, sender: SockId, pipeline: PipelineId) returns (outcome: Outcome)
      requires Valid()
      modifies this
      ensures Valid()
      ensures Model() == PipelineStep(old(Model()), room, sender, pipeline).next
      ensures outcome == PipelineStep(old(Model()), room, sender, pipeline).out
    {
      if room !in rooms {
        return Thrown;
      }
      rooms := rooms[room := rooms[room].(streamer := Some(sender))];
      rooms := rooms[room := rooms[room].(viewers := Some([]))];
      rooms := rooms[room := rooms[room].(pipeline := Some(pipeline))];
      return Done;
    }

    /** The `shift` loop run when endpoint `ep` has just been created: every
        candidate queued for `room` is removed from the front of the queue and
        handed to `ep`. */
    method DrainQueue(room: RoomId, ep: EndpointId)
      modifies this
      ensures Model() == DrainInto(old(Model()), room, ep)
    {
      ghost var s0 := Model();
      ghost var log0 := Log(s0, ep);
      ghost var pending0 := Pending(s0.queues, room);
      // the endpoint now exists, with no candidate yet
      applied := applied[ep := log0];
      if room in candidatesQueue {
        ghost var handed: seq<Candidate> := [];
        assert log0 + handed == log0;
        while |candidatesQueue[room]| > 0
          invariant room in candidatesQueue
          invariant candidatesQueue == s0.queues[room := candidatesQueue[room]]
          invariant pending0 == handed + candidatesQueue[room]
          invariant applied == s0.applied[ep := log0 + handed]
          invariant rooms == s0.rooms
          decreases |candidatesQueue[room]|
        {
          var candidate := candidatesQueue[room][0];
          candidatesQueue := candidatesQueue[room := candidatesQueue[room][1..]];
          AddIceCandidate(ep, candidate);
          assert log0 + handed + [candidate] == log0 + (handed + [candidate]);
          handed := handed + [candidate];
        }
        assert handed == pending0;
        assert candidatesQueue == Drained(s0.queues, room);
      } else {
        assert pending0 == [] && log0 + pending0 == log0;
      }
      assert applied == s0.applied[ep := log0 + pending0];
    }

    /** The WebRtcEndpoint callback of startStream. */
    method OnStreamerEndpointCreated(room: RoomId, ep: EndpointId) returns (outcome: Outcome)
      requires Valid()
      modifies this
      ensures Valid()
      ensures Model() == StreamerEndpointStep(old(Model()), room, ep).next
      ensures outcome == StreamerEndpointStep(old(Model()), room, ep).out
    {
      if room !in rooms {
        return Thrown;
      }
      rooms := rooms[room := rooms[room].(endpoint := Some(ep))];
      DrainQueue(room, ep);
      return Done;
    }

    /** view up to the request for a viewer endpoint. */
    method View(room: RoomId) returns (start: ViewStart)
      requires Valid()
      modifies this
      ensures Valid()
      ensures Model() == ViewStep(old(Model()), room).next
      ensures start == ViewStep(old(Model()), room).out
    {
      ClearCandidatesQueue(room);
      if room !in rooms {
        return NotJoined;
      }
      if rooms[room].pipeline.None? {
        return NoPipeline;
      }
      return EndpointRequested;
    }

    /** The WebRtcEndpoint callback of view. */
    method OnViewerEndpointCreated(room: RoomId, sender: SockId, ep: EndpointId) returns (outcome: Outcome)
      requires Valid()
      modifies this
      ensures Valid()
      ensures Model() == ViewerEndpointStep(old(Model()), room, sender, ep).next
      ensures outcome == ViewerEndpointStep(old(Model()), room, sender, ep).out
    {
      if room !in rooms || rooms[room].viewers.None? {
        return Thrown;
      }
      var vs := rooms[room].viewers.value;
      rooms := rooms[room := rooms[room].(viewers := Some(vs + [Viewer(sender, ep)]))];
      DrainQueue(room, ep);
      return Done;
    }

    /** stop. A valid relay never has a pipeline without a viewers list, so
        the only throw left is a room object with no pipeline. */
    method Stop(room: RoomId) returns (result: StopResult)
      requires Valid()
      modifies this
      ensures Valid()
      ensures Model() == StopStep(old(Model()), room).next
      ensures result == StopStep(old(Model()), room).out
    {
      if room !in rooms {
        ClearCandidatesQueue(room);
        return Stopped([]);
      }
      if rooms[room].pipeline.None? {
        return StopThrown;
      }
      // pipeline.release() is a media-server call
      rooms := rooms[room := rooms[room].(streamer := None)];
      var viewers := rooms[room].viewers.value;
      var notified: seq<SockId> := [];
      for i := 0 to |viewers|
        invariant |notified| == i
        invariant forall j :: 0 <= j < i ==> notified[j] == viewers[j].id
      {
        notified := notified + [viewers[i].id];
      }
      rooms := rooms[room := rooms[room].(viewers := Some([]))];
      ClearCandidatesQueue(room);
      return Stopped(notified);
    }

    /** iceCandidate. */
    method IceCandidate(room: RoomId, sender: SockId, candidate: Candidate) returns (route: Route)
      requires Valid()
      modifies this
      ensures Valid()
      ensures Model() == IceCandidateStep(old(Model()), room, sender, candidate).next
      ensures route == IceCandidateStep(old(Model()), room, sender, candidate).out
    {
      if room !in rooms {
        return RouteThrown;
      }
      var rm := rooms[room];
      if rm.streamer.Some? && rm.streamer.value == sender {
        if rm.endpoint.None? {
          return RouteThrown;
        }
        AddIceCandidate(rm.endpoint.value, candidate);
        return StreamerEndpoint(rm.endpoint.value);
      }
      var found := if rm.viewers.Some? then FindViewer(rm.viewers.value, sender) else None;
      if found.Some? {
        var ep := rm.viewers.value[found.value].endpoint;
        AddIceCandidate(ep, candidate);
        return ViewerEndpoint(ep);
      }
      if room !in candidatesQueue {
        candidatesQueue := candidatesQueue[room := []];
      }
      candidatesQueue := candidatesQueue[room := candidatesQueue[room] + [candidate]];
      return Queued;
    }
  }
}
