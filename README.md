# Room coordination of the amnis signaling relay

The relay brokers WebRTC sessions between one streamer and many viewers per
room. Media work is done by a Kurento media server. The relay itself keeps two
pieces of state, and this project models them and proves what its handlers do
to them:

- the **candidate table** `candidatesQueue`: room id to a FIFO of ICE
  candidates that arrived while no endpoint could take them;
- the **room registry**: the fields `streamer`, `viewers`, `pipeline` and
  `webRtcEndpoint` that the handlers write onto socket.io room objects.

Layout:

- `types.dfy` (`Types`): socket ids, room ids, candidates, the opaque pipeline
  and endpoint handles, viewer entries and room records. An undefined field, or
  a `null` streamer, is `None`.
- `candidate_queue.dfy` (`CandidateQueue`): the candidate table as a map and its
  three operations: clear, enqueue, and the state a drain leaves behind.
- `rooms.dfy` (`Rooms`): `viewers.find` and the routing rule of `iceCandidate`.
- `relay_spec.dfy` (`RelaySpec`): the whole state as a value, one step function
  per handler or media-server callback, the invariant, and the lemmas that
  relate several steps.
- `relay.dfy` (`Signaling.Relay`): the relay as a class whose fields are updated
  in place. Each handler and callback method is proved to make exactly the
  step its `RelaySpec` function describes, and to keep the invariant. The two
  helpers `DrainQueue` and `AddIceCandidate` are proved equal to `DrainInto`
  and `AddCandidate`; they carry no invariant of their own.

Each asynchronous Kurento callback is one atomic step: `startStream` becomes
`StartStream`, then `OnPipelineCreated`, then `OnStreamerEndpointCreated`;
`view` becomes `View`, then `OnViewerEndpointCreated`. A `TypeError` that the
JavaScript would throw is a result value (`Thrown`, `StopThrown`,
`RouteThrown`, `NoPipeline`). The state is left as the code leaves it at the
throw. Endpoints are opaque ids. The media server's `addIceCandidate` calls are
a ghost log per endpoint (`applied`). The keys of that log are the endpoints
created so far.

Behaviour of the code that the model keeps and proves:

- `startStream` clears the room's queue before its endpoint exists. Candidates
  buffered before a `streamer` message therefore never reach any endpoint
  (`EarlyCandidateDiscarded`). Only candidates that arrive after the clear are
  drained into the new endpoint (`StreamerGetsLateCandidatesInOrder`).
- A drain empties the queue array but keeps its key. Only a clear deletes the
  key.
- The queue is per room, not per socket. A drain gives every queued candidate
  to whichever endpoint is created next, the streamer's included
  (`QueueIsShared`).
- `stop` does not reset `pipeline`. So the relay does not refuse `view` after
  `stop`: it sends the endpoint request to the released pipeline
  (`ViewAfterStopRequestsEndpoint`). What the media server answers is not
  modelled.
- A candidate from the streamer socket after `OnPipelineCreated` but before
  its endpoint exists dereferences an undefined `webRtcEndpoint`. That is
  `RouteThrown`, and the candidate is lost. In a room that had an earlier
  streamer, the candidate goes to the old endpoint instead.

## Model

| member | source | states |
|---|---|---|
| `CandidateQueue.Clear` | index.js:150-154 | the room's key is gone; every other room keeps its key status and queue; an absent key leaves the table unchanged |
| `CandidateQueue.Enqueue` | index.js:171-176 | the room's queue exists afterwards and is the old queue (empty if missing) with the candidate at its end; no other room's queue changes |
| `CandidateQueue.Drained` | index.js:71-76 | after the shift loop the room has no pending candidate; its key is present exactly when it was; no other room's queue changes |
| `Rooms.FindViewer` | index.js:169-170 | returns the index of the first viewer entry with the sender's id, or None exactly when no entry has that id |
| `Rooms.Destination` | index.js:168-176 | streamer route exactly when the sender is the streamer, so the streamer test wins; a viewer route names the first entry with the sender's id; queue route exactly when the sender is neither the streamer nor listed |
| `RelaySpec.AddCandidate` | index.js:168 | `addIceCandidate` appends the candidate to that endpoint's log and changes no other endpoint, queue or room |
| `RelaySpec.DrainInto` | index.js:71-76 | the endpoint's log grows by the room's queued candidates in arrival order; the queue is left drained; no other endpoint or room changes |
| `RelaySpec.JoinStep` | index.js:23 | the room object exists afterwards; an existing room object is untouched; nothing else changes |
| `RelaySpec.ClearStep` | index.js:150-154 | the room's queue key is removed, other queues, rooms and endpoints unchanged; a no-op when the key is absent |
| `RelaySpec.PipelineStep` | index.js:63-67 | with a room object, the sender becomes the one streamer, replacing any earlier one; viewers reset to empty; pipeline recorded; old endpoint kept. Without one, it throws and changes nothing |
| `RelaySpec.StreamerEndpointStep` | index.js:68-76 | the endpoint becomes the room's streamer endpoint and receives every queued candidate in arrival order; the queue is then empty; other queues, rooms and endpoints unchanged; throws without a room object |
| `RelaySpec.ViewStep` | index.js:102-105 | the room's queue is cleared unconditionally; nothing is requested without a room object; an endpoint is requested exactly when the room has a pipeline |
| `RelaySpec.ViewerEndpointStep` | index.js:105-113 | the new viewer entry is appended after the existing ones, which keep their order; the new endpoint receives every queued candidate in order and the queue is empty; throws without a room object or viewers list |
| `RelaySpec.StopStep` | index.js:156-164 | each listed viewer is notified once, in list order; streamer nulled, viewers emptied, queue key removed, other rooms unchanged; an absent room only clears the queue; a room without a pipeline throws unchanged |
| `RelaySpec.IceCandidateStep` | index.js:166-177 | the streamer's candidate goes to the streamer endpoint, else a listed viewer's to the first matching entry's endpoint, else it is appended to the room's queue; only that endpoint or that queue changes; a missing room or streamer endpoint throws |
| `RelaySpec.StepsPreserveWellformed` | index.js:65-70 | every step keeps the invariant that the pipeline and viewers list are set together and every endpoint a room refers to has been created |
| `RelaySpec.WellformedRoutesToCreated` | index.js:166-177 | under the invariant, candidates are only routed to endpoints that exist, and stop throws only on a room with no pipeline |
| `RelaySpec.StopIdempotent` | index.js:156-164 | a second stop leaves the same registry, queue table and logs as the first, and notifies nobody |
| `RelaySpec.StrangerCandidatesQueueInOrder` | index.js:171-176 | a burst of candidates from a socket that is neither streamer nor viewer is appended to the room's queue in arrival order; no room, endpoint or other queue changes |
| `RelaySpec.StreamerGetsLateCandidatesInOrder` | index.js:59-76 | after startStream's clear, the candidates that a socket which is neither the room's streamer nor a listed viewer sends before its pipeline exists are exactly what the fresh streamer endpoint receives, in arrival order; the queue is then empty |
| `RelaySpec.EarlyCandidateDiscarded` | index.js:59-76 | a candidate buffered before the `streamer` message is not applied to the streamer endpoint created afterwards |
| `RelaySpec.QueueIsShared` | index.js:71-76 | a candidate buffered by a would-be viewer is drained into the next endpoint created, even the streamer's |
| `RelaySpec.ViewAfterStopRequestsEndpoint` | index.js:156-164 | stop keeps the pipeline field, so a later view on that room still requests an endpoint |
| `Signaling.Relay.constructor` | index.js:12 | the relay starts with an empty candidate table, no rooms and no endpoints, and satisfies its invariant |
| `Signaling.Relay.AddIceCandidate` | index.js:168 | the state after the media server's `addIceCandidate` is `AddCandidate` of the state before |
| `Signaling.Relay.Join` | index.js:23 | the state after `socket.join` is `JoinStep` of the state before |
| `Signaling.Relay.ClearCandidatesQueue` | index.js:150-154 | the state afterwards is `ClearStep` of the state before; invariant kept |
| `Signaling.Relay.StartStream` | index.js:59-61 | startStream's synchronous part is exactly a queue clear; invariant kept |
| `Signaling.Relay.OnPipelineCreated` | index.js:63-67 | the in-place field assignments make `PipelineStep`; invariant kept |
| `Signaling.Relay.DrainQueue` | index.js:71-76 | the shift loop leaves exactly `DrainInto`: each candidate goes from the front of the queue to the endpoint in order |
| `Signaling.Relay.OnStreamerEndpointCreated` | index.js:68-76 | makes `StreamerEndpointStep`; invariant kept |
| `Signaling.Relay.View` | index.js:102-105 | makes `ViewStep` and reports whether an endpoint was requested; invariant kept |
| `Signaling.Relay.OnViewerEndpointCreated` | index.js:105-113 | the push and the drain make `ViewerEndpointStep`; invariant kept |
| `Signaling.Relay.Stop` | index.js:156-164 | the forEach notification loop and the field resets make `StopStep`, returning the notified sockets in list order; invariant kept |
| `Signaling.Relay.IceCandidate` | index.js:166-177 | the routing makes `IceCandidateStep` and reports where the candidate went; invariant kept |

## Left out

- Express, CORS and the HTTP listener (index.js:1-9, index.js:179-181): server start-up and I/O.
- socket.io event wiring, `JSON.parse` and the `socket.emit` responses (index.js:14-57). `socket.join` is modelled only as "the room object exists" (`JoinStep`).
- socket.io deleting a room object when its last socket leaves, and disconnect handling: connection lifecycle, not relay logic. The steps still handle a missing room object the way the code does.
- The Kurento client calls (`getKurentoClient`, pipeline and endpoint creation, `processOffer`, `gatherCandidates`, `connect`, `pipeline.release`, `getComplexType`): foreign library calls. Pipelines and endpoints are opaque ids. SDP offers and answers are not modelled. Creation failures reported through the callbacks' `err` argument are not modelled either.
- Forwarding the media server's `OnIceCandidate` events back to clients (index.js:78-84, index.js:115-121): callback-driven output.
- Room ids that name `Object.prototype` members (`constructor`, `toString`, `__proto__`, ...) are not modelled. The JavaScript table is a plain object, so for such an id it sees an inherited value where the model sees a missing key: the buffering branch then throws at `push`, and a drain fails at `shift`. The model treats every room id as an ordinary key.
- Interleavings of the asynchronous callbacks and the `try { } catch (err) { throw err; }` rethrows: each callback is one atomic step. A thrown `TypeError` is a result value, not a process crash.
- `Signaling.Relay.Stop`: assumes the relay invariant, under which a pipeline never exists without a viewers list. The step function `StopStep` still models the code's throw at index.js:159 for that case.
