/** StreamController and StreamServer. The controller keeps the port to
    server bindings, queues connect requests picked off the receive side, and
    answers each one: a CONNECT_FAIL when no server listens or no id is left,
    otherwise a CONNECT_CONFIRM and a new Stream handed to the server. A
    StreamServer is a bounded first-in first-out queue of such streams.
    The two classes refer to each other, so they share this module. */
module Controller {
  import opened Bytes
  import opened Outcomes
  import opened Codec
  import opened Streams
  import opened StreamIds

  const NEW_STREAM_QUEUE_DEPTH: int := 16
  /** The capacity of a StreamServer's queue of pending streams. */
  const PENDING_STREAMS: int := 16

  /** A connect request as the message reader queues it. */
  datatype ConnectRequest = ConnectRequest(priority: int, remoteId: int, streamPort: int, buffer: seq<Byte>)

  /** Which way the dispatcher answered a request. */
  datatype DispatchOutcome =
    | NoListener
    | LimitReached
    | Confirmed(localId: int, handedOver: bool)

  class StreamController {
    const streams: StreamMap
    var streamPorts: map<int, StreamServer>
    var connectRequests: seq<ConnectRequest>
    /** Messages handed to the broker's `sendMessage`, in order. */
    var sent: seq<seq<Byte>>

    ghost predicate Valid()
      reads this, streams, streams.slots
    {
      streams.Valid() &&
      |connectRequests| <= NEW_STREAM_QUEUE_DEPTH &&
      forall id :: id in streams.entries ==> id in streams.Used()
    }

    /** The controller starts with no bindings: the port map is otherwise
        never created. */
    constructor ()
      ensures Valid() && fresh(streams) && fresh(streams.slots)
      ensures streamPorts == map[] && connectRequests == [] && sent == []
      ensures streams.Used() == {} && streams.entries == map[]
    {
      streams := new StreamMap();
      streamPorts := map[];
      connectRequests := [];
      sent := [];
    }

    /** `registerStreamServer`: binds the port and answers true exactly when
        it was unbound; an existing binding is never replaced. */
    method RegisterStreamServer(port: int, server: StreamServer) returns (ok: bool)
      modifies this
      ensures ok <==> port !in old(streamPorts)
      ensures ok ==> streamPorts == old(streamPorts)[port := server]
      ensures !ok ==> streamPorts == old(streamPorts)
      ensures connectRequests == old(connectRequests) && sent == old(sent)
    {
      if port in streamPorts {
        return false;
      }
      streamPorts := streamPorts[port := server];
      ok := true;
    }

    /** `deregisterStreamServer`: unbinds the port, whichever server holds
        it, and answers whether one did. */
    method DeregisterStreamServer(port: int) returns (ok: bool)
      modifies this
      ensures ok <==> port in old(streamPorts)
      ensures streamPorts == old(streamPorts) - {port}
      ensures connectRequests == old(connectRequests) && sent == old(sent)
    {
      ok := port in streamPorts;
      streamPorts := streamPorts - {port};
    }

    /** One pass of the connect dispatcher over the oldest queued request. */
    method ConnectDispatchStep() returns (outcome: DispatchOutcome)
      requires Valid() && |connectRequests| > 0
      modifies this, streams, streams.slots, streamPorts.Values
      ensures Valid()
      ensures connectRequests == old(connectRequests[1..]) && streamPorts == old(streamPorts)
      ensures var req := old(connectRequests[0]);
              (outcome.NoListener? <==> req.streamPort !in streamPorts) &&
              (outcome.LimitReached? <==> req.streamPort in streamPorts && |old(streams.Used())| >= MAX_STREAMS)
      ensures var req := old(connectRequests[0]);
              outcome.NoListener? ==>
                sent == old(sent) + [CreateConnectFail(req.priority, req.remoteId, NO_LISTENER)]
      ensures var req := old(connectRequests[0]);
              outcome.LimitReached? ==>
                sent == old(sent) + [CreateConnectFail(req.priority, req.remoteId, LIMIT_EXCEEDED)]
      ensures !outcome.Confirmed? ==>
                streams.Used() == old(streams.Used()) && streams.entries == old(streams.entries)
      ensures var req := old(connectRequests[0]);
              outcome.Confirmed? ==>
                var id := outcome.localId;
                0 <= id < MAX_STREAMS && id !in old(streams.Used()) &&
                (forall i :: 0 <= i < id ==> i in old(streams.Used())) &&
                streams.Used() == old(streams.Used()) + {id} &&
                sent == old(sent) + [CreateConnectConfirm(req.priority, req.remoteId, id)]
      ensures var req := old(connectRequests[0]);
              outcome.Confirmed? && outcome.handedOver ==>
                var id := outcome.localId;
                var server := streamPorts[req.streamPort];
                streams.entries.Keys == old(streams.entries.Keys) + {id} &&
                (forall k :: k in old(streams.entries) ==> streams.entries[k] == old(streams.entries[k])) &&
                fresh(streams.entries[id]) &&
                streams.entries[id].localId == id && streams.entries[id].remoteId == req.remoteId &&
                streams.entries[id].priority == req.priority &&
                |old(server.pending)| < PENDING_STREAMS &&
                server.pending == old(server.pending) + [streams.entries[id]]
      ensures var req := old(connectRequests[0]);
              outcome.Confirmed? && !outcome.handedOver ==>
                var server := streamPorts[req.streamPort];
                streams.entries == old(streams.entries) &&
                |server.pending| >= PENDING_STREAMS && server.pending == old(server.pending)
      ensures forall s :: s in streamPorts.Values && (outcome.NoListener? || s != streamPorts[old(connectRequests[0]).streamPort])
                ==> s.pending == old(s.pending)
    {
      var req := connectRequests[0];
      connectRequests := connectRequests[1..];
      if req.streamPort !in streamPorts {
        sent := sent + [CreateConnectFail(req.priority, req.remoteId, NO_LISTENER)];
        return NoListener;
      }
      var listener := streamPorts[req.streamPort];
      var alloc := streams.AllocNewStreamId();
      if alloc.Thrown? {
        sent := sent + [CreateConnectFail(req.priority, req.remoteId, LIMIT_EXCEEDED)];
        return LimitReached;
      }
      var id := alloc.value;
      var accepted := HandOver(req, listener, id);
      outcome := Confirmed(id, accepted);
    }

    /** The confirm path of the dispatcher once `id` is allocated: map it to
        a new Stream, send the confirm, offer the stream to the listener and
        drop the mapping again if the listener is full. */
    method HandOver(req: ConnectRequest, listener: StreamServer, id: int) returns (accepted: bool)
      requires Valid() && id in streams.Used() && id !in streams.entries
      modifies this`sent, streams, listener
      ensures Valid() && streams.Used() == old(streams.Used())
      ensures sent == old(sent) + [CreateConnectConfirm(req.priority, req.remoteId, id)]
      ensures accepted <==> |old(listener.pending)| < PENDING_STREAMS
      ensures accepted ==>
                streams.entries.Keys == old(streams.entries.Keys) + {id} &&
                (forall k :: k in old(streams.entries) ==> streams.entries[k] == old(streams.entries[k])) &&
                fresh(streams.entries[id]) &&
                streams.entries[id].localId == id && streams.entries[id].remoteId == req.remoteId &&
                streams.entries[id].priority == req.priority &&
                listener.pending == old(listener.pending) + [streams.entries[id]]
      ensures !accepted ==> streams.entries == old(streams.entries) && listener.pending == old(listener.pending)
    {
      var stream := new Stream(id, req.remoteId, req.priority);
      streams.Put(id, stream);
      sent := sent + [CreateConnectConfirm(req.priority, req.remoteId, id)];
      accepted := listener.ExecuteStream(stream);
      if !accepted {
        streams.Remove(id);
        assert streams.entries == old(streams.entries);
      }
    }

    /** One pass of the message reader over a received message: a type-1
        message becomes a queued connect request (priority from byte 0,
        requester's id from byte 1, port from bytes 3-4); any other type is
        left alone. Short messages throw, and so does a full queue. */
    method MessageReaderStep(m: seq<Byte>) returns (r: Result<()>)
      requires Valid()
      modifies this
      ensures Valid()
      ensures |m| < 3 ==> r == Thrown(IndexOutOfBounds)
      ensures |m| >= 3 && m[2] != CONNECT_REQUEST ==> r == Ok(())
      ensures |m| >= 3 && m[2] == CONNECT_REQUEST && |m| < 5 ==> r == Thrown(IndexOutOfBounds)
      ensures |m| >= 5 && m[2] == CONNECT_REQUEST && |old(connectRequests)| == NEW_STREAM_QUEUE_DEPTH ==>
                r == Thrown(IllegalState)
      ensures |m| >= 5 && m[2] == CONNECT_REQUEST && |old(connectRequests)| < NEW_STREAM_QUEUE_DEPTH ==>
                r == Ok(()) &&
                connectRequests == old(connectRequests) + [ConnectRequest(m[0] as int, m[1] as int, Uint16(m[3], m[4]), m)]
      ensures !(|m| >= 5 && m[2] == CONNECT_REQUEST && r.Ok?) ==> connectRequests == old(connectRequests)
      ensures streamPorts == old(streamPorts) && sent == old(sent)
    {
      if |m| < 3 {
        return Thrown(IndexOutOfBounds);
      }
      if m[2] != CONNECT_REQUEST {
        return Ok(());
      }
      var port := ReadPort(m);
      if port.Thrown? {
        return Thrown(port.exc);
      }
      if |connectRequests| == NEW_STREAM_QUEUE_DEPTH {
        return Thrown(IllegalState);
      }
      connectRequests := connectRequests + [ConnectRequest(m[0] as int, m[1] as int, port.value, m)];
      r := Ok(());
    }
  }

  class StreamServer {
    const controller: StreamController
    const port: int
    /** Streams the controller has handed over and `accept` has not taken. */
    var pending: seq<Stream>

    ghost predicate Valid()
      reads this
    {
      |pending| <= PENDING_STREAMS
    }

    constructor Init(controller: StreamController, port: int)
      ensures Valid() && this.controller == controller && this.port == port && pending == []
    {
      this.controller := controller;
      this.port := port;
      pending := [];
    }

    /** `new StreamServer(controller, port)`: registers the new server on its
        port, throwing IllegalArgumentException when the port is taken. */
    static method Open(controller: StreamController, port: int) returns (r: Result<StreamServer>)
      modifies controller
      ensures r.Ok? <==> port !in old(controller.streamPorts)
      ensures r.Ok? ==> fresh(r.value) && r.value.Valid() && r.value.pending == [] &&
                        r.value.controller == controller && r.value.port == port &&
                        controller.streamPorts == old(controller.streamPorts)[port := r.value]
      ensures r.Thrown? ==> r.exc == IllegalArgument && controller.streamPorts == old(controller.streamPorts)
      ensures controller.connectRequests == old(controller.connectRequests) && controller.sent == old(controller.sent)
    {
      var server := new StreamServer.Init(controller, port);
      var ok := controller.RegisterStreamServer(port, server);
      if !ok {
        return Thrown(IllegalArgument);
      }
      r := Ok(server);
    }

    /** `executeStream`: a bounded `offer`, true and appended when fewer than
        16 streams wait, false and unchanged otherwise. */
    method ExecuteStream(stream: Stream) returns (ok: bool)
      modifies this
      ensures ok <==> |old(pending)| < PENDING_STREAMS
      ensures ok ==> pending == old(pending) + [stream]
      ensures !ok ==> pending == old(pending)
    {
      if |pending| >= PENDING_STREAMS {
        return false;
      }
      pending := pending + [stream];
      ok := true;
    }

    /** `accept` once a stream is waiting: the oldest one. */
    method Accept() returns (stream: Stream)
      requires Valid() && |pending| > 0
      modifies this
      ensures Valid()
      ensures stream == old(pending[0]) && pending == old(pending[1..])
    {
      stream := pending[0];
      pending := pending[1..];
    }

    /** `close`: unbinds the server's port, throwing IllegalArgumentException
        when the controller reports it was not bound. */
    method Close() returns (r: Result<()>)
      modifies controller
      ensures r.Ok? <==> port in old(controller.streamPorts)
      ensures r.Thrown? ==> r.exc == IllegalArgument
      ensures controller.streamPorts == old(controller.streamPorts) - {port}
      ensures controller.connectRequests == old(controller.connectRequests) && controller.sent == old(controller.sent)
    {
      var ok := controller.DeregisterStreamServer(port);
      if !ok {
        return Thrown(IllegalArgument);
      }
      r := Ok(());
    }
  }
}
