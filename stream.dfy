/** Stream: the local end of one multiplexed stream, like a socket. Its
    remote id is filled in later, so all three fields are updatable. */
module Streams {

  class Stream {
    var localId: int
    var remoteId: int
    /** Relative priority of this stream's messages on the WebSocket. */
    var priority: int

    constructor (localId: int, remoteId: int, priority: int)
      ensures this.localId == localId && this.remoteId == remoteId && this.priority == priority
    {
      this.localId := localId;
      this.remoteId := remoteId;
      this.priority := priority;
    }

    method SetLocalId(localId: int)
      modifies this
      ensures this.localId == localId
      ensures remoteId == old(remoteId) && priority == old(priority)
    {
      this.localId := localId;
    }

    method SetRemoteId(remoteId: int)
      modifies this
      ensures this.remoteId == remoteId
      ensures localId == old(localId) && priority == old(priority)
    {
      this.remoteId := remoteId;
    }

    method SetPriority(priority: int)
      modifies this
      ensures this.priority == priority
      ensures localId == old(localId) && remoteId == old(remoteId)
    {
      this.priority := priority;
    }
  }
}
