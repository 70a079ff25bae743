/** The two stores background processing reads and writes: the event log and the checkpoints. */
module Stores {
  import opened Events

  /** The event store as its background readers see it. A load at a position in `unreadable`, or of
      a stream in `brokenStreams`, fails. */
  class EventStore {
    var log: seq<StoredEvent>
    var unreadable: set<nat>
    var brokenStreams: set<string>

    constructor (log: seq<StoredEvent>, unreadable: set<nat>, brokenStreams: set<string>)
      ensures this.log == log && this.unreadable == unreadable && this.brokenStreams == brokenStreams
    {
      this.log, this.unreadable, this.brokenStreams := log, unreadable, brokenStreams;
    }

    /** Others write to the log, and some of its positions turn out unreadable. */
    method Become(log: seq<StoredEvent>, unreadable: set<nat>)
      modifies this`log, this`unreadable
      ensures this.log == log && this.unreadable == unreadable
    {
      this.log, this.unreadable := log, unreadable;
    }

    /** Every load succeeds. */
    predicate Healthy()
      reads this
    {
      unreadable == {} && brokenStreams == {}
    }

    method LoadEventsFromPosition(position: nat, limit: nat) returns (ok: bool, batch: seq<StoredEvent>)
      ensures ok <==> position !in unreadable
      ensures ok ==> batch == LoadFrom(log, position, limit)
    {
      ok, batch := position !in unreadable, LoadFrom(log, position, limit);
    }

    /** One stream's events as stored; a stream that does not exist has none. */
    method LoadRaw(streamId: string) returns (ok: bool, events: seq<StoredEvent>)
      ensures ok <==> streamId !in brokenStreams
      ensures ok ==> events == OnStream(log, streamId)
    {
      ok, events := streamId !in brokenStreams, OnStream(log, streamId);
    }
  }

  class CheckpointStore {
    var positions: map<string, nat>
    var readFails: bool
    var writeFails: bool

    constructor ()
      ensures positions == map[] && !readFails && !writeFails
    {
      positions, readFails, writeFails := map[], false, false;
    }

    /** The store starts or stops failing to write. */
    method FailWrites(writeFails: bool)
      modifies this`writeFails
      ensures this.writeFails == writeFails
    {
      this.writeFails := writeFails;
    }

    function Position(name: string): nat
      reads this
    {
      if name in positions then positions[name] else 0
    }

    method GetCheckpoint(name: string) returns (ok: bool, position: nat)
      ensures ok == !readFails && position == Position(name)
    {
      ok, position := !readFails, Position(name);
    }

    method SetCheckpoint(name: string, position: nat) returns (ok: bool)
      modifies this`positions
      ensures ok == !writeFails
      ensures positions == if ok then old(positions)[name := position] else old(positions)
    {
      ok := !writeFails;
      if ok { positions := positions[name := position]; }
    }
  }
}
