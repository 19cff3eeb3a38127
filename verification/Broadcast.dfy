/** Sending one message to every connected peer: `StreamsHandler::broadcast_message`. */
module Broadcast {

  type Peer = nat
  type ProtocolId = nat
  type Stream = nat
  type Streams = map<ProtocolId, Stream>
  type Table = map<Peer, Streams>

  /** The open streams after a broadcast: a peer keeps its stream for the protocol unless sending on it failed. */
  function AfterBroadcast(peers: Table, protocol: ProtocolId, delivers: Peer -> bool): Table {
    map p | p in peers :: if delivers(p) then peers[p] else peers[p] - {protocol}
  }

  /** The table when the stream for the protocol has been taken from everyone outside `left`. */
  function TakenExcept(peers: Table, protocol: ProtocolId, left: set<Peer>): Table {
    map p | p in peers :: if p in left then peers[p] else peers[p] - {protocol}
  }

  function StreamsTaken(peers: Table, protocol: ProtocolId, left: set<Peer>): map<Peer, Stream> {
    map p | p in peers && p !in left && protocol in peers[p] :: peers[p][protocol]
  }

  /** The table while the sends to `sending` have not finished and all the others have. */
  function PutBackExcept(peers: Table, protocol: ProtocolId, delivers: Peer -> bool, sending: set<Peer>): Table {
    map p | p in peers :: if p in sending || !delivers(p) then peers[p] - {protocol} else peers[p]
  }

  lemma TakeOne(peers: Table, protocol: ProtocolId, left: set<Peer>, p: Peer)
    requires p in left && p in peers
    ensures
      var rest := left - {p};
      && TakenExcept(peers, protocol, rest) == TakenExcept(peers, protocol, left)[p := peers[p] - {protocol}]
      && (protocol in peers[p] ==>
            StreamsTaken(peers, protocol, rest) == StreamsTaken(peers, protocol, left)[p := peers[p][protocol]])
      && (protocol !in peers[p] ==>
            && StreamsTaken(peers, protocol, rest) == StreamsTaken(peers, protocol, left)
            && TakenExcept(peers, protocol, rest) == TakenExcept(peers, protocol, left))
  {
    if protocol !in peers[p] {
      assert peers[p] - {protocol} == peers[p];
    }
  }

  lemma PutBackOne(peers: Table, protocol: ProtocolId, delivers: Peer -> bool, sending: set<Peer>, p: Peer)
    requires p in sending && p in peers && protocol in peers[p]
    ensures
      var older := PutBackExcept(peers, protocol, delivers, sending);
      PutBackExcept(peers, protocol, delivers, sending - {p}) ==
      if delivers(p) then older[p := Restored(older[p], protocol, peers[p][protocol])] else older
  {
    assert Restored(peers[p] - {protocol}, protocol, peers[p][protocol]) == peers[p];
  }

  function Restored(streams: Streams, protocol: ProtocolId, stream: Stream): Streams {
    streams[protocol := stream]
  }

  /** Before any send has finished, the peers without a stream for the protocol are as they were. */
  lemma NothingPutBack(peers: Table, protocol: ProtocolId, delivers: Peer -> bool)
    ensures TakenExcept(peers, protocol, {}) ==
        PutBackExcept(peers, protocol, delivers, StreamsTaken(peers, protocol, {}).Keys)
  {
    forall p | p in peers && protocol !in peers[p] ensures peers[p] - {protocol} == peers[p] {
    }
  }

  class StreamsHandler {
    var peersToStream: Table

    constructor ()
      ensures peersToStream == map[]
    {
      peersToStream := map[];
    }

    /**
      Takes every peer's stream for the protocol, sends on all of them at once, and puts back the ones
      that worked, in whatever order they finish. `delivers(p)` says whether sending to p works. That a
      peer is still in the table when its stream is put back is asserted, not assumed.
     */
    method BroadcastMessage(protocol: ProtocolId, serializes: bool, delivers: Peer -> bool) returns (ok: bool)
      modifies this
      ensures ok == serializes
      ensures !ok ==> peersToStream == old(peersToStream)
      ensures ok ==> peersToStream == AfterBroadcast(old(peersToStream), protocol, delivers)
    {
      if !serializes {
        return false;
      }
      ghost var before := peersToStream;
      var streams := TakeStreams(protocol);
      var sending := streams.Keys;
      NothingPutBack(before, protocol, delivers);
      while sending != {}
        invariant sending <= streams.Keys
        invariant peersToStream == PutBackExcept(before, protocol, delivers, sending)
        decreases |sending|
      {
        var peer :| peer in sending;
        PutBackOne(before, protocol, delivers, sending, peer);
        sending := sending - {peer};
        if delivers(peer) {
          assert peer in peersToStream;
          peersToStream := peersToStream[peer := Restored(peersToStream[peer], protocol, streams[peer])];
        }
      }
      return true;
    }

    /** Removes the streams for the protocol from the table; peers without one are passed over. */
    method TakeStreams(protocol: ProtocolId) returns (taken: map<Peer, Stream>)
      modifies this
      ensures peersToStream == TakenExcept(old(peersToStream), protocol, {})
      ensures taken == StreamsTaken(old(peersToStream), protocol, {})
    {
      ghost var before := peersToStream;
      taken := map[];
      var peers := peersToStream.Keys;
      while peers != {}
        invariant peers <= before.Keys
        invariant peersToStream == TakenExcept(before, protocol, peers)
        invariant taken == StreamsTaken(before, protocol, peers)
        decreases |peers|
      {
        var peer :| peer in peers;
        TakeOne(before, protocol, peers, peer);
        peers := peers - {peer};
        assert peersToStream[peer] == before[peer];
        if protocol in peersToStream[peer] {
          taken := taken[peer := peersToStream[peer][protocol]];
          peersToStream := peersToStream[peer := peersToStream[peer] - {protocol}];
        }
      }
    }
  }

  /** A broadcast leaves the peer set and every other protocol alone, and keeps exactly the streams that worked. */
  lemma BroadcastKeepsOthers(peers: Table, protocol: ProtocolId, delivers: Peer -> bool)
    ensures
      var after := AfterBroadcast(peers, protocol, delivers);
      && after.Keys == peers.Keys
      && (forall p, q :: p in peers && q != protocol ==> (q in after[p] <==> q in peers[p]))
      && (forall p, q :: p in peers && q != protocol && q in peers[p] ==> after[p][q] == peers[p][q])
      && (forall p :: p in peers ==> (protocol in after[p] <==> protocol in peers[p] && delivers(p)))
      && (forall p :: p in peers && protocol in after[p] ==> after[p][protocol] == peers[p][protocol])
  {
  }
}
