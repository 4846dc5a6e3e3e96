/** Which blocks are queued for download from, or in flight to, which peer. */
module Download {
  import opened Sequences

  type NodeId = int
  type Hash = int

  const MAX_BLOCKS_IN_TRANSIT_PER_PEER := 128

  datatype QueuedBlock = QueuedBlock(hash: Hash, nTime: int, nQueuedBefore: int)

  datatype Peer = Peer(
    toDownload: seq<Hash>, nBlocksToDownload: int, inFlight: seq<QueuedBlock>, nBlocksInFlight: int,
    nLastBlockReceive: int)

  // ----- Lists and the map that inverts them --------------------------------------------------------

  /** `owner` is the exact inverse of the lists: every listed hash is listed once, by its owner. */
  ghost predicate Mirrors(lists: map<NodeId, seq<Hash>>, owner: map<Hash, NodeId>) {
    && (forall h :: h in owner ==> owner[h] in lists && h in lists[owner[h]])
    && (forall n, i :: n in lists && 0 <= i < |lists[n]| ==> lists[n][i] in owner && owner[lists[n][i]] == n)
    && (forall n :: n in lists ==> Distinct(lists[n]))
  }

  function Place(q: seq<Hash>, h: Hash): (i: nat)
    requires h in q
    ensures i < |q| && q[i] == h
  {
    if q[|q| - 1] == h then |q| - 1 else Place(q[..|q| - 1], h)
  }

  lemma WithoutHas(q: seq<Hash>, i: nat)
    requires i < |q| && Distinct(q)
    ensures Distinct(DropAt(q, i))
    ensures forall h :: h in DropAt(q, i) <==> h in q && h != q[i]
  {
    var r := DropAt(q, i);
    forall k | 0 <= k < |r| ensures r[k] == q[if k < i then k else k + 1] {
    }
    forall h | h in q && h != q[i] ensures h in r {
      var k :| 0 <= k < |q| && q[k] == h;
      assert r[if k < i then k else k - 1] == h;
    }
  }

  lemma MirrorsErase(lists: map<NodeId, seq<Hash>>, owner: map<Hash, NodeId>, h: Hash, i: nat)
    requires Mirrors(lists, owner) && h in owner && i < |lists[owner[h]]| && lists[owner[h]][i] == h
    ensures Mirrors(lists[owner[h] := DropAt(lists[owner[h]], i)], owner - {h})
  {
    var n := owner[h];
    var r := DropAt(lists[n], i);
    WithoutHas(lists[n], i);
    var lists' := lists[n := r];
    forall m, k | m in lists' && 0 <= k < |lists'[m]| ensures lists'[m][k] in owner - {h} && owner[lists'[m][k]] == m {
      if m == n {
        assert r[k] in r;
        var j :| 0 <= j < |lists[n]| && lists[n][j] == r[k];
      }
    }
  }

  lemma MirrorsAppend(lists: map<NodeId, seq<Hash>>, owner: map<Hash, NodeId>, n: NodeId, h: Hash)
    requires Mirrors(lists, owner) && n in lists && h !in owner
    ensures Mirrors(lists[n := lists[n] + [h]], owner[h := n])
  {
    var r := lists[n] + [h];
    assert r[|lists[n]|] == h;
    forall g | g in lists[n] ensures g in r {
      var i :| 0 <= i < |lists[n]| && lists[n][i] == g;
      assert r[i] == g;
    }
  }

  lemma MirrorsDrop(lists: map<NodeId, seq<Hash>>, owner: map<Hash, NodeId>, n: NodeId)
    requires Mirrors(lists, owner) && n in lists
    ensures Mirrors(lists - {n}, owner - (set h | h in lists[n]))
  {
    var gone := set h | h in lists[n];
    forall m, i | m in lists - {n} && 0 <= i < |lists[m]| ensures lists[m][i] !in gone {
      assert owner[lists[m][i]] == m;
      forall j | 0 <= j < |lists[n]| ensures lists[n][j] != lists[m][i] {
        assert owner[lists[n][j]] == n;
      }
    }
    forall h | h in owner - gone ensures owner[h] in lists - {n} {
      assert h in lists[owner[h]];
    }
  }

  lemma MirrorsNew(lists: map<NodeId, seq<Hash>>, owner: map<Hash, NodeId>, n: NodeId)
    requires Mirrors(lists, owner) && n !in lists
    ensures Mirrors(lists[n := []], owner)
  {
  }

  // ----- Peers --------------------------------------------------------------------------------------

  function Hashes(q: seq<QueuedBlock>): (s: seq<Hash>)
    ensures |s| == |q| && forall i :: 0 <= i < |q| ==> s[i] == q[i].hash
  {
    seq(|q|, i requires 0 <= i < |q| => q[i].hash)
  }

  function Queues(peers: map<NodeId, Peer>): map<NodeId, seq<Hash>> {
    map n | n in peers :: peers[n].toDownload
  }

  function Flights(peers: map<NodeId, Peer>): map<NodeId, seq<Hash>> {
    map n | n in peers :: Hashes(peers[n].inFlight)
  }

  ghost predicate Counted(peers: map<NodeId, Peer>) {
    forall n :: n in peers ==>
      peers[n].nBlocksToDownload == |peers[n].toDownload| && peers[n].nBlocksInFlight == |peers[n].inFlight|
  }

  /** No peer has more blocks in flight than allowed. */
  ghost predicate WithinLimit(peers: map<NodeId, Peer>) {
    forall n :: n in peers ==> peers[n].nBlocksInFlight <= MAX_BLOCKS_IN_TRANSIT_PER_PEER
  }

  ghost predicate Consistent(peers: map<NodeId, Peer>, queued: map<Hash, NodeId>, flying: map<Hash, NodeId>) {
    && Counted(peers) && Mirrors(Queues(peers), queued) && Mirrors(Flights(peers), flying)
    && queued.Keys !! flying.Keys
  }

  lemma PeerUpdate(peers: map<NodeId, Peer>, n: NodeId, p: Peer)
    ensures Queues(peers[n := p]) == Queues(peers)[n := p.toDownload]
    ensures Flights(peers[n := p]) == Flights(peers)[n := Hashes(p.inFlight)]
  {
  }

  lemma HashesWithout(q: seq<QueuedBlock>, i: nat)
    requires i < |q|
    ensures Hashes(DropAt(q, i)) == DropAt(Hashes(q), i)
  {
  }

  class Downloads {
    var peers: map<NodeId, Peer>
    var mapBlocksToDownload: map<Hash, NodeId>
    var mapBlocksInFlight: map<Hash, NodeId>

    /** Holds after every step of every run. */
    ghost predicate Valid()
      reads this
    {
      Consistent(peers, mapBlocksToDownload, mapBlocksInFlight)
    }

    constructor ()
      ensures Valid() && peers == map[] && mapBlocksToDownload == map[] && mapBlocksInFlight == map[]
    {
      peers, mapBlocksToDownload, mapBlocksInFlight := map[], map[], map[];
    }

    method InitializeNode(n: NodeId)
      requires Valid()
      modifies this`peers
      ensures Valid() && peers == if n in old(peers) then old(peers) else old(peers)[n := Peer([], 0, [], 0, 0)]
      ensures old(WithinLimit(peers)) ==> WithinLimit(peers)
    {
      if n in peers {
        return;
      }
      var p := Peer([], 0, [], 0, 0);
      PeerUpdate(peers, n, p);
      MirrorsNew(Queues(peers), mapBlocksToDownload, n);
      MirrorsNew(Flights(peers), mapBlocksInFlight, n);
      assert Hashes([]) == [];
      peers := peers[n := p];
    }

    method FinalizeNode(n: NodeId)
      requires Valid() && n in peers
      modifies this
      ensures Valid() && peers == old(peers) - {n}
      ensures old(WithinLimit(peers)) ==> WithinLimit(peers)
      ensures mapBlocksToDownload == old(mapBlocksToDownload) - (set h | h in old(peers)[n].toDownload)
      ensures mapBlocksInFlight == old(mapBlocksInFlight) - (set h | h in Hashes(old(peers)[n].inFlight))
    {
      hide Mirrors;
      var p := peers[n];
      MirrorsDrop(Queues(peers), mapBlocksToDownload, n);
      MirrorsDrop(Flights(peers), mapBlocksInFlight, n);
      assert Queues(peers - {n}) == Queues(peers) - {n} && Flights(peers - {n}) == Flights(peers) - {n};
      for i := 0 to |p.inFlight|
        invariant mapBlocksInFlight == old(mapBlocksInFlight) - (set h | h in Hashes(p.inFlight)[..i])
        invariant peers == old(peers) && mapBlocksToDownload == old(mapBlocksToDownload)
      {
        assert Hashes(p.inFlight)[..i + 1] == Hashes(p.inFlight)[..i] + [p.inFlight[i].hash];
        mapBlocksInFlight := mapBlocksInFlight - {p.inFlight[i].hash};
      }
      assert Hashes(p.inFlight)[..|p.inFlight|] == Hashes(p.inFlight);
      for i := 0 to |p.toDownload|
        invariant mapBlocksToDownload == old(mapBlocksToDownload) - (set h | h in p.toDownload[..i])
        invariant peers == old(peers) && mapBlocksInFlight == old(mapBlocksInFlight) - (set h | h in Hashes(p.inFlight))
      {
        assert p.toDownload[..i + 1] == p.toDownload[..i] + [p.toDownload[i]];
        mapBlocksToDownload := mapBlocksToDownload - {p.toDownload[i]};
      }
      assert p.toDownload[..|p.toDownload|] == p.toDownload;
      peers := peers - {n};
    }

    /** Takes a hash off whatever list it is on. */
    method MarkBlockAsReceived(hash: Hash, nodeFrom: NodeId, now: int)
      requires Valid()
      modifies this
      ensures Valid() && (old(WithinLimit(peers)) ==> WithinLimit(peers))
      ensures mapBlocksToDownload == old(mapBlocksToDownload) - {hash}
              && mapBlocksInFlight == old(mapBlocksInFlight) - {hash}
      ensures peers == Landed(Unqueued(old(peers), old(mapBlocksToDownload), hash), old(mapBlocksInFlight), hash,
                              nodeFrom, now)
    {
      hide Consistent;
      UnqueuedConsistent(peers, mapBlocksToDownload, mapBlocksInFlight, hash);
      if hash in mapBlocksToDownload {
        var n := mapBlocksToDownload[hash];
        var p := peers[n];
        peers := peers[n := p.(toDownload := DropAt(p.toDownload, Place(p.toDownload, hash)),
                               nBlocksToDownload := p.nBlocksToDownload - 1)];
        mapBlocksToDownload := mapBlocksToDownload - {hash};
      }
      LandedConsistent(peers, mapBlocksToDownload, mapBlocksInFlight, hash, nodeFrom, now);
      if hash in mapBlocksInFlight {
        var n := mapBlocksInFlight[hash];
        var p := peers[n];
        peers := peers[n := p.(inFlight := DropAt(p.inFlight, Place(Hashes(p.inFlight), hash)),
                               nBlocksInFlight := p.nBlocksInFlight - 1,
                               nLastBlockReceive := if n == nodeFrom then now else p.nLastBlockReceive)];
        mapBlocksInFlight := mapBlocksInFlight - {hash};
      }
      assert mapBlocksToDownload == old(mapBlocksToDownload) - {hash}
             && mapBlocksInFlight == old(mapBlocksInFlight) - {hash};
    }

    /** Queues a hash at the end of a peer's list, unless the hash is listed already. */
    method AddBlockToQueue(n: NodeId, hash: Hash) returns (ok: bool)
      requires Valid()
      modifies this
      ensures Valid() && mapBlocksInFlight == old(mapBlocksInFlight)
      ensures old(WithinLimit(peers)) ==> WithinLimit(peers)
      ensures ok <==> hash !in old(mapBlocksToDownload) && hash !in old(mapBlocksInFlight) && n in old(peers)
      ensures ok ==> n in peers && peers[n].toDownload == old(peers)[n].toDownload + [hash]
                     && peers[n].inFlight == old(peers)[n].inFlight
      ensures ok ==> mapBlocksToDownload == old(mapBlocksToDownload)[hash := n]
                     && peers == old(peers)[n := Queueing(old(peers)[n], hash)]
      ensures !ok ==> mapBlocksToDownload == old(mapBlocksToDownload) && peers == old(peers)
    {
      hide Mirrors;
      if hash in mapBlocksToDownload || hash in mapBlocksInFlight || n !in peers {
        return false;
      }
      var p := Queueing(peers[n], hash);
      MirrorsAppend(Queues(peers), mapBlocksToDownload, n, hash);
      PeerUpdate(peers, n, p);
      assert Flights(peers)[n := Hashes(p.inFlight)] == Flights(peers);
      peers := peers[n := p];
      mapBlocksToDownload := mapBlocksToDownload[hash := n];
      ok := true;
    }

    /** Moves a hash to the end of a peer's in-flight list, off any other list. The limit in flight is
        the caller's to keep: it takes room for one more. */
    method MarkBlockAsInFlight(n: NodeId, hash: Hash, now: int)
      requires Valid() && n in peers
      modifies this
      ensures Valid() && mapBlocksToDownload == old(mapBlocksToDownload) - {hash}
      ensures mapBlocksInFlight == (old(mapBlocksInFlight) - {hash})[hash := n]
      ensures old(WithinLimit(peers)) && old(peers)[n].nBlocksInFlight < MAX_BLOCKS_IN_TRANSIT_PER_PEER ==>
              WithinLimit(peers)
      ensures var rest := Received(old(peers), old(mapBlocksToDownload), old(mapBlocksInFlight), hash, -1, now);
              && n in rest && peers == rest[n := Launching(rest[n], hash, now)]
              && peers[n].inFlight == rest[n].inFlight + [QueuedBlock(hash, now, |rest[n].inFlight|)]
              && peers[n].toDownload == rest[n].toDownload
              && peers[n].nLastBlockReceive == (if rest[n].inFlight == [] then now else rest[n].nLastBlockReceive)
    {
      hide Mirrors, Landed, Unqueued;
      ReceivedRoom(peers, mapBlocksToDownload, mapBlocksInFlight, hash, now, n);
      MarkBlockAsReceived(hash, -1, now);
      var p := Launching(peers[n], hash, now);
      MirrorsAppend(Flights(peers), mapBlocksInFlight, n, hash);
      PeerUpdate(peers, n, p);
      assert Hashes(p.inFlight) == Hashes(peers[n].inFlight) + [hash];
      assert Queues(peers)[n := p.toDownload] == Queues(peers);
      peers := peers[n := p];
      mapBlocksInFlight := mapBlocksInFlight[hash := n];
    }

    /** Requests the block at the front of a peer's queue. */
    method RequestFront(n: NodeId, now: int) returns (hash: Hash)
      requires Valid() && n in peers && peers[n].toDownload != []
      modifies this
      ensures Valid() && n in peers && peers == old(peers)[n := peers[n]]
      ensures [hash] + peers[n].toDownload == old(peers)[n].toDownload
      ensures Hashes(peers[n].inFlight) == Hashes(old(peers)[n].inFlight) + [hash]
      ensures old(WithinLimit(peers)) && old(peers)[n].nBlocksInFlight < MAX_BLOCKS_IN_TRANSIT_PER_PEER ==>
              WithinLimit(peers)
    {
      hide Consistent, Launching, Received;
      hash := peers[n].toDownload[0];
      FrontReceived(peers, mapBlocksToDownload, mapBlocksInFlight, n, now);
      LaunchedFront(peers[n], hash, now);
      MarkBlockAsInFlight(n, hash, now);
    }

    /** Requests the next blocks of a peer: as many off the front of its queue as are not over the
        limit in flight, in order. */
    method RequestBlocks(n: NodeId, disconnect: bool, now: int) returns (requested: seq<Hash>)
      requires Valid() && n in peers
      modifies this
      ensures Valid() && n in peers && peers == old(peers)[n := peers[n]]
      ensures old(WithinLimit(peers)) ==> WithinLimit(peers)
      ensures var room, wait := Room(old(peers)[n]), |old(peers)[n].toDownload|;
              |requested| == if disconnect then 0 else if wait < room then wait else room
      ensures requested + peers[n].toDownload == old(peers)[n].toDownload
      ensures Hashes(peers[n].inFlight) == Hashes(old(peers)[n].inFlight) + requested
      ensures requested != [] ==> |peers[n].inFlight| <= 128
      ensures !disconnect && |peers[n].inFlight| < 128 ==> peers[n].toDownload == []
    {
      hide Consistent, WithinLimit;
      requested := [];
      CountsAt(peers, mapBlocksToDownload, mapBlocksInFlight, n);
      while !disconnect && peers[n].nBlocksToDownload != 0 && peers[n].nBlocksInFlight < MAX_BLOCKS_IN_TRANSIT_PER_PEER
        invariant Valid() && n in peers && peers == old(peers)[n := peers[n]]
        invariant requested + peers[n].toDownload == old(peers)[n].toDownload
        invariant Hashes(peers[n].inFlight) == Hashes(old(peers)[n].inFlight) + requested
        invariant disconnect ==> requested == []
        invariant requested != [] ==> |peers[n].inFlight| <= 128
        invariant peers[n].nBlocksToDownload == |peers[n].toDownload|
        invariant peers[n].nBlocksInFlight == |peers[n].inFlight| && |requested| <= Room(old(peers)[n])
        invariant old(WithinLimit(peers)) ==> WithinLimit(peers)
        decreases |peers[n].toDownload|
      {
        var hash := RequestFront(n, now);
        requested := requested + [hash];
        CountsAt(peers, mapBlocksToDownload, mapBlocksInFlight, n);
      }
    }
  }

  /** How many more blocks may be requested from a peer. */
  function Room(p: Peer): (r: int)
    ensures r >= 0
  {
    if p.nBlocksInFlight < MAX_BLOCKS_IN_TRANSIT_PER_PEER then MAX_BLOCKS_IN_TRANSIT_PER_PEER - p.nBlocksInFlight else 0
  }

  // ----- What the steps do to the peers ---------------------------------------------------------------

  function Unqueued(peers: map<NodeId, Peer>, owner: map<Hash, NodeId>, h: Hash): map<NodeId, Peer> {
    if h in owner && owner[h] in peers && h in peers[owner[h]].toDownload then
      var p := peers[owner[h]];
      peers[owner[h] := p.(toDownload := DropAt(p.toDownload, Place(p.toDownload, h)),
                           nBlocksToDownload := p.nBlocksToDownload - 1)]
    else peers
  }

  function Landed(
    peers: map<NodeId, Peer>, owner: map<Hash, NodeId>, h: Hash, nodeFrom: NodeId, now: int): map<NodeId, Peer> {
    if h in owner && owner[h] in peers && h in Hashes(peers[owner[h]].inFlight) then
      var p := peers[owner[h]];
      peers[owner[h] := p.(inFlight := DropAt(p.inFlight, Place(Hashes(p.inFlight), h)),
                           nBlocksInFlight := p.nBlocksInFlight - 1,
                           nLastBlockReceive := if owner[h] == nodeFrom then now else p.nLastBlockReceive)]
    else peers
  }

  function Received(
    peers: map<NodeId, Peer>, queued: map<Hash, NodeId>, flying: map<Hash, NodeId>, h: Hash, nodeFrom: NodeId,
    now: int): map<NodeId, Peer> {
    Landed(Unqueued(peers, queued, h), flying, h, nodeFrom, now)
  }

  function Queueing(p: Peer, h: Hash): Peer {
    p.(toDownload := p.toDownload + [h], nBlocksToDownload := p.nBlocksToDownload + 1)
  }

  function Launching(p: Peer, h: Hash, now: int): Peer {
    p.(inFlight := p.inFlight + [QueuedBlock(h, now, p.nBlocksInFlight)],
       nBlocksInFlight := p.nBlocksInFlight + 1,
       nLastBlockReceive := if p.nBlocksInFlight == 0 then now else p.nLastBlockReceive)
  }

  lemma UnqueuedConsistent(peers: map<NodeId, Peer>, queued: map<Hash, NodeId>, flying: map<Hash, NodeId>, h: Hash)
    requires Consistent(peers, queued, flying)
    ensures Consistent(Unqueued(peers, queued, h), queued - {h}, flying)
    ensures h in queued ==> queued[h] in peers && h in peers[queued[h]].toDownload
  {
    if h in queued {
      var n := queued[h];
      assert n in Queues(peers) && h in Queues(peers)[n];
      var p := peers[n];
      var i := Place(p.toDownload, h);
      MirrorsErase(Queues(peers), queued, h, i);
      var q := Unqueued(peers, queued, h)[n];
      PeerUpdate(peers, n, q);
      assert Flights(peers)[n := Hashes(q.inFlight)] == Flights(peers);
    } else {
      assert queued - {h} == queued;
    }
  }

  lemma LandedConsistent(
    peers: map<NodeId, Peer>, queued: map<Hash, NodeId>, flying: map<Hash, NodeId>, h: Hash, nodeFrom: NodeId, now: int)
    requires Consistent(peers, queued, flying)
    ensures Consistent(Landed(peers, flying, h, nodeFrom, now), queued, flying - {h})
    ensures h in flying ==> flying[h] in peers && h in Hashes(peers[flying[h]].inFlight)
  {
    if h in flying {
      var n := flying[h];
      assert n in Flights(peers) && h in Flights(peers)[n];
      var p := peers[n];
      var i := Place(Hashes(p.inFlight), h);
      MirrorsErase(Flights(peers), flying, h, i);
      HashesWithout(p.inFlight, i);
      var q := Landed(peers, flying, h, nodeFrom, now)[n];
      PeerUpdate(peers, n, q);
      assert Queues(peers)[n := q.toDownload] == Queues(peers);
    } else {
      assert flying - {h} == flying;
    }
  }

  /** Taking a hash off the lists leaves a peer with no more in flight than it had. */
  lemma ReceivedRoom(
    peers: map<NodeId, Peer>, queued: map<Hash, NodeId>, flying: map<Hash, NodeId>, h: Hash, now: int, n: NodeId)
    requires n in peers
    ensures n in Received(peers, queued, flying, h, -1, now)
    ensures Received(peers, queued, flying, h, -1, now)[n].nBlocksInFlight <= peers[n].nBlocksInFlight
  {
  }

  /** Taking the front of a peer's own queue off changes that queue only. */
  lemma FrontReceived(
    peers: map<NodeId, Peer>, queued: map<Hash, NodeId>, flying: map<Hash, NodeId>, n: NodeId, now: int)
    requires Consistent(peers, queued, flying) && n in peers && peers[n].toDownload != []
    ensures var p := peers[n];
            Received(peers, queued, flying, p.toDownload[0], -1, now)
            == peers[n := p.(toDownload := p.toDownload[1..], nBlocksToDownload := p.nBlocksToDownload - 1)]
  {
    var p := peers[n];
    var h := p.toDownload[0];
    assert n in Queues(peers) && Queues(peers)[n][0] == h;
    assert h in queued && queued[h] == n && h !in flying;
    assert Distinct(Queues(peers)[n]);
    assert Place(p.toDownload, h) == 0;
    assert DropAt(p.toDownload, 0) == p.toDownload[1..];
  }

  lemma CountsAt(peers: map<NodeId, Peer>, queued: map<Hash, NodeId>, flying: map<Hash, NodeId>, n: NodeId)
    requires Consistent(peers, queued, flying) && n in peers
    ensures peers[n].nBlocksToDownload == |peers[n].toDownload|
    ensures peers[n].nBlocksInFlight == |peers[n].inFlight|
  {
  }

  lemma LaunchedFront(p: Peer, h: Hash, now: int)
    requires p.toDownload != []
    ensures var rest := p.(toDownload := p.toDownload[1..], nBlocksToDownload := p.nBlocksToDownload - 1);
            var q := Launching(rest, h, now);
            && q.toDownload == p.toDownload[1..] && Hashes(q.inFlight) == Hashes(p.inFlight) + [h]
            && q.nBlocksToDownload == p.nBlocksToDownload - 1 && q.nBlocksInFlight == p.nBlocksInFlight + 1
  {
  }

  /** Whatever the state, a hash is queued or in flight at one peer at most, and never both. */
  lemma OnePlace(
    peers: map<NodeId, Peer>, queued: map<Hash, NodeId>, flying: map<Hash, NodeId>, h: Hash, m: NodeId, n: NodeId)
    requires Consistent(peers, queued, flying) && m in peers && n in peers
    ensures h in peers[m].toDownload && h in peers[n].toDownload ==> m == n
    ensures h in Hashes(peers[m].inFlight) && h in Hashes(peers[n].inFlight) ==> m == n
    ensures !(h in peers[m].toDownload && h in Hashes(peers[n].inFlight))
  {
    assert m in Queues(peers) && n in Queues(peers) && m in Flights(peers) && n in Flights(peers);
    forall k, q | k in peers && q == peers[k].toDownload && h in q ensures h in queued && queued[h] == k {
      assert k in Queues(peers) && Queues(peers)[k] == q;
      var i :| 0 <= i < |q| && q[i] == h;
      assert Queues(peers)[k][i] == h;
    }
    forall k, q | k in peers && q == Hashes(peers[k].inFlight) && h in q ensures h in flying && flying[h] == k {
      assert k in Flights(peers) && Flights(peers)[k] == q;
      var i :| 0 <= i < |q| && q[i] == h;
      assert Flights(peers)[k][i] == h;
    }
  }
}
