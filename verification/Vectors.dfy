/** Deletion-vector mode: positions are buffered per data file, with the partition of the writer that
    touched the file first, and shipped in batches that the server folds into one vector per file. */
module VectorQueues {
  import opened Wrappers
  import opened Upserts

  const BATCH_SIZE: nat := 100_000

  /** `pendingVector`. */
  datatype Pending = Pending(positions: seq<nat>, stamp: PartitionKey)

  /** The vector the server builds for one data file. */
  datatype Vector = Vector(positions: set<nat>, stamp: PartitionKey)

  /** How often a position is waiting in the buffer. */
  function Waiting(pending: map<Path, Pending>, l: Location): nat {
    if l.path in pending then multiset(pending[l.path].positions)[l.position] else 0
  }

  /** The positions of one request entry. */
  function Entries(path: Path, positions: seq<nat>): multiset<Location> {
    if positions == [] then multiset{}
    else Entries(path, positions[..|positions| - 1]) + multiset{Location(path, positions[|positions| - 1])}
  }

  lemma {:induction false} EntriesCount(path: Path, positions: seq<nat>, l: Location)
    ensures Entries(path, positions)[l] == if l.path == path then multiset(positions)[l.position] else 0
    decreases |positions|
  {
    if positions != [] {
      var front := positions[..|positions| - 1];
      assert positions == front + [positions[|positions| - 1]];
      EntriesCount(path, front, l);
    }
  }

  /** Everything one writer queues at a time, in order. */
  function Stamped(deletes: seq<Location>, stamp: PartitionKey): (r: seq<(PartitionKey, Location)>)
    ensures |r| == |deletes|
  {
    if deletes == [] then [] else Stamped(deletes[..|deletes| - 1], stamp) + [(stamp, deletes[|deletes| - 1])]
  }

  /** How often a place was queued, under any stamp. */
  function Times(queued: seq<(PartitionKey, Location)>, l: Location): nat {
    if queued == [] then 0
    else Times(queued[..|queued| - 1], l) + if queued[|queued| - 1].1 == l then 1 else 0
  }

  /** The partition that touched a data file first. */
  function FirstStamp(queued: seq<(PartitionKey, Location)>, path: Path): Option<PartitionKey> {
    if queued == [] then None
    else
      var last, before := queued[|queued| - 1], FirstStamp(queued[..|queued| - 1], path);
      if before.None? && last.1.path == path then Some(last.0) else before
  }

  lemma {:induction false} TimesIff(queued: seq<(PartitionKey, Location)>, l: Location)
    ensures Times(queued, l) > 0 <==> exists d :: d in queued && d.1 == l
    decreases |queued|
  {
    if queued != [] {
      var front, last := queued[..|queued| - 1], queued[|queued| - 1];
      TimesIff(front, l);
      assert queued == front + [last];
      if last.1 == l { assert last in queued; }
    }
  }

  // ----- the buffer and the server against what was queued -----

  ghost predicate InServer(server: map<Path, Vector>, l: Location) {
    l.path in server && l.position in server[l.path].positions
  }

  /** Every position queued is waiting or received, as often as it was queued; the server's vectors hold
      exactly the received ones; a file's stamp is that of its first toucher. */
  ghost predicate QueueOk(pending: map<Path, Pending>, server: map<Path, Vector>, received: multiset<Location>,
                          queued: seq<(PartitionKey, Location)>) {
    && (forall l :: received[l] + Waiting(pending, l) == Times(queued, l))
    && (forall l :: InServer(server, l) <==> received[l] > 0)
    && (forall path :: path in server ==> FirstStamp(queued, path) == Some(server[path].stamp))
    && (forall path :: path in pending && path !in server ==> FirstStamp(queued, path) == Some(pending[path].stamp))
    && (forall path :: path !in pending && path !in server ==> FirstStamp(queued, path) == None)
  }

  function Buffered(pending: map<Path, Pending>, stamp: PartitionKey, l: Location): map<Path, Pending> {
    pending[l.path := if l.path in pending then pending[l.path].(positions := pending[l.path].positions + [l.position])
                      else Pending([l.position], stamp)]
  }

  lemma BufferedOk(pending: map<Path, Pending>, server: map<Path, Vector>, received: multiset<Location>,
                   queued: seq<(PartitionKey, Location)>, stamp: PartitionKey, l: Location)
    requires QueueOk(pending, server, received, queued)
    ensures QueueOk(Buffered(pending, stamp, l), server, received, queued + [(stamp, l)])
  {
    var more, all := Buffered(pending, stamp, l), queued + [(stamp, l)];
    assert all[..|queued|] == queued;
    forall x ensures received[x] + Waiting(more, x) == Times(all, x) {
      if x.path == l.path { BufferedCount(pending, stamp, l, x); }
    }
  }

  lemma BufferedCount(pending: map<Path, Pending>, stamp: PartitionKey, l: Location, x: Location)
    requires x.path == l.path
    ensures Waiting(Buffered(pending, stamp, l), x) == Waiting(pending, x) + if x == l then 1 else 0
  {
    if l.path in pending { assert pending[l.path].positions + [l.position] == Buffered(pending, stamp, l)[l.path].positions; }
  }

  /** What the server does with one entry of a batch: the first stamp of a file stays. */
  function Folded(server: map<Path, Vector>, path: Path, entry: Pending): map<Path, Vector> {
    var added := set i | i in entry.positions;
    server[path := if path in server then server[path].(positions := server[path].positions + added) else Vector(added, entry.stamp)]
  }

  lemma FoldedOk(pending: map<Path, Pending>, server: map<Path, Vector>, received: multiset<Location>,
                 queued: seq<(PartitionKey, Location)>, path: Path)
    requires QueueOk(pending, server, received, queued) && path in pending
    ensures QueueOk(pending - {path}, Folded(server, path, pending[path]), received + Entries(path, pending[path].positions), queued)
  {
    hide Times, FirstStamp, Entries, Waiting, InServer, Folded;
    forall l
      ensures (received + Entries(path, pending[path].positions))[l] + Waiting(pending - {path}, l) == Times(queued, l)
      ensures InServer(Folded(server, path, pending[path]), l) <==> (received + Entries(path, pending[path].positions))[l] > 0
    {
      assert received[l] + Waiting(pending, l) == Times(queued, l);
      assert InServer(server, l) <==> received[l] > 0;
      FoldedAt(pending, server, received, path, l);
    }
    FoldedStamps(server, path, pending[path]);
  }

  lemma FoldedAt(pending: map<Path, Pending>, server: map<Path, Vector>, received: multiset<Location>, path: Path, l: Location)
    requires path in pending && (InServer(server, l) <==> received[l] > 0)
    ensures (received + Entries(path, pending[path].positions))[l] + Waiting(pending - {path}, l) == received[l] + Waiting(pending, l)
    ensures InServer(Folded(server, path, pending[path]), l) <==> (received + Entries(path, pending[path].positions))[l] > 0
  {
    hide Entries;
    EntriesCount(path, pending[path].positions, l);
    assert l.position in pending[path].positions <==> multiset(pending[path].positions)[l.position] > 0;
  }

  lemma FoldedStamps(server: map<Path, Vector>, path: Path, entry: Pending)
    ensures Folded(server, path, entry).Keys == server.Keys + {path}
    ensures forall p :: p in server ==> Folded(server, path, entry)[p].stamp == server[p].stamp
    ensures path !in server ==> Folded(server, path, entry)[path].stamp == entry.stamp
  {
  }

  class VectorQueue {
    var pending: map<Path, Pending>
    var count: nat
    ghost var server: map<Path, Vector>                       // the vectors built so far
    ghost var received: multiset<Location>                    // what the server was sent so far
    ghost var queued: seq<(PartitionKey, Location)>           // what was ever queued

    constructor ()
      ensures Valid() && pending == map[] && server == map[] && received == multiset{} && queued == []
    {
      pending, count, server, received, queued := map[], 0, map[], multiset{}, [];
    }

    ghost predicate Valid()
      reads this
    {
      (count == 0 <==> pending == map[]) && QueueOk(pending, server, received, queued)
    }

    /** `queueVectorDeletes`: nothing is lost between the buffer and the server. */
    method Queue(deletes: seq<Location>, stamp: PartitionKey)
      requires Valid()
      modifies this
      ensures Valid() && queued == old(queued) + Stamped(deletes, stamp)
      ensures count == if old(count) + |deletes| < 100_000 then old(count) + |deletes| else 0
      ensures old(count) + |deletes| < 100_000 ==> server == old(server) && received == old(received)
    {
      hide QueueOk, Buffered;
      for n := 0 to |deletes|
        invariant server == old(server) && received == old(received) && count == old(count)
        invariant pending == map[] <==> old(pending) == map[] && n == 0
        invariant queued == old(queued) + Stamped(deletes[..n], stamp)
        invariant QueueOk(pending, server, received, queued)
      {
        assert deletes[..n + 1][..n] == deletes[..n];
        BufferedOk(pending, server, received, queued, stamp, deletes[n]);
        BufferedIsSome(pending, stamp, deletes[n]);
        pending := Buffered(pending, stamp, deletes[n]);
        queued := queued + [(stamp, deletes[n])];
      }
      assert deletes[..|deletes|] == deletes;
      count := count + |deletes|;
      if count < BATCH_SIZE {
        return;
      }
      Send();
    }

    /** `sendPendingVectors`: one entry per file; afterwards nothing waits. */
    method Send()
      requires Valid()
      modifies this
      ensures Valid() && count == 0 && pending == map[] && queued == old(queued)
    {
      hide QueueOk, Folded;
      if count == 0 {
        return;
      }
      var left := pending;
      while left != map[]
        invariant pending == old(pending) && queued == old(queued)
        invariant QueueOk(left, server, received, queued)
        decreases left.Keys
      {
        var path :| path in left;
        FoldedOk(left, server, received, queued, path);
        server := Folded(server, path, left[path]);
        received := received + Entries(path, left[path].positions);
        left := left - {path};
      }
      pending, count := map[], 0;
    }
  }

  lemma BufferedIsSome(pending: map<Path, Pending>, stamp: PartitionKey, l: Location)
    ensures Buffered(pending, stamp, l) != map[]
  {
    assert l.path in Buffered(pending, stamp, l);
  }

  // ----- what a commit publishes -----

  /** The positions of the server's vectors, with their stamps. */
  ghost function VectorSet(server: map<Path, Vector>): set<(PartitionKey, Location)> {
    set path, i | path in server && i in server[path].positions :: (server[path].stamp, Location(path, i))
  }

  /** Once everything is sent, the vectors name exactly the queued places, one vector per data file. */
  lemma SentIsPublished(server: map<Path, Vector>, received: multiset<Location>, queued: seq<(PartitionKey, Location)>, l: Location)
    requires QueueOk(map[], server, received, queued)
    ensures Targets(VectorSet(server), l) <==> exists d :: d in queued && d.1 == l
  {
    TimesIff(queued, l);
    assert received[l] + Waiting(map[], l) == Times(queued, l);
    assert InServer(server, l) <==> received[l] > 0;
    if InServer(server, l) { assert (server[l.path].stamp, Location(l.path, l.position)) in VectorSet(server); }
  }

  /** The delete that gave a file its stamp. */
  lemma {:induction false} FirstToucher(queued: seq<(PartitionKey, Location)>, path: Path) returns (k: nat)
    requires FirstStamp(queued, path).Some?
    ensures k < |queued| && queued[k].1.path == path && Some(queued[k].0) == FirstStamp(queued, path)
    ensures forall j :: 0 <= j < k ==> queued[j].1.path != path
    decreases |queued|
  {
    var front, last := queued[..|queued| - 1], queued[|queued| - 1];
    if FirstStamp(front, path).Some? {
      k := FirstToucher(front, path);
    } else {
      k := |queued| - 1;
      Untouched(front, path);
    }
  }

  lemma {:induction false} Untouched(queued: seq<(PartitionKey, Location)>, path: Path)
    requires FirstStamp(queued, path).None?
    ensures forall j :: 0 <= j < |queued| ==> queued[j].1.path != path
    decreases |queued|
  {
    if queued != [] { Untouched(queued[..|queued| - 1], path); }
  }

  lemma {:induction false} StampedMembers(deletes: seq<Location>, p: PartitionKey)
    ensures forall d :: d in Stamped(deletes, p) <==> d.0 == p && d.1 in deletes
    decreases |deletes|
  {
    if deletes != [] {
      var front, last := deletes[..|deletes| - 1], deletes[|deletes| - 1];
      StampedMembers(front, p);
      assert deletes == front + [last];
    }
  }
}
