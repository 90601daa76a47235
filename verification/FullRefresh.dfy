/** A full refresh end to end: the key ranges a table was split into, read by chunk threads and committed
    through staging, deliver every source row exactly once. */
module FullRefresh {
  import opened ObjectStore
  import opened RowCounting
  import opened BackfillRuns
  import Chunking

  /** Thread `threads[i]` reads the source rows whose key is in chunk `i`. */
  ghost predicate ReadsChunks(cfg: Config, bounds: seq<Chunking.Key>, threads: seq<ThreadID>, key: Row -> Chunking.Key,
                              source: multiset<Row>) {
    && |threads| == |bounds| + 1
    && (forall i, j :: 0 <= i < j < |threads| ==> threads[i] != threads[j])
    && cfg.chunks == (set t | t in threads)
    && forall i, r :: 0 <= i < |threads| ==>
         cfg.rows(threads[i])[r] == if Chunking.InRange(Chunking.ChunkAt(bounds, i), key(r)) then source[r] else 0
  }

  /** If only one thread of the set reads a row, the row is counted as often as that thread reads it. */
  lemma {:induction false} CountedOnce(cfg: Config, chunks: set<ThreadID>, t: ThreadID, r: Row)
    requires forall u :: u in chunks && u != t ==> cfg.rows(u)[r] == 0
    ensures SourceRows(cfg, chunks)[r] == if t in chunks then cfg.rows(t)[r] else 0
    decreases |chunks|
  {
    if chunks != {} {
      var u :| u in chunks && SourceRows(cfg, chunks) == cfg.rows(u) + SourceRows(cfg, chunks - {u});
      CountedOnce(cfg, chunks - {u}, t, r);
    }
  }

  /** The chunks together hold the source, each row as often as the source does. */
  lemma ChunksHoldSource(cfg: Config, n: nat, bounds: seq<Chunking.Key>, threads: seq<ThreadID>,
                         key: Row -> Chunking.Key, source: multiset<Row>)
    requires n >= 1 && Chunking.Ascending(n, bounds) && Chunking.Full(bounds, n)
    requires ReadsChunks(cfg, bounds, threads, key, source) && forall r :: |key(r)| == n
    ensures SourceRows(cfg, cfg.chunks) == source
  {
    forall r ensures SourceRows(cfg, cfg.chunks)[r] == source[r] {
      var home := Chunking.Home(bounds, key(r));
      Chunking.FullTiles(n, bounds, key(r));
      Chunking.ExpandedIsRange(n, bounds, key(r), home);
      forall u | u in cfg.chunks && u != threads[home] ensures cfg.rows(u)[r] == 0 {
        var j :| 0 <= j < |threads| && threads[j] == u;
        Chunking.ExpandedIsRange(n, bounds, key(r), j);
        OnlyHome(n, bounds, key(r), j);
      }
      CountedOnce(cfg, cfg.chunks, threads[home], r);
    }
  }

  lemma OnlyHome(n: nat, bounds: seq<Chunking.Key>, t: Chunking.Key, j: nat)
    requires n >= 1 && |t| == n && Chunking.Ascending(n, bounds) && Chunking.Full(bounds, n)
    ensures Chunking.SelectedBy(n, bounds, t, j) ==> j == Chunking.Home(bounds, t)
  {
    Chunking.FullTiles(n, bounds, t);
  }

  /** No source row lies in a chunk that was already named when the backfill began. */
  ghost predicate NamedAreEmpty(cfg: Config, bounds: seq<Chunking.Key>, threads: seq<ThreadID>, key: Row -> Chunking.Key, source: multiset<Row>) {
    forall r :: r in source ==>
      Chunking.Home(bounds, key(r)) < |threads| && threads[Chunking.Home(bounds, key(r))] !in cfg.named
  }

  lemma NamedEmptyIff(cfg: Config, n: nat, bounds: seq<Chunking.Key>, threads: seq<ThreadID>, key: Row -> Chunking.Key, source: multiset<Row>)
    requires n >= 1 && Chunking.Ascending(n, bounds) && Chunking.Full(bounds, n) && cfg.named <= cfg.chunks
    requires ReadsChunks(cfg, bounds, threads, key, source) && forall r :: |key(r)| == n
    ensures NamedAreEmpty(cfg, bounds, threads, key, source) <==> forall t :: t in cfg.named ==> cfg.rows(t) == multiset{}
  {
    hide Chunking.SelectedBy, Chunking.InRange, Chunking.Home;
    forall r | r in source ensures cfg.rows(threads[Chunking.Home(bounds, key(r))])[r] == source[r] {
      Chunking.FullTiles(n, bounds, key(r));
      Chunking.ExpandedIsRange(n, bounds, key(r), Chunking.Home(bounds, key(r)));
    }
    if NamedAreEmpty(cfg, bounds, threads, key, source) {
      forall t | t in cfg.named ensures cfg.rows(t) == multiset{} {
        var j :| 0 <= j < |threads| && threads[j] == t;
        forall r ensures cfg.rows(t)[r] == 0 {
          Chunking.ExpandedIsRange(n, bounds, key(r), j);
          OnlyHome(n, bounds, key(r), j);
          assert cfg.rows(t)[r] != 0 ==> r in source;
        }
      }
    }
  }

  /** In every run, with any crashes, retries and interleavings: once the chunk list is empty the destination
      holds what it held before plus every source row exactly once, if and only if no source row lies in a
      chunk that metadata.json named from an earlier backfill. */
  lemma RefreshDeliversSource(cfg: Config, states: seq<Sys>, steps: seq<Step>, i: nat, n: nat,
                              bounds: seq<Chunking.Key>, threads: seq<ThreadID>, key: Row -> Chunking.Key,
                              source: multiset<Row>)
    requires Run(cfg, states, steps) && i < |states| && states[i].left == {}
    requires n >= 1 && Chunking.Ascending(n, bounds) && Chunking.Full(bounds, n)
    requires ReadsChunks(cfg, bounds, threads, key, source) && forall r :: |key(r)| == n
    ensures StagingEmpty(states[i].bucket)
    ensures RowsIn(cfg.contents, VisiblePaths(states[i].bucket)) == RowsIn(cfg.contents, cfg.base) + source
            <==> NamedAreEmpty(cfg, bounds, threads, key, source)
  {
    assert cfg.named <= cfg.chunks by { assert Init(cfg, states[0]); }
    hide Run, Inv, ReadsChunks, RowsIn, VisiblePaths, NamedAreEmpty;
    RunInv(cfg, states, steps, i);
    ExactlyOnce(cfg, states[i]);
    ExactlyOnceIff(cfg, states[i]);
    ChunksHoldSource(cfg, n, bounds, threads, key, source);
    NamedEmptyIff(cfg, n, bounds, threads, key, source);
  }
}
