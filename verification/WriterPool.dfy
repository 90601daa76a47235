/** Writer threads of one pool: batching of pushed records and the shared statistics, over every
    interleaving of pushes, background flushes and closes. */
module WriterPool {

  /** `constants.MaxDestinationBatchBytes`. */
  const MAX_BATCH_BYTES := 1024 * 1024 * 1024

  /** A record and the source bytes it was read from (0 when the driver does not say). */
  datatype Record = Record(id: int, sourceBytes: int)

  datatype Stats = Stats(read: int, filtered: int, bytes: int)

  /** `Rolling(k)`: the thread will not commit and has withdrawn the first `k` of its three counters. */
  datatype Phase = Open | Closing | Aborting | Committed | Rolling(k: nat)

  datatype Thread = Thread(
    buffer: seq<Record>, bufferBytes: int, queue: seq<seq<Record>>, written: seq<seq<Record>>, failed: bool,
    records: int, filtered: int, bytes: int, phase: Phase, pushed: seq<Record>, kept: int)

  const IDLE := Thread([], 0, [], [], false, 0, 0, 0, Open, [], 0)

  /** Ready(kept): a flush that leaves `kept` records after filtering. */
  datatype Outcome = Ready(kept: nat) | FlattenFails | WriteFails(kept: nat)

  datatype Action =
    | Push(record: Record)
    | Flush(outcome: Outcome)
    | StartClose
    | StartAbort
    | Commit
    | FailClose
    | Rollback

  // ----- one thread's steps -----

  predicate BatchFull(batchSize: int, buffer: seq<Record>, bufferBytes: int) {
    |buffer| >= batchSize || bufferBytes >= MAX_BATCH_BYTES
  }

  function PushStep(batchSize: int, th: Thread, record: Record): Thread {
    var buffer := th.buffer + [record];
    var bufferBytes := th.bufferBytes + record.sourceBytes;
    var counted := th.(records := th.records + 1, bytes := th.bytes + record.sourceBytes, pushed := th.pushed + [record]);
    if BatchFull(batchSize, buffer, bufferBytes)
    then counted.(buffer := [], bufferBytes := 0, queue := th.queue + [buffer])
    else counted.(buffer := buffer, bufferBytes := bufferBytes)
  }

  function FlushStep(th: Thread, outcome: Outcome): Thread
    requires th.queue != []
  {
    var batch := th.queue[0];
    var next := th.(queue := th.queue[1..]);
    match outcome
    case Ready(kept) =>
      next.(written := th.written + [batch], filtered := th.filtered + |batch| - kept, kept := th.kept + kept)
    case FlattenFails => next.(failed := true)
    case WriteFails(kept) => next.(failed := true, filtered := th.filtered + |batch| - kept)
  }

  predicate Enabled(th: Thread, action: Action) {
    match action
    case Push(_) => th.phase == Open
    case Flush(o) => th.queue != [] && !th.phase.Rolling? && th.phase != Committed
    case StartClose => th.phase == Open
    case StartAbort => th.phase == Open
    case Commit => th.phase == Closing && th.queue == [] && !th.failed
    case FailClose => (th.phase == Closing || th.phase == Aborting) && th.queue == []
    case Rollback => th.phase.Rolling? && th.phase.k < 3
  }

  function Act(batchSize: int, th: Thread, action: Action): Thread
    requires Enabled(th, action)
  {
    match action
    case Push(record) => PushStep(batchSize, th, record)
    case Flush(outcome) => FlushStep(th, outcome)
    case StartClose => th.(phase := Closing, queue := if th.buffer == [] then th.queue else th.queue + [th.buffer],
                           buffer := [], bufferBytes := 0)
    case StartAbort => th.(phase := Aborting)
    case Commit => th.(phase := Committed)
    case FailClose => th.(phase := Rolling(0))
    case Rollback => th.(phase := Rolling(th.phase.k + 1))
  }

  /** What the step adds to the shared counters. */
  function StatsAct(stats: Stats, th: Thread, action: Action): Stats
    requires Enabled(th, action)
  {
    match action
    case Push(record) => stats.(read := stats.read + 1, bytes := stats.bytes + record.sourceBytes)
    case Flush(FlattenFails) => stats
    case Flush(outcome) => stats.(filtered := stats.filtered + |th.queue[0]| - outcome.kept)
    case Rollback =>
      if th.phase.k == 0 then stats.(read := stats.read - th.records)
      else if th.phase.k == 1 then stats.(filtered := stats.filtered - th.filtered)
      else stats.(bytes := stats.bytes - th.bytes)
    case _ => stats
  }

  // ----- batching -----

  function Concat(batches: seq<seq<Record>>): seq<Record> {
    if batches == [] then [] else Concat(batches[..|batches| - 1]) + batches[|batches| - 1]
  }

  function Bytes(records: seq<Record>): int {
    if records == [] then 0 else Bytes(records[..|records| - 1]) + records[|records| - 1].sourceBytes
  }

  lemma {:induction false} ConcatSplit(a: seq<seq<Record>>, b: seq<seq<Record>>)
    ensures Concat(a + b) == Concat(a) + Concat(b)
    decreases |b|
  {
    if b == [] {
      assert a + b == a;
    } else {
      var front, last := b[..|b| - 1], b[|b| - 1];
      assert (a + b)[..|a + b| - 1] == a + front;
      ConcatSplit(a, front);
      assert Concat(a + b) == Concat(a + front) + last;
      assert Concat(a) + Concat(front) + last == Concat(a) + (Concat(front) + last);
    }
  }

  lemma ConcatOne(batch: seq<Record>)
    ensures Concat([batch]) == batch
  {
    assert Concat([batch]) == Concat([]) + batch;
  }

  /** A batch is never empty, never longer than the batch size, and below the byte limit but for its
      last record. */
  predicate BatchOk(batchSize: int, batch: seq<Record>) {
    && 0 < |batch| && (|batch| <= batchSize || |batch| == 1)
    && (|batch| == 1 || Bytes(batch[..|batch| - 1]) < MAX_BATCH_BYTES)
  }

  predicate BatchesOk(batchSize: int, batches: seq<seq<Record>>) {
    forall b :: b in batches ==> BatchOk(batchSize, b)
  }

  /** All batches but the last `spare` ones reach the batch size or the byte limit. */
  predicate FullBut(batchSize: int, batches: seq<seq<Record>>, spare: nat) {
    forall k :: 0 <= k < |batches| - spare ==> |batches[k]| >= batchSize || Bytes(batches[k]) >= 1024 * 1024 * 1024
  }

  /** Until Close every batch handed over is full; Close may add one that is not. */
  function Spare(phase: Phase): nat {
    if phase == Open || phase == Aborting then 0 else 1
  }

  /** The counters describe what was pushed; the batches and the buffer hold it. */
  ghost predicate ThreadInv(batchSize: int, th: Thread) {
    && th.records == |th.pushed| && th.bytes == Bytes(th.pushed)
    && th.bufferBytes == Bytes(th.buffer)
    && (th.buffer != [] ==> !BatchFull(batchSize, th.buffer, th.bufferBytes) && BatchOk(batchSize, th.buffer))
    && BatchesOk(batchSize, th.queue) && BatchesOk(batchSize, th.written)
    && FullBut(batchSize, th.written + th.queue, Spare(th.phase))
    && (!th.failed ==> Concat(th.written + th.queue) + th.buffer == th.pushed
                       && th.filtered == |Concat(th.written)| - th.kept)
    && ((th.phase == Closing || th.phase == Committed) ==> th.buffer == [])
    && (th.phase == Committed ==> th.queue == [] && !th.failed)
    && (th.phase.Rolling? ==> th.phase.k <= 3 && th.queue == [])
  }

  lemma BytesMore(records: seq<Record>, record: Record)
    ensures Bytes(records + [record]) == Bytes(records) + record.sourceBytes
  {
    assert (records + [record])[..|records|] == records;
  }

  lemma BufferIsBatch(batchSize: int, th: Thread, record: Record)
    requires ThreadInv(batchSize, th)
    ensures BatchOk(batchSize, th.buffer + [record])
  {
    assert (th.buffer + [record])[..|th.buffer|] == th.buffer;
  }

  lemma QueuedMore(written: seq<seq<Record>>, queue: seq<seq<Record>>, batch: seq<Record>)
    ensures Concat(written + (queue + [batch])) == Concat(written + queue) + batch
  {
    assert written + (queue + [batch]) == written + queue + [batch];
    ConcatSplit(written + queue, [batch]);
    ConcatOne(batch);
  }

  lemma Appended(before: seq<Record>, buffer: seq<Record>, record: Record)
    ensures before + (buffer + [record]) == before + buffer + [record]
    ensures before + (buffer + [record]) + [] == before + (buffer + [record])
  {
  }

  lemma PushKeeps(batchSize: int, th: Thread, record: Record)
    requires ThreadInv(batchSize, th) && th.phase == Open
    ensures ThreadInv(batchSize, PushStep(batchSize, th, record))
  {
    hide BatchOk, Concat, Bytes, BatchesOk, FullBut;
    var buffer := th.buffer + [record];
    assert th.written + (th.queue + [buffer]) == th.written + th.queue + [buffer];
    BufferIsBatch(batchSize, th, record);
    BytesMore(th.buffer, record);
    BytesMore(th.pushed, record);
    QueuedMore(th.written, th.queue, buffer);
    Appended(Concat(th.written + th.queue), th.buffer, record);
    assert BatchesOk(batchSize, th.queue + [buffer]) by { BatchesMore(batchSize, th.queue, buffer); }
    if BatchFull(batchSize, buffer, Bytes(buffer)) { FullMore(batchSize, th.written + th.queue, buffer); }
    NoBytes();
  }

  lemma FullMore(batchSize: int, batches: seq<seq<Record>>, batch: seq<Record>)
    requires FullBut(batchSize, batches, 0) && BatchFull(batchSize, batch, Bytes(batch))
    ensures FullBut(batchSize, batches + [batch], 0)
  {
    hide Bytes;
  }

  lemma FullLast(batchSize: int, batches: seq<seq<Record>>, batch: seq<Record>)
    requires FullBut(batchSize, batches, 0)
    ensures FullBut(batchSize, batches, 1) && FullBut(batchSize, batches + [batch], 1)
  {
    hide Bytes;
  }

  lemma FullWithout(batchSize: int, written: seq<seq<Record>>, queue: seq<seq<Record>>, spare: nat)
    requires queue != [] && spare <= 1 && FullBut(batchSize, written + queue, spare)
    ensures FullBut(batchSize, written + queue[1..], spare)
  {
    hide Bytes;
    var all, fewer := written + queue, written + queue[1..];
    forall k | 0 <= k < |fewer| - spare
      ensures |fewer[k]| >= batchSize || Bytes(fewer[k]) >= 1024 * 1024 * 1024
    {
      assert fewer[k] == if k < |written| then all[k] else all[k + 1];
    }
  }

  lemma BatchesMore(batchSize: int, batches: seq<seq<Record>>, batch: seq<Record>)
    requires BatchesOk(batchSize, batches) && BatchOk(batchSize, batch)
    ensures BatchesOk(batchSize, batches + [batch])
  {
    hide BatchOk;
  }

  lemma NoBytes()
    ensures Bytes([]) == 0
  {
  }

  lemma FlushKeeps(batchSize: int, th: Thread, outcome: Outcome)
    requires ThreadInv(batchSize, th) && Enabled(th, Flush(outcome))
    ensures ThreadInv(batchSize, FlushStep(th, outcome))
  {
    hide BatchOk, FullBut, Bytes;
    var batch := th.queue[0];
    assert th.written + th.queue == th.written + [batch] + th.queue[1..];
    FullWithout(batchSize, th.written, th.queue, Spare(th.phase));
    ConcatSplit(th.written, [batch]);
    ConcatOne(batch);
  }

  lemma CloseKeeps(batchSize: int, th: Thread)
    requires ThreadInv(batchSize, th) && th.phase == Open
    ensures ThreadInv(batchSize, Act(batchSize, th, StartClose))
  {
    hide BatchOk, Concat, Bytes, BatchFull, FullBut;
    NoBytes();
    var next := Act(batchSize, th, StartClose);
    FullLast(batchSize, th.written + th.queue, th.buffer);
    if th.buffer != [] {
      assert th.written + (th.queue + [th.buffer]) == th.written + th.queue + [th.buffer];
      QueuedMore(th.written, th.queue, th.buffer);
    }
    assert Concat(next.written + next.queue) + [] == Concat(next.written + next.queue);
  }

  lemma ThreadStep(batchSize: int, th: Thread, action: Action)
    requires ThreadInv(batchSize, th) && Enabled(th, action)
    ensures ThreadInv(batchSize, Act(batchSize, th, action))
  {
    hide BatchesOk, Concat, Bytes, BatchFull, PushStep, FlushStep, FullBut;
    FullFewer(batchSize, th.written + th.queue);
    match action
    case Push(record) => PushKeeps(batchSize, th, record);
    case Flush(outcome) => FlushKeeps(batchSize, th, outcome);
    case StartClose => CloseKeeps(batchSize, th);
    case _ =>
  }

  lemma FullFewer(batchSize: int, batches: seq<seq<Record>>)
    ensures FullBut(batchSize, batches, 0) ==> FullBut(batchSize, batches, 1)
  {
    hide Bytes;
  }

  // ----- the pool -----

  datatype Pool = Pool(stats: Stats, threads: seq<Thread>)

  /** A step of some thread, or a new writer. */
  datatype PoolStep = NewWriter | Step(i: nat, action: Action)

  predicate PoolEnabled(pool: Pool, step: PoolStep) {
    match step
    case NewWriter => true
    case Step(i, action) => i < |pool.threads| && Enabled(pool.threads[i], action)
  }

  function PoolNext(batchSize: int, pool: Pool, step: PoolStep): Pool
    requires PoolEnabled(pool, step)
  {
    match step
    case NewWriter => pool.(threads := pool.threads + [IDLE])
    case Step(i, action) =>
      Pool(StatsAct(pool.stats, pool.threads[i], action),
           pool.threads[i := Act(batchSize, pool.threads[i], action)])
  }

  ghost predicate IsRun(batchSize: int, pools: seq<Pool>, steps: seq<PoolStep>) {
    && |pools| == |steps| + 1
    && pools[0] == Pool(Stats(0, 0, 0), [])
    && forall n :: 0 <= n < |steps| ==>
         PoolEnabled(pools[n], steps[n]) && pools[n + 1] == PoolNext(batchSize, pools[n], steps[n])
  }

  /** The part of a thread's counters that still stands in the shared statistics. */
  function Share(th: Thread): Stats {
    var k := if th.phase.Rolling? then th.phase.k else 0;
    Stats(if k > 0 then 0 else th.records, if k > 1 then 0 else th.filtered, if k > 2 then 0 else th.bytes)
  }

  function Plus(a: Stats, b: Stats): Stats {
    Stats(a.read + b.read, a.filtered + b.filtered, a.bytes + b.bytes)
  }

  function Minus(a: Stats, b: Stats): Stats {
    Stats(a.read - b.read, a.filtered - b.filtered, a.bytes - b.bytes)
  }

  function Total(threads: seq<Thread>): Stats {
    if threads == [] then Stats(0, 0, 0)
    else Plus(Total(threads[..|threads| - 1]), Share(threads[|threads| - 1]))
  }

  /** Replacing one thread moves the total by the difference of its shares. */
  lemma {:induction false} TotalReplaced(threads: seq<Thread>, i: nat, th: Thread)
    requires i < |threads|
    ensures Total(threads[i := th]) == Plus(Total(threads), Minus(Share(th), Share(threads[i])))
    decreases |threads|
  {
    hide Share;
    var front := threads[..|threads| - 1];
    if i == |threads| - 1 {
      assert threads[i := th][..|threads| - 1] == front;
    } else {
      TotalReplaced(front, i, th);
      assert threads[i := th][..|threads| - 1] == front[i := th];
    }
  }

  /** A step moves the shared statistics exactly as it moves its thread's share. */
  lemma StepMovesShare(batchSize: int, stats: Stats, th: Thread, action: Action)
    requires ThreadInv(batchSize, th) && Enabled(th, action)
    ensures StatsAct(stats, th, action) == Plus(stats, Minus(Share(Act(batchSize, th, action)), Share(th)))
  {
    hide BatchesOk, Concat, Bytes, BatchFull, BatchOk;
  }

  ghost predicate PoolInv(batchSize: int, pool: Pool) {
    && pool.stats == Total(pool.threads)
    && forall i :: 0 <= i < |pool.threads| ==> ThreadInv(batchSize, pool.threads[i])
  }

  lemma PoolStepKeeps(batchSize: int, pool: Pool, step: PoolStep)
    requires PoolInv(batchSize, pool) && PoolEnabled(pool, step)
    ensures PoolInv(batchSize, PoolNext(batchSize, pool, step))
  {
    hide ThreadInv, Act, StatsAct, Share, Enabled;
    match step
    case NewWriter =>
      assert (pool.threads + [IDLE])[..|pool.threads|] == pool.threads;
      IdleThread(batchSize);
    case Step(i, action) =>
      var th := pool.threads[i];
      ThreadStep(batchSize, th, action);
      StepMovesShare(batchSize, pool.stats, th, action);
      TotalReplaced(pool.threads, i, Act(batchSize, th, action));
  }

  lemma IdleThread(batchSize: int)
    ensures ThreadInv(batchSize, IDLE) && Share(IDLE) == Stats(0, 0, 0)
  {
    assert IDLE.written + IDLE.queue == [];
  }

  lemma {:induction false} RunInv(batchSize: int, pools: seq<Pool>, steps: seq<PoolStep>, n: nat)
    requires IsRun(batchSize, pools, steps) && n < |pools|
    ensures PoolInv(batchSize, pools[n])
    decreases n
  {
    hide PoolEnabled, PoolNext, ThreadInv;
    if n > 0 {
      RunInv(batchSize, pools, steps, n - 1);
      PoolStepKeeps(batchSize, pools[n - 1], steps[n - 1]);
      assert pools[n - 1 + 1] == PoolNext(batchSize, pools[n - 1], steps[n - 1]);
    }
  }

  predicate Finished(th: Thread) {
    th.phase == Committed || th.phase == Rolling(3)
  }

  /** Records read, records filtered out and bytes read of the committed threads. */
  function CommittedStats(threads: seq<Thread>): Stats {
    if threads == [] then Stats(0, 0, 0)
    else
      var th := threads[|threads| - 1];
      var rest := CommittedStats(threads[..|threads| - 1]);
      if th.phase == Committed
      then Plus(rest, Stats(|th.pushed|, |th.pushed| - th.kept, Bytes(th.pushed)))
      else rest
  }

  lemma {:induction false} FinishedTotal(batchSize: int, threads: seq<Thread>)
    requires forall i :: 0 <= i < |threads| ==> ThreadInv(batchSize, threads[i]) && Finished(threads[i])
    ensures Total(threads) == CommittedStats(threads)
    decreases |threads|
  {
    hide Bytes, BatchesOk;
    if threads != [] {
      var th := threads[|threads| - 1];
      FinishedTotal(batchSize, threads[..|threads| - 1]);
      assert ThreadInv(batchSize, th) && Finished(th);
      if th.phase == Committed {
        CommittedThread(batchSize, th);
      }
    }
  }

  /** A committed thread has written all it was given, in order, in batches of allowed size. */
  lemma CommittedThread(batchSize: int, th: Thread)
    requires ThreadInv(batchSize, th) && th.phase == Committed
    ensures Concat(th.written) == th.pushed && BatchesOk(batchSize, th.written) && FullBut(batchSize, th.written, 1)
    ensures th.filtered == |th.pushed| - th.kept
  {
    hide Concat, BatchesOk, Bytes, FullBut;
    assert th.written + th.queue == th.written;
    assert Concat(th.written) + [] == Concat(th.written);
  }

  lemma HandedOverFull(batchSize: int, th: Thread)
    requires ThreadInv(batchSize, th)
    ensures FullBut(batchSize, th.written + th.queue, Spare(th.phase))
  {
    hide FullBut;
  }

  /** Over every interleaving: at all times the shared statistics are the sum of what each thread has
      not withdrawn, a committed thread wrote exactly what was pushed to it, and when all threads have
      finished the statistics count committed data only. */
  lemma StatsConserved(batchSize: int, pools: seq<Pool>, steps: seq<PoolStep>, n: nat)
    requires IsRun(batchSize, pools, steps) && n < |pools|
    ensures pools[n].stats == Total(pools[n].threads)
    ensures forall i :: 0 <= i < |pools[n].threads| && pools[n].threads[i].phase == Committed ==>
              Concat(pools[n].threads[i].written) == pools[n].threads[i].pushed
              && BatchesOk(batchSize, pools[n].threads[i].written)
    ensures forall i :: 0 <= i < |pools[n].threads| ==> (
              var th := pools[n].threads[i];
              FullBut(batchSize, th.written + th.queue, if th.phase.Open? || th.phase.Aborting? then 0 else 1))
    ensures (forall i :: 0 <= i < |pools[n].threads| ==> Finished(pools[n].threads[i])) ==>
              pools[n].stats == CommittedStats(pools[n].threads)
  {
    hide ThreadInv, IsRun, Concat, BatchesOk, Total, CommittedStats, FullBut;
    RunInv(batchSize, pools, steps, n);
    var threads := pools[n].threads;
    forall i | 0 <= i < |threads| && threads[i].phase == Committed
      ensures Concat(threads[i].written) == threads[i].pushed && BatchesOk(batchSize, threads[i].written)
    {
      CommittedThread(batchSize, threads[i]);
    }
    forall i | 0 <= i < |threads| ensures FullBut(batchSize, threads[i].written + threads[i].queue, Spare(threads[i].phase)) {
      HandedOverFull(batchSize, threads[i]);
    }
    if forall i :: 0 <= i < |threads| ==> Finished(threads[i]) {
      FinishedTotal(batchSize, threads);
    }
  }

  // ----- the objects -----

  class SharedStats {
    var readCount: int
    var recordsFiltered: int
    var bytesRead: int

    ghost function View(): Stats
      reads this
    {
      Stats(readCount, recordsFiltered, bytesRead)
    }
  }

  class WriterThread {
    const stats: SharedStats
    const batchSize: int
    var buffer: seq<Record>
    var bufferBytes: int
    /** Batches handed to the flush group and not yet done; the group runs one at a time. */
    var group: seq<seq<Record>>
    /** The group's context is cancelled: a flush has failed. */
    var failed: bool
    var recordsPushed: int
    var recordsFiltered: int
    var bytesPushed: int
    ghost var written: seq<seq<Record>>
    ghost var pushed: seq<Record>
    ghost var kept: int
    ghost var phase: Phase

    ghost function View(): Thread
      reads this
    {
      Thread(buffer, bufferBytes, group, written, failed, recordsPushed, recordsFiltered, bytesPushed, phase, pushed, kept)
    }

    /** The statistics moved exactly as this thread's share did. */
    twostate predicate Balanced()
      reads this, stats
    {
      stats.View() == Plus(old(stats.View()), Minus(Share(View()), old(Share(View()))))
    }

    constructor (stats: SharedStats, batchSize: int)
      ensures this.stats == stats && this.batchSize == batchSize && View() == IDLE
    {
      this.stats, this.batchSize := stats, batchSize;
      buffer, bufferBytes, group, failed := [], 0, [], false;
      recordsPushed, recordsFiltered, bytesPushed := 0, 0, 0;
      written, pushed, kept, phase := [], [], 0, Open;
    }

    /** `Push`: refused once the caller or the flush group is cancelled. */
    method Push(cancelled: bool, record: Record) returns (ok: bool)
      requires phase == Open && ThreadInv(batchSize, View())
      modifies this, stats
      ensures ok <==> !cancelled && !old(failed)
      ensures ok ==> View() == PushStep(batchSize, old(View()), record)
      ensures ok ==> stats.View() == StatsAct(old(stats.View()), old(View()), Action.Push(record))
      ensures !ok ==> View() == old(View()) && stats.View() == old(stats.View())
      ensures ok ==> pushed == old(pushed) + [record] && recordsPushed == old(recordsPushed) + 1 && bytesPushed == old(bytesPushed) + record.sourceBytes
      ensures ok ==> stats.readCount == old(stats.readCount) + 1 && stats.bytesRead == old(stats.bytesRead) + record.sourceBytes
      ensures ok && (|old(buffer)| + 1 >= batchSize || old(bufferBytes) + record.sourceBytes >= 1024 * 1024 * 1024) ==>
                buffer == [] && group == old(group) + [old(buffer) + [record]]
      ensures ok && |old(buffer)| + 1 < batchSize && old(bufferBytes) + record.sourceBytes < 1024 * 1024 * 1024 ==>
                buffer == old(buffer) + [record] && group == old(group)
      ensures ThreadInv(batchSize, View())
    {
      hide ThreadInv, Bytes, BatchOk, BatchesOk, Concat, FullBut, Share;
      if cancelled || failed {
        return false;
      }
      PushKeeps(batchSize, View(), record);
      stats.readCount := stats.readCount + 1;
      recordsPushed := recordsPushed + 1;
      if record.sourceBytes != 0 {
        stats.bytesRead := stats.bytesRead + record.sourceBytes;
        bytesPushed := bytesPushed + record.sourceBytes;
      }
      pushed := pushed + [record];
      buffer := buffer + [record];
      bufferBytes := bufferBytes + record.sourceBytes;
      if |buffer| >= batchSize || bufferBytes >= MAX_BATCH_BYTES {
        group := group + [buffer];
        buffer, bufferBytes := [], 0;
      }
      ok := true;
    }

    /** `flush` of the oldest batch in the group. */
    method RunFlush() returns (ghost outcome: Outcome)
      requires group != [] && phase in {Open, Closing, Aborting} && ThreadInv(batchSize, View())
      modifies this, stats
      ensures View() == FlushStep(old(View()), outcome)
      ensures stats.View() == StatsAct(old(stats.View()), old(View()), Flush(outcome))
      ensures group == old(group)[1..] && failed == (old(failed) || !outcome.Ready?)
      ensures written == if outcome.Ready? then old(written) + [old(group)[0]] else old(written)
      ensures outcome.FlattenFails? ==> recordsFiltered == old(recordsFiltered) && stats.recordsFiltered == old(stats.recordsFiltered)
      ensures !outcome.FlattenFails? ==> recordsFiltered == old(recordsFiltered) + |old(group)[0]| - outcome.kept
                                         && stats.recordsFiltered == old(stats.recordsFiltered) + |old(group)[0]| - outcome.kept
      ensures ThreadInv(batchSize, View())
    {
      hide ThreadInv;
      var batch := group[0];
      var flattens: bool := *;
      if !flattens {
        outcome := FlattenFails;
        FlushKeeps(batchSize, View(), outcome);
        group, failed := group[1..], true;
        return;
      }
      var left: nat := *;
      var writes: bool := *;
      outcome := if writes then Ready(left) else WriteFails(left);
      FlushKeeps(batchSize, View(), outcome);
      group := group[1..];
      stats.recordsFiltered := stats.recordsFiltered + |batch| - left;
      recordsFiltered := recordsFiltered + |batch| - left;
      if writes {
        written, kept := written + [batch], kept + left;
      } else {
        failed := true;
      }
    }

    /** `Block`: wait for the group. */
    method Block()
      requires phase in {Open, Closing, Aborting} && ThreadInv(batchSize, View())
      modifies this, stats
      ensures group == [] && phase == old(phase) && buffer == old(buffer) && ThreadInv(batchSize, View())
      ensures pushed == old(pushed) && (old(failed) ==> failed)
      ensures Balanced()
    {
      hide ThreadInv;
      while group != []
        invariant phase == old(phase) && buffer == old(buffer) && ThreadInv(batchSize, View())
        invariant pushed == old(pushed) && (old(failed) ==> failed)
        invariant Balanced()
        decreases |group|
      {
        ghost var stood, th := stats.View(), View();
        ghost var outcome := RunFlush();
        StepMovesShare(batchSize, stood, th, Flush(outcome));
      }
    }

    /** `rollbackStats`. */
    method RollbackStats()
      requires phase == Rolling(0)
      modifies stats, `phase
      ensures View() == old(View()).(phase := Rolling(3)) && Balanced()
    {
      stats.readCount := stats.readCount - recordsPushed;
      stats.recordsFiltered := stats.recordsFiltered - recordsFiltered;
      stats.bytesRead := stats.bytesRead - bytesPushed;
      phase := Rolling(3);
    }

    /** The deferred `rollbackStats` of a Close that does not commit. */
    method Withdraw()
      requires phase in {Closing, Aborting} && group == [] && ThreadInv(batchSize, View())
      modifies stats, `phase
      ensures View() == old(View()).(phase := Rolling(3)) && ThreadInv(batchSize, View()) && Balanced()
    {
      hide ThreadInv, Share;
      RollBackFrom(batchSize, View());
      phase := Rolling(0);
      RollbackStats();
    }

    /** `Close`: on a live context flush the rest and commit; on any failure, and when cancelled,
        withdraw everything this thread has counted. */
    method Close(cancelled: bool) returns (ok: bool)
      requires phase == Open && ThreadInv(batchSize, View())
      modifies this, stats
      ensures ThreadInv(batchSize, View()) && Finished(View()) && pushed == old(pushed) && Balanced()
      ensures phase == Committed <==> ok && !cancelled
      ensures phase == Committed ==> Concat(written) == old(pushed) && BatchesOk(batchSize, written) && FullBut(batchSize, written, 1)
      ensures phase != Committed ==> stats.readCount == old(stats.readCount - recordsPushed)
                                     && stats.recordsFiltered == old(stats.recordsFiltered - recordsFiltered)
                                     && stats.bytesRead == old(stats.bytesRead - bytesPushed)
    {
      hide ThreadInv, Share, Concat, BatchesOk, FullBut;
      ghost var stood, th := stats.View(), View();
      var closes: bool := *;
      if cancelled {
        ThreadStep(batchSize, View(), StartAbort);
        PhaseShare(View(), Aborting);
        phase := Aborting;
        Block();
        Withdraw();
        Withdrawn(stood, th, View());
        return closes;
      }
      ThreadStep(batchSize, View(), StartClose);
      ClosingShare(batchSize, View());
      if buffer != [] {
        group := group + [buffer];
      }
      buffer, bufferBytes, phase := [], 0, Closing;
      Block();
      ok := !failed && closes;
      if ok {
        ThreadStep(batchSize, View(), Commit);
        PhaseShare(View(), Committed);
        phase := Committed;
        CommittedThread(batchSize, View());
      } else {
        Withdraw();
        Withdrawn(stood, th, View());
      }
    }
  }

  /** A thread that has withdrawn everything takes out what it had counted before. */
  lemma Withdrawn(stats: Stats, before: Thread, after: Thread)
    requires before.phase == Open && after.phase == Rolling(3)
    ensures Plus(stats, Minus(Share(after), Share(before))) ==
              Stats(stats.read - before.records, stats.filtered - before.filtered, stats.bytes - before.bytes)
  {
  }

  lemma PhaseShare(th: Thread, phase: Phase)
    requires !th.phase.Rolling? && (!phase.Rolling? || phase.k == 0)
    ensures Share(th.(phase := phase)) == Share(th)
  {
  }

  lemma ClosingShare(batchSize: int, th: Thread)
    requires th.phase == Open
    ensures Share(Act(batchSize, th, StartClose)) == Share(th)
  {
  }

  lemma RollBackFrom(batchSize: int, th: Thread)
    requires ThreadInv(batchSize, th) && th.phase in {Closing, Aborting} && th.queue == []
    ensures Share(th.(phase := Rolling(0))) == Share(th)
    ensures ThreadInv(batchSize, th.(phase := Rolling(3)))
  {
  }
}
