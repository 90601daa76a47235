/** The writer threads of one stream. They run at the same time, look ids up in the one committed index
    while others commit to it, and close one after the other under the stream's mutex. */
module WriterThreads {
  import opened Wrappers
  import opened Upserts
  import opened ArrowWriting

  /** A thread that has taken these records and got these answers; `overtaken` are the ids of its records
      that another thread has committed since this thread first met them. */
  datatype Thread = Thread(upsert: bool, mode: UpdateType, log: seq<Entry>, found: seq<Option<Location>>, overtaken: set<ID>)

  datatype Sys = Sys(table: Table, index: map<ID, Location>, open: map<nat, Thread>)

  datatype Step =
    | Open(t: nat, upsert: bool, mode: UpdateType)
    | Take(t: nat, e: Entry)
    | CommitThread(t: nat, c: Closed)
    | Drop(t: nat)

  ghost function Ids(log: seq<Entry>): set<ID> {
    set e | e in log :: e.rec.id
  }

  /** No row of the table and no record of another thread is in the file: names are never given out twice. */
  ghost predicate NewFile(s: Sys, t: nat, path: Path) {
    && (forall r :: r in s.table.rows ==> r.loc.path != path)
    && (forall u, e :: u in s.open && u != t && e in s.open[u].log ==> e.loc.path != path)
  }

  /** A thread after another one has committed these ids. */
  ghost function Passed(th: Thread, ids: set<ID>): Thread {
    th.(overtaken := th.overtaken + ids * Ids(th.log))
  }

  /** A stream works either with equality deletes or with an index. `Take` is `ArrowWriter.ExtractRecord`,
      `CommitThread` what `ArrowWriter.Close` leaves, once the destination has committed it. */
  ghost predicate Next(equality: bool, s: Sys, step: Step, s': Sys) {
    match step
    case Open(t, upsert, mode) =>
      && t !in s.open && mode.Equality? == equality
      && s' == s.(open := s.open[t := Thread(upsert, mode, [], [], {})])
    case Take(t, e) =>
      && t in s.open && NewFile(s, t, e.loc.path)
      && s' == s.(open := s.open[t := s.open[t].(log := s.open[t].log + [e], found := s.open[t].found + [Get(s.index, e.rec.id)])])
    case CommitThread(t, c) =>
      && t in s.open && ClosedOk(c) && c.log == s.open[t].log && c.found == s.open[t].found
      && c.upsert == s.open[t].upsert && c.mode == s.open[t].mode
      && s'.table == TableAfter(s.table, c) && s'.index == (if equality then s.index else IndexAfter(s.index, c.log))
      && s'.open.Keys == s.open.Keys - {t} && forall u :: u in s'.open ==> s'.open[u] == Passed(s.open[u], Ids(c.log))
    case Drop(t) =>
      t in s.open && s' == s.(open := s.open - {t})
  }

  // ----- what every step keeps -----

  /** The first record of its id. */
  ghost predicate IsFirst(log: seq<Entry>, k: nat)
    requires k < |log|
  {
    log[k].rec.id !in Changes(log[..k])
  }

  /** An answer still holds, unless its id was overtaken: then the index says something else by now. */
  ghost predicate AnswersTrack(index: map<ID, Location>, th: Thread) {
    && |th.found| == |th.log| && th.overtaken <= Ids(th.log)
    && forall k :: 0 <= k < |th.log| && IsFirst(th.log, k) ==> AnswerTracks(index, th, k)
  }

  ghost predicate AnswerTracks(index: map<ID, Location>, th: Thread, k: nat)
    requires k < |th.log| == |th.found|
  {
    var id := th.log[k].rec.id;
    if id in th.overtaken then id in index && th.found[k] != Some(index[id]) else th.found[k] == Get(index, id)
  }

  /** The index names places where the table has or had a row of that id. */
  ghost predicate IndexStored(t: Table, index: map<ID, Location>) {
    forall id :: id in index ==> exists r :: r in t.rows && r.loc == index[id] && r.rec.id == id
  }

  ghost predicate ThreadOk(table: Table, index: map<ID, Location>, th: Thread) {
    AnswersTrack(index, th) && FilesNew(table, th.log) && AnswersStored(table, th.found, th.log)
  }

  ghost predicate FilesApart(a: seq<Entry>, b: seq<Entry>) {
    forall e, f :: e in a && f in b ==> e.loc.path != f.loc.path
  }

  ghost predicate Inv(equality: bool, s: Sys) {
    && WellFormed(s.table)
    && (forall t :: t in s.open ==> s.open[t].mode.Equality? == equality)
    && (forall t, u :: t in s.open && u in s.open && t != u ==> FilesApart(s.open[t].log, s.open[u].log))
    && (forall t :: t in s.open ==> FilesNew(s.table, s.open[t].log))
    && (!equality ==> IndexStored(s.table, s.index) && forall t :: t in s.open ==> ThreadOk(s.table, s.index, s.open[t]))
  }

  lemma IdsAreChanged(log: seq<Entry>, id: ID)
    ensures id in Changes(log) <==> id in Ids(log)
  {
    if id in Changes(log) { var e := ChangesAreLogged(log, id); }
    if e :| e in log && e.rec.id == id { LoggedIsChanged(log, e); }
  }

  /** One more record, with the answer of the moment. */
  lemma TakeOk(table: Table, index: map<ID, Location>, th: Thread, e: Entry)
    requires ThreadOk(table, index, th) && IndexStored(table, index) && forall r :: r in table.rows ==> r.loc.path != e.loc.path
    ensures ThreadOk(table, index, th.(log := th.log + [e], found := th.found + [Get(index, e.rec.id)]))
  {
    var th' := th.(log := th.log + [e], found := th.found + [Get(index, e.rec.id)]);
    TakeTracks(index, th, e);
    hide AnswersTrack, WellFormed;
    assert |th.found| == |th.log| by { LengthOf(index, th); }
    forall k | 0 <= k < |th'.found| && th'.found[k].Some? ensures exists r :: r in table.rows && r.loc == th'.found[k].value && r.rec.id == th'.log[k].rec.id {
      if k < |th.log| { assert th'.found[k] == th.found[k] && th'.log[k] == th.log[k]; }
    }
  }

  lemma LengthOf(index: map<ID, Location>, th: Thread)
    requires AnswersTrack(index, th)
    ensures |th.found| == |th.log|
  {
  }

  lemma TakeTracks(index: map<ID, Location>, th: Thread, e: Entry)
    requires AnswersTrack(index, th)
    ensures AnswersTrack(index, th.(log := th.log + [e], found := th.found + [Get(index, e.rec.id)]))
  {
    hide Changes;
    var th' := th.(log := th.log + [e], found := th.found + [Get(index, e.rec.id)]);
    assert forall x :: x in th.log ==> x in th'.log;
    forall k | 0 <= k < |th'.log| && IsFirst(th'.log, k) ensures AnswerTracks(index, th', k) {
      if k < |th.log| {
        assert th'.log[..k] == th.log[..k] && IsFirst(th.log, k);
      } else {
        assert th'.log[..k] == th.log;
        IdsAreChanged(th.log, e.rec.id);
      }
    }
  }

  /** Another thread's commit. */
  lemma PassedOk(table: Table, index: map<ID, Location>, th: Thread, c: Closed)
    requires ThreadOk(table, index, th) && IndexStored(table, index) && WellFormed(table)
    requires ClosedOk(c) && FilesNew(table, c.log) && FilesApart(c.log, th.log)
    ensures ThreadOk(TableAfter(table, c), IndexAfter(index, c.log), Passed(th, Ids(c.log)))
  {
    hide ClosedOk, WellFormed, TableAfter, AnswersTrack, FilesNew, FilesApart, AnswersStored, IndexStored, IndexAfter;
    TableAfterOk(table, c);
    LengthOf(index, th);
    PassedTracks(table, index, th, c.log);
    StillNew(table, c.log, th.log, TableAfter(table, c));
    StillStored(table, TableAfter(table, c), th.found, th.log);
  }

  lemma StillStored(table: Table, table': Table, found: seq<Option<Location>>, log: seq<Entry>)
    requires |found| == |log| && AnswersStored(table, found, log) && table.rows <= table'.rows
    ensures AnswersStored(table', found, log)
  {
    forall k | 0 <= k < |found| && found[k].Some? ensures exists r :: r in table'.rows && r.loc == found[k].value && r.rec.id == log[k].rec.id {
      var r :| r in table.rows && r.loc == found[k].value && r.rec.id == log[k].rec.id;
    }
  }

  lemma PassedTracks(table: Table, index: map<ID, Location>, th: Thread, log: seq<Entry>)
    requires |th.found| == |th.log| && AnswersTrack(index, th) && AnswersStored(table, th.found, th.log) && FilesNew(table, log)
    ensures AnswersTrack(IndexAfter(index, log), Passed(th, Ids(log)))
  {
    var index', th' := IndexAfter(index, log), Passed(th, Ids(log));
    forall k | 0 <= k < |th.log| && IsFirst(th.log, k) ensures AnswerTracks(index', th', k) {
      PassedAnswer(table, index, th, log, k);
    }
  }

  lemma PassedAnswer(table: Table, index: map<ID, Location>, th: Thread, log: seq<Entry>, k: nat)
    requires k < |th.log| == |th.found| && AnswerTracks(index, th, k) && AnswersStored(table, th.found, th.log) && FilesNew(table, log)
    ensures AnswerTracks(IndexAfter(index, log), Passed(th, Ids(log)), k)
  {
    var id := th.log[k].rec.id;
    IndexIsOverlay(index, log);
    IdsAreChanged(log, id);
    assert id in Ids(th.log) by { assert th.log[k] in th.log; }
    if id in Ids(log) {
      var e := ChangesAreLogged(log, id);
      if th.found[k].Some? { var r :| r in table.rows && r.loc == th.found[k].value; }
    }
  }

  lemma IndexStoredAfter(table: Table, index: map<ID, Location>, c: Closed)
    requires IndexStored(table, index) && ClosedOk(c) && WellFormed(table) && FilesNew(table, c.log)
    ensures IndexStored(TableAfter(table, c), IndexAfter(index, c.log))
  {
    TableAfterOk(table, c);
    hide ClosedOk, WellFormed, TableAfter;
    IndexIsOverlay(index, c.log);
    forall id | id in IndexAfter(index, c.log)
      ensures exists r :: r in TableAfter(table, c).rows && r.loc == IndexAfter(index, c.log)[id] && r.rec.id == id
    {
      if id in Changes(c.log) {
        var e := ChangesAreLogged(c.log, id);
        assert Stored(e.rec, e.loc, table.seqNo + 1) in NewRows(c.log, table.seqNo + 1);
      }
    }
  }

  lemma NextInv(equality: bool, s: Sys, step: Step, s': Sys)
    requires Inv(equality, s) && Next(equality, s, step, s')
    ensures Inv(equality, s')
  {
    match step
    case Open(t, upsert, mode) =>
      hide WellFormed, ThreadOk, IndexStored;
      NewThreadOk(s.table, s.index, upsert, mode);
    case Take(t, e) => TakeInv(equality, s, t, e, s');
    case CommitThread(t, c) =>
      hide Inv, Next;
      CommitInv(equality, s, t, c, s');
    case Drop(t) =>
      hide WellFormed, ThreadOk, IndexStored;
  }

  lemma TakeInv(equality: bool, s: Sys, t: nat, e: Entry, s': Sys)
    requires Inv(equality, s) && Next(equality, s, Take(t, e), s')
    ensures Inv(equality, s')
  {
    hide WellFormed, ThreadOk, IndexStored, Get;
    if !equality { TakeOk(s.table, s.index, s.open[t], e); }
    var log := s.open[t].log;
    assert forall x :: x in log + [e] <==> x in log || x == e;
  }

  lemma NewThreadOk(table: Table, index: map<ID, Location>, upsert: bool, mode: UpdateType)
    ensures ThreadOk(table, index, Thread(upsert, mode, [], [], {}))
  {
  }

  lemma CommitInv(equality: bool, s: Sys, t: nat, c: Closed, s': Sys)
    requires Inv(equality, s) && Next(equality, s, CommitThread(t, c), s')
    ensures Inv(equality, s')
  {
    hide WellFormed, ThreadOk, IndexStored, ClosedOk, TableAfter, IndexAfter, FilesNew, FilesApart, Ids;
    TableAfterOk(s.table, c);
    forall u | u in s'.open ensures FilesNew(s'.table, s'.open[u].log) { StillNew(s.table, c.log, s'.open[u].log, s'.table); }
    if !equality {
      IndexStoredAfter(s.table, s.index, c);
      forall u | u in s'.open ensures ThreadOk(s'.table, s'.index, s'.open[u]) { PassedOk(s.table, s.index, s.open[u], c); }
    }
  }

  lemma StillNew(table: Table, log: seq<Entry>, other: seq<Entry>, table': Table)
    requires FilesNew(table, other) && FilesApart(log, other) && table'.rows == table.rows + NewRows(log, table.seqNo + 1)
    ensures FilesNew(table', other)
  {
  }

  // ----- one commit -----

  ghost predicate Exact(s: Sys) {
    IndexExact(LiveRows(s.table), s.index)
  }

  /** The records that met an indexed id were looked up, stayed in their partition where that matters, and
      none of their ids was committed by another thread since this thread first met it. */
  ghost predicate CleanCommit(s: Sys, step: Step) {
    step.CommitThread? && step.t in s.open ==>
      var th := s.open[step.t];
      CleanHits(th.upsert, th.mode.DeletionVector?, s.index, th.log) && th.overtaken == {}
  }

  lemma {:induction false} FirstOf(log: seq<Entry>, id: ID) returns (k: nat)
    requires id in Ids(log)
    ensures k < |log| && log[k].rec.id == id && IsFirst(log, k)
    decreases |log|
  {
    var front, last := log[..|log| - 1], log[|log| - 1];
    assert log == front + [last];
    IdsAreChanged(front, id);
    if id in Ids(front) {
      k := FirstOf(front, id);
      assert front[..k] == log[..k];
    } else {
      k := |log| - 1;
    }
  }

  lemma CurrentIffNotOvertaken(index: map<ID, Location>, th: Thread)
    requires AnswersTrack(index, th)
    ensures Current(index, th.found, th.log) <==> th.overtaken == {}
  {
    hide Changes;
    if th.overtaken == {} {
      forall k | 0 <= k < |th.log| ensures CurrentAt(index, th.log[..k], th.found[k], th.log[k]) {
        if IsFirst(th.log, k) { assert AnswerTracks(index, th, k); }
      }
    } else {
      var id :| id in th.overtaken;
      var k := FirstOf(th.log, id);
      assert AnswerTracks(index, th, k);
      assert !CurrentAt(index, th.log[..k], th.found[k], th.log[k]);
    }
  }

  /** After a commit the index is exact if and only if the commit was clean. */
  lemma CommitExactIff(s: Sys, t: nat, c: Closed, s': Sys)
    requires Inv(false, s) && Exact(s) && Next(false, s, CommitThread(t, c), s')
    ensures Exact(s') <==> CleanCommit(s, CommitThread(t, c))
  {
    var th := s.open[t];
    assert ThreadOk(s.table, s.index, th);
    CurrentIffNotOvertaken(s.index, th);
    hide Inv, WellFormed, IndexExact, CleanHits, Current, ClosedOk, AnswersTrack, TableAfter, IndexAfter;
    assert WellFormed(s.table) by { TableWellFormed(s); }
    IndexedWriterExact(s.table, s.index, c);
  }

  lemma TableWellFormed(s: Sys)
    requires Inv(false, s)
    ensures WellFormed(s.table)
  {
    hide WellFormed;
  }

  // ----- runs -----

  ghost predicate Init(equality: bool, s: Sys) {
    WellFormed(s.table) && s.open == map[] && if equality then OnePerId(s.table) else Exact(s)
  }

  ghost predicate Run(equality: bool, states: seq<Sys>, steps: seq<Step>) {
    && |states| == |steps| + 1 && Init(equality, states[0])
    && forall i :: 0 <= i < |steps| ==> Next(equality, states[i], steps[i], states[i + 1])
  }

  lemma InitInv(equality: bool, s: Sys)
    requires Init(equality, s)
    ensures Inv(equality, s)
  {
    hide WellFormed;
    if !equality {
      forall id | id in s.index ensures exists r :: r in s.table.rows && r.loc == s.index[id] && r.rec.id == id {
        var r :| r in LiveRows(s.table) && r.rec.id == id && r.loc == s.index[id];
        LiveIsStored(s.table, r);
      }
    }
  }

  lemma {:induction false} RunInv(equality: bool, states: seq<Sys>, steps: seq<Step>, i: nat)
    requires Run(equality, states, steps) && i < |states|
    ensures Inv(equality, states[i])
    decreases i
  {
    hide Inv, Next, Init;
    if i == 0 {
      InitInv(equality, states[0]);
    } else {
      RunInv(equality, states, steps, i - 1);
      NextInv(equality, states[i - 1], steps[i - 1], states[i]);
    }
  }

  lemma OtherStepsExact(s: Sys, step: Step, s': Sys)
    requires Next(false, s, step, s') && !step.CommitThread?
    ensures s'.table == s.table && s'.index == s.index
  {
  }

  /** Over every interleaving of any number of threads, in any mix of the two indexed modes: the index points
      at the one live row of every id in all states so far if and only if all commits so far were clean. */
  lemma {:induction false} IndexStaysExact(states: seq<Sys>, steps: seq<Step>, i: nat)
    requires Run(false, states, steps) && i < |states|
    ensures (forall j :: 0 <= j <= i ==> Exact(states[j])) <==> forall j :: 0 <= j < i ==> CleanCommit(states[j], steps[j])
    decreases i
  {
    hide Next, Inv, Exact, CleanCommit;
    if i > 0 {
      IndexStaysExact(states, steps, i - 1);
      RunInv(false, states, steps, i - 1);
      ExactStep(states[i - 1], steps[i - 1], states[i]);
    } else {
      StartsExactly(states[0]);
    }
  }

  lemma StartsExactly(s: Sys)
    requires Init(false, s)
    ensures Exact(s)
  {
    hide IndexExact, WellFormed;
  }

  lemma ExactStep(s: Sys, step: Step, s': Sys)
    requires Inv(false, s) && Next(false, s, step, s')
    ensures Exact(s) ==> (Exact(s') <==> CleanCommit(s, step))
  {
    hide Next, Inv, IndexExact, CleanHits;
    if step.CommitThread? {
      hide Exact, CleanCommit;
      if Exact(s) { CommitExactIff(s, step.t, step.c, s'); }
    } else {
      OtherStepsExact(s, step, s');
    }
  }

  // ----- threads that touch disjoint ids -----

  /** A thread takes no id that another open thread has taken. */
  ghost predicate Apart(s: Sys, step: Step) {
    step.Take? ==> forall u :: u in s.open && u != step.t ==> step.e.rec.id !in Ids(s.open[u].log)
  }

  ghost predicate IdsApart(s: Sys) {
    && (forall t :: t in s.open ==> s.open[t].overtaken == {})
    && (forall t, u :: t in s.open && u in s.open && t != u ==> Ids(s.open[t].log) !! Ids(s.open[u].log))
  }

  lemma ApartStep(s: Sys, step: Step, s': Sys)
    requires Next(false, s, step, s') && Apart(s, step) && IdsApart(s)
    ensures IdsApart(s')
  {
    hide ClosedOk, TableAfter, IndexAfter, NewFile;
    if step.Take? {
      assert Ids(s'.open[step.t].log) == Ids(s.open[step.t].log) + {step.e.rec.id} by {
        assert forall e :: e in s'.open[step.t].log <==> e in s.open[step.t].log || e == step.e;
      }
    }
    hide Ids;
  }

  lemma {:induction false} ApartRun(states: seq<Sys>, steps: seq<Step>, i: nat)
    requires Run(false, states, steps) && i < |states| && forall j :: 0 <= j < |steps| ==> Apart(states[j], steps[j])
    ensures IdsApart(states[i])
    decreases i
  {
    hide Next, Apart;
    if i > 0 {
      hide IdsApart;
      ApartRun(states, steps, i - 1);
      ApartStep(states[i - 1], steps[i - 1], states[i]);
    }
  }

  /** Threads that run at the same time and touch disjoint ids keep the index exact if and only if each of
      them, on its own, looks up what it must and stays in the partition where that matters. */
  lemma DisjointThreads(states: seq<Sys>, steps: seq<Step>, i: nat)
    requires Run(false, states, steps) && i < |states| && forall j :: 0 <= j < |steps| ==> Apart(states[j], steps[j])
    ensures (forall j :: 0 <= j <= i ==> Exact(states[j])) <==>
      forall j :: 0 <= j < i && steps[j].CommitThread? && steps[j].t in states[j].open ==>
        CleanHits(states[j].open[steps[j].t].upsert, states[j].open[steps[j].t].mode.DeletionVector?, states[j].index, states[j].open[steps[j].t].log)
  {
    hide Next, Apart, Exact, CleanHits, Init;
    IndexStaysExact(states, steps, i);
    forall j | 0 <= j < i ensures IdsApart(states[j]) { ApartRun(states, steps, j); }
  }

  // ----- equality deletes -----

  /** Over every interleaving of threads with equality deletes no partition ever has two live rows of one id,
      also when two threads write the same id. */
  lemma {:induction false} EqualityThreads(states: seq<Sys>, steps: seq<Step>, i: nat)
    requires Run(true, states, steps) && i < |states|
    requires forall j :: 0 <= j < |steps| && steps[j].CommitThread? ==> steps[j].c.upsert && forall e :: e in steps[j].c.log ==> e.rec.op in {C, U, D, I}
    ensures OnePerId(states[i].table)
    decreases i
  {
    hide OnePerId, Inv, Next;
    if i > 0 {
      EqualityThreads(states, steps, i - 1);
      RunInv(true, states, steps, i - 1);
      EqualityStep(states[i - 1], steps[i - 1], states[i]);
    }
  }

  lemma EqualityStep(s: Sys, step: Step, s': Sys)
    requires Inv(true, s) && Next(true, s, step, s') && OnePerId(s.table)
    requires step.CommitThread? ==> step.c.upsert && forall e :: e in step.c.log ==> e.rec.op in {C, U, D, I}
    ensures OnePerId(s'.table)
  {
    hide OnePerId, Inv, ClosedOk, TableAfter;
    if step.CommitThread? { EqualityCommitWins(s, step.t, step.c); }
  }

  lemma EqualityCommitWins(s: Sys, t: nat, c: Closed)
    requires Inv(true, s) && t in s.open && ClosedOk(c) && c.log == s.open[t].log && c.mode == s.open[t].mode && c.upsert
    requires OnePerId(s.table) && forall e :: e in c.log ==> e.rec.op in {C, U, D, I}
    ensures OnePerId(TableAfter(s.table, c))
  {
    hide OnePerId, WellFormed, ClosedOk, TableAfter, Newest, Live;
    EqualityWriterWins(s.table, c);
  }
}
