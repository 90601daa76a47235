/** The rows behind a set of data files. */
module RowCounting {
  import opened Wrappers
  import opened ObjectStore

  /** The contents of a set of files, counted with multiplicity. */
  ghost function RowsIn(c: Contents, files: set<Path>): multiset<Row> {
    if files == {} then multiset{}
    else var r :| r in files; multiset(c(r)) + RowsIn(c, files - {r})
  }

  ghost function VisiblePaths(b: Bucket): set<Path> {
    set k | k in b && k.Visible? :: k.rel
  }

  /** The makers of files that were there before a history began. */
  ghost function OlderFiles(files: set<Path>): (makers: map<Path, Option<ThreadID>>)
    ensures makers.Keys == files && forall r :: r in files ==> makers[r] == None
  {
    map r | r in files :: None
  }

  lemma NoRows(c: Contents)
    ensures RowsIn(c, {}) == multiset{}
  {
  }

  lemma {:induction false} RowsInTake(c: Contents, files: set<Path>, r: Path)
    requires r in files
    ensures RowsIn(c, files) == multiset(c(r)) + RowsIn(c, files - {r})
    decreases |files|
  {
    var q :| q in files && RowsIn(c, files) == multiset(c(q)) + RowsIn(c, files - {q});
    if q != r {
      RowsInTake(c, files - {q}, r);
      RowsInTake(c, files - {r}, q);
      assert files - {q} - {r} == files - {r} - {q};
    }
  }

  lemma {:induction false} RowsInUnion(c: Contents, files: set<Path>, more: set<Path>)
    requires files !! more
    ensures RowsIn(c, files + more) == RowsIn(c, files) + RowsIn(c, more)
    decreases |more|
  {
    if more == {} {
      assert files + more == files;
    } else {
      var r :| r in more;
      RowsInTake(c, more, r);
      RowsInTake(c, files + more, r);
      RowsInUnion(c, files, more - {r});
      assert files + more - {r} == files + (more - {r});
    }
  }
}
