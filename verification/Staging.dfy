/** How each kind of store operation moves the logical table: promoting, discarding,
    cleaning up and rewriting metadata leave it alone, the finish marker publishes. */
module StagingSteps {
  import opened Wrappers
  import opened Listing
  import opened ObjectStore

  lemma ShownPathIntro(y: Layout, b: Bucket, k: Key)
    requires k in b && Shows(y, b, k)
    ensures DataPath(y, k) in ShownPaths(y, b)
  {
  }

  lemma PromotingKeepsShown(y: Layout, p: string, b0: Bucket, b: Bucket, k: Key)
    requires ValidPrefix(y, p) && FinishKey(p) in b0 && Promoting(p, b0, b)
    requires k in b0 && Shows(y, b0, k)
    ensures DataPath(y, k) in ShownPaths(y, b)
  {
    if k in b {
      if !k.Visible? {
        FinishOwned(y, Owner(y, k));
        assert !DataUnder(FinishKey(Owner(y, k)), p) by { OwnerIffUnder(y, FinishKey(Owner(y, k)), p); }
      }
      ShownPathIntro(y, b, k);
    } else {
      OwnerIffUnder(y, k, p);
      ShownPathIntro(y, b, FinalKey(k, p));
    }
  }

  lemma PromotingAddsNone(y: Layout, p: string, b0: Bucket, b: Bucket, k: Key)
    requires ValidPrefix(y, p) && FinishKey(p) in b0 && Promoting(p, b0, b)
    requires k in b && Shows(y, b, k)
    ensures DataPath(y, k) in ShownPaths(y, b0)
  {
    if k in b0 {
      ShownPathIntro(y, b0, k);
    } else {
      var s := Staging(p + k.rel);
      OwnerIffUnder(y, s, p);
      ShownPathIntro(y, b0, s);
    }
  }

  /** Promoting keeps every shown path shown: the staged copy goes only after the visible one exists. */
  lemma PromotingPaths(y: Layout, p: string, b0: Bucket, b: Bucket)
    requires ValidPrefix(y, p) && FinishKey(p) in b0 && Promoting(p, b0, b)
    ensures ShownPaths(y, b) == ShownPaths(y, b0)
  {
    forall k | k in b0 && Shows(y, b0, k) ensures DataPath(y, k) in ShownPaths(y, b) {
      PromotingKeepsShown(y, p, b0, b, k);
    }
    forall k | k in b && Shows(y, b, k) ensures DataPath(y, k) in ShownPaths(y, b0) {
      PromotingAddsNone(y, p, b0, b, k);
    }
  }

  // ----- facets of SameTable -----

  /** `b` holds the finish markers of `b0`, unchanged, except perhaps that of `p`. */
  ghost predicate FinishesKept(y: Layout, b0: Bucket, b: Bucket) {
    forall k :: IsFinish(y, k) ==> (k in b <==> k in b0) && (k in b ==> b[k] == b0[k])
  }

  lemma FinishFacets(y: Layout, b0: Bucket, b: Bucket)
    requires FinishesKept(y, b0, b) && RawMeta(b) == RawMeta(b0)
    ensures ShownMeta(y, b) == ShownMeta(y, b0)
    ensures FinishesDistinct(y, b0) ==> FinishesDistinct(y, b)
  {
    if y.PerChunk? {
      assert FinishThreads(b) == FinishThreads(b0);
    } else {
      FinishOwned(y, "");
    }
  }

  lemma ForeignFacet(y: Layout, b0: Bucket, b: Bucket)
    requires forall k: Key :: k.Staging? && !Owned(y, k) ==> (k in b <==> k in b0) && (k in b ==> b[k] == b0[k])
    ensures Foreign(y, b) == Foreign(y, b0)
  {
  }

  /** With the metadata unchanged and no finish marker or staged data added, named attempts stay visible. */
  lemma NamedFacet(y: Layout, b0: Bucket, b: Bucket)
    requires NamedIsVisible(y, b0) && RawMeta(b) == RawMeta(b0)
    requires forall k :: k in b && IsFinish(y, k) ==> k in b0 && b[k] == b0[k]
    requires forall k :: k in b && IsFinish(y, k) ==> StagedData(b, Owner(y, k)) <= StagedData(b0, Owner(y, k))
    ensures NamedIsVisible(y, b)
  {
  }

  lemma StagedShrinks(b0: Bucket, b: Bucket, p: string)
    requires forall k :: k in b && k.Staging? ==> k in b0
    ensures StagedData(b, p) <= StagedData(b0, p)
  {
  }

  /** Finished data only shrinks when no finish marker appears and staged data appears only below unfinished prefixes. */
  lemma PendingFacet(y: Layout, b0: Bucket, b: Bucket)
    requires forall k :: k in b && IsFinish(y, k) ==> k in b0 && b[k] == b0[k]
    requires forall k :: k in b && IsStagedData(y, k) && k !in b0 ==> FinishKey(Owner(y, k)) !in b
    ensures Pending(y, b) <= Pending(y, b0)
  {
    forall k | k in b && IsStagedData(y, k) && FinishKey(Owner(y, k)) in b
      ensures (b[FinishKey(Owner(y, k))], DataPath(y, k)) in Pending(y, b0)
    {
      FinishOwned(y, Owner(y, k));
    }
  }

  // ----- promoting -----

  /** Promoting touches neither finish markers nor metadata nor foreign keys. */
  lemma PromotingLeaves(y: Layout, p: string, b0: Bucket, b: Bucket)
    requires ValidPrefix(y, p) && Promoting(p, b0, b)
    ensures FinishesKept(y, b0, b) && RawMeta(b) == RawMeta(b0) && Foreign(y, b) == Foreign(y, b0)
    ensures forall k :: k in b && k.Staging? ==> k in b0
  {
    assert !DataUnder(Metadata, p);
    forall k | Owned(y, k) && IsFinish(y, k) ensures !DataUnder(k, p) { OwnerIffUnder(y, k, p); }
    assert Foreign(y, b) == Foreign(y, b0) by {
      forall k: Key | k.Staging? && !Owned(y, k) ensures !DataUnder(k, p) { OwnerIffUnder(y, k, p); }
      ForeignFacet(y, b0, b);
    }
  }

  lemma PromotingCoherent(y: Layout, c: Contents, p: string, b0: Bucket, b: Bucket)
    requires ValidPrefix(y, p) && Coherent(y, c, b0) && Promoting(p, b0, b)
    ensures Coherent(y, c, b)
  {
    forall k | k in b && IsData(y, k) && k !in b0 ensures b[k] == DataFile(c(DataPath(y, k))) {
      OwnerIffUnder(y, Staging(p + k.rel), p);
      assert DataPath(y, Staging(p + k.rel)) == k.rel;
    }
  }

  lemma PromotingSound(y: Layout, c: Contents, p: string, b0: Bucket, b: Bucket)
    requires ValidPrefix(y, p) && FinishKey(p) in b0 && Sound(y, c, b0) && Promoting(p, b0, b)
    ensures SameTable(y, c, b0, b)
  {
    PromotingPaths(y, p, b0, b);
    PromotingLeaves(y, p, b0, b);
    PromotingCoherent(y, c, p, b0, b);
    hide Promoting, Coherent, Pending, ShownMeta, FinishesDistinct, NamedIsVisible, StagedData, ShownPaths, Foreign, ValidPrefix;
    FinishFacets(y, b0, b);
    forall k | k in b && IsFinish(y, k) ensures StagedData(b, Owner(y, k)) <= StagedData(b0, Owner(y, k)) {
      StagedShrinks(b0, b, Owner(y, k));
    }
    NamedFacet(y, b0, b);
    PendingFacet(y, b0, b);
  }

  // ----- deleting -----

  lemma DeletingLeaves(y: Layout, c: Contents, p: string, b0: Bucket, b: Bucket)
    requires ValidPrefix(y, p) && Deleting(p, b0, b)
    ensures RawMeta(b) == RawMeta(b0) && Foreign(y, b) == Foreign(y, b0)
    ensures forall k :: IsFinish(y, k) && k != FinishKey(p) ==> (k in b <==> k in b0)
    ensures Coherent(y, c, b0) ==> Coherent(y, c, b)
    ensures FinishesDistinct(y, b0) ==> FinishesDistinct(y, b)
  {
    forall k | IsFinish(y, k) && k != FinishKey(p) ensures k in b <==> k in b0 { OwnerIffUnder(y, k, p); }
    assert Foreign(y, b) == Foreign(y, b0) by {
      forall k: Key | k.Staging? && !Owned(y, k) ensures !Under(k, p) { OwnerIffUnder(y, k, p); }
      ForeignFacet(y, b0, b);
    }
  }

  /** Removing keys never makes a named attempt incomplete. */
  lemma DeletingNamed(y: Layout, b0: Bucket, b: Bucket)
    requires NamedIsVisible(y, b0) && RawMeta(b) == RawMeta(b0)
    requires forall k :: k in b ==> k in b0 && b[k] == b0[k]
    ensures NamedIsVisible(y, b)
  {
    forall k | k in b && IsFinish(y, k) ensures StagedData(b, Owner(y, k)) <= StagedData(b0, Owner(y, k)) {
      StagedShrinks(b0, b, Owner(y, k));
    }
    NamedFacet(y, b0, b);
  }

  /** Shown data survives the deletion of prefix `p` when no shown data lives there. */
  lemma DeletingPaths(y: Layout, p: string, b0: Bucket, b: Bucket)
    requires ValidPrefix(y, p) && Deleting(p, b0, b)
    requires FinishKey(p) !in b0 || StagedData(b0, p) == {}
    ensures ShownPaths(y, b) == ShownPaths(y, b0)
  {
    forall k | k in b0 && Shows(y, b0, k) ensures k in b && Shows(y, b, k) {
      OwnerIffUnder(y, k, p);
      if !k.Visible? {
        assert k in StagedData(b0, Owner(y, k));
        FinishOwned(y, Owner(y, k));
        OwnerIffUnder(y, FinishKey(Owner(y, k)), p);
      }
    }
    forall k | k in b && Shows(y, b, k) ensures k in b0 && Shows(y, b0, k) { }
  }

  /** Deleting below an unfinished prefix hides nothing: what it removes was never shown. */
  lemma DiscardingSound(y: Layout, c: Contents, p: string, b0: Bucket, b: Bucket)
    requires ValidPrefix(y, p) && FinishKey(p) !in b0 && Sound(y, c, b0) && Deleting(p, b0, b)
    ensures SameTable(y, c, b0, b)
  {
    DeletingPaths(y, p, b0, b);
    DeletingLeaves(y, c, p, b0, b);
    DeletingNamed(y, b0, b);
    assert FinishesKept(y, b0, b);
    PendingFacet(y, b0, b);
    hide Deleting, Pending, Coherent, ShownMeta, FinishesDistinct, NamedIsVisible, ShownPaths, Foreign, ValidPrefix, FinishesKept;
    FinishFacets(y, b0, b);
  }

  /** metadata.json already reflects the finish marker of `p`. */
  ghost predicate Applied(p: string, b: Bucket) {
    FinishKey(p) in b && RawMeta(b).Some? && AfterFinish(RawMeta(b).value, b[FinishKey(p)]) == RawMeta(b).value
  }

  /** Once everything is promoted and named, removing the rest of the prefix changes nothing. */
  lemma CleaningSound(y: Layout, c: Contents, p: string, b0: Bucket, b: Bucket)
    requires ValidPrefix(y, p) && Sound(y, c, b0) && Deleting(p, b0, b)
    requires Applied(p, b0) && StagedData(b0, p) == {}
    ensures SameTable(y, c, b0, b)
  {
    DeletingPaths(y, p, b0, b);
    DeletingLeaves(y, c, p, b0, b);
    DeletingNamed(y, b0, b);
    PendingFacet(y, b0, b);
    hide Coherent, Pending, ShownMeta, FinishesDistinct, NamedIsVisible, ShownPaths, Foreign, ValidPrefix, StagedData, Applied;
    CleaningMeta(y, p, b0, b);
  }

  lemma CommittedAbsorbs(m: MetadataState, t: ThreadID, others: set<ThreadID>)
    requires AddCommitted(m, {t}) == m
    ensures AddCommitted(m, others + {t}) == if others == {} then m else AddCommitted(m, others)
  {
    assert m.committed + {t} == m.committed;
    assert m.committed + (others + {t}) == m.committed + others;
  }

  lemma FinishThreadsAfterDelete(p: string, b0: Bucket, b: Bucket)
    requires FinishKey(p) in b0 && IsFinish(PerChunk, FinishKey(p))
    requires forall k :: k in b ==> k in b0 && b[k] == b0[k]
    requires forall k :: IsFinish(PerChunk, k) && k != FinishKey(p) ==> (k in b <==> k in b0)
    ensures FinishThreads(b0) == FinishThreads(b) + if b0[FinishKey(p)].BackfillFinish? then {b0[FinishKey(p)].thread} else {}
  {
  }

  lemma CleaningMeta(y: Layout, p: string, b0: Bucket, b: Bucket)
    requires ValidPrefix(y, p) && Deleting(p, b0, b) && Applied(p, b0)
    requires RawMeta(b) == RawMeta(b0)
    requires forall k :: IsFinish(y, k) && k != FinishKey(p) ==> (k in b <==> k in b0)
    ensures ShownMeta(y, b) == ShownMeta(y, b0)
  {
    var m, finish := RawMeta(b).value, b0[FinishKey(p)];
    assert AfterFinish(m, finish) == m;
    if y.PerChunk? {
      FinishOwned(y, p);
      FinishThreadsAfterDelete(p, b0, b);
      var left := FinishThreads(b);
      if finish.BackfillFinish? {
        CommittedAbsorbs(m, finish.thread, left);
        assert ShownMeta(y, b0) == Some(AddCommitted(m, left + {finish.thread}));
      } else {
        assert FinishThreads(b0) == left;
      }
    } else {
      assert p == "";
    }
  }

  // ----- metadata and the commit point -----

  lemma ShownPathsOfSameData(y: Layout, b0: Bucket, b: Bucket)
    requires forall k: Key :: k != Metadata ==> (k in b <==> k in b0)
    ensures ShownPaths(y, b) == ShownPaths(y, b0)
  {
    assert forall k :: k in b0 && Shows(y, b0, k) ==> k in b && Shows(y, b, k);
    assert forall k :: k in b && Shows(y, b, k) ==> k in b0 && Shows(y, b0, k);
  }

  /** With everything of `p` promoted, naming its attempt keeps named attempts visible. */
  lemma CommitMetadataNamed(y: Layout, p: string, b0: Bucket, b: Bucket)
    requires ValidPrefix(y, p) && FinishesDistinct(y, b0) && NamedIsVisible(y, b0)
    requires FinishKey(p) in b0 && StagedData(b0, p) == {} && (y.PerChunk? ==> b0[FinishKey(p)].BackfillFinish?)
    requires b == b0[Metadata := MetadataFile(AfterFinish(OrEmpty(RawMeta(b0)), b0[FinishKey(p)]))]
    ensures NamedIsVisible(y, b) && StagedData(b, p) == {}
  {
    FinishOwned(y, p);
    assert forall q :: StagedData(b, q) == StagedData(b0, q);
    forall k | k in b && IsFinish(y, k) && Names(OrEmpty(RawMeta(b)), b[k]) ensures StagedData(b, Owner(y, k)) == {} {
      assert k == FinishKey(p) || Names(OrEmpty(RawMeta(b0)), b0[k]);
    }
  }

  lemma CommitMetadataMeta(y: Layout, p: string, b0: Bucket, b: Bucket)
    requires ValidPrefix(y, p) && FinishKey(p) in b0 && (y.PerChunk? ==> b0[FinishKey(p)].BackfillFinish?)
    requires b == b0[Metadata := MetadataFile(AfterFinish(OrEmpty(RawMeta(b0)), b0[FinishKey(p)]))]
    ensures ShownMeta(y, b) == ShownMeta(y, b0) && Applied(p, b)
  {
    var m, finish := OrEmpty(RawMeta(b0)), b0[FinishKey(p)];
    AfterFinishTwice(m, finish);
    if y.PerChunk? {
      FinishOwned(y, p);
      assert FinishThreads(b) == FinishThreads(b0);
      assert finish.thread in FinishThreads(b0);
      assert m.committed + {finish.thread} + FinishThreads(b0) == m.committed + FinishThreads(b0);
    }
  }

  lemma NothingPending(b: Bucket)
    requires StagedData(b, "") == {}
    ensures Pending(Shared, b) == {}
  {
    assert forall k :: k in b && IsStagedData(Shared, k) ==> k in StagedData(b, "");
  }

  /** Writing the rolled-forward metadata, once everything of `p` is promoted. */
  lemma CommitMetadataSound(y: Layout, c: Contents, p: string, b0: Bucket, b: Bucket)
    requires ValidPrefix(y, p) && Sound(y, c, b0) && FinishKey(p) in b0 && StagedData(b0, p) == {}
    requires y.PerChunk? ==> b0[FinishKey(p)].BackfillFinish?
    requires b == b0[Metadata := MetadataFile(AfterFinish(OrEmpty(RawMeta(b0)), b0[FinishKey(p)]))]
    ensures SameTable(y, c, b0, b) && Applied(p, b) && StagedData(b, p) == {}
  {
    ShownPathsOfSameData(y, b0, b);
    ForeignFacet(y, b0, b);
    assert Coherent(y, c, b);
    assert FinishesDistinct(y, b);
    PendingFacet(y, b0, b);
    hide Pending, ShownPaths, ShownMeta, Foreign, StagedData, NamedIsVisible, Coherent, FinishesDistinct, Applied, ValidPrefix;
    CommitMetadataNamed(y, p, b0, b);
    CommitMetadataMeta(y, p, b0, b);
    if y.Shared? { NothingPending(b); }
  }

  /** Uploads below a prefix without finish marker do not show. */
  lemma UploadingSound(y: Layout, c: Contents, p: string, files: set<Path>, b0: Bucket, b: Bucket)
    requires ValidPrefix(y, p) && Sound(y, c, b0) && FinishKey(p) !in b0 && Uploading(p, c, files, b0, b)
    ensures SameTable(y, c, b0, b)
  {
    UploadedKeys(y, p, c, files, b0, b);
    UploadedRest(y, p, c, files, b0, b);
    PendingFacet(y, b0, b);
    hide Coherent, Pending, ShownPaths, Foreign, NamedIsVisible, FinishesDistinct, ShownMeta, StagedData, FinishesKept, Uploading, ValidPrefix;
    FinishFacets(y, b0, b);
  }

  lemma UploadedKeys(y: Layout, p: string, c: Contents, files: set<Path>, b0: Bucket, b: Bucket)
    requires ValidPrefix(y, p) && FinishKey(p) !in b0 && Uploading(p, c, files, b0, b)
    ensures forall k :: k in b && k !in b0 ==> IsStagedData(y, k) && Owner(y, k) == p
    ensures FinishesKept(y, b0, b) && FinishKey(p) !in b && RawMeta(b) == RawMeta(b0)
  {
    forall k | k in b && k !in b0 ensures IsStagedData(y, k) && Owner(y, k) == p { OwnerIffUnder(y, k, p); }
    FinishOwned(y, p);
  }

  lemma UploadedRest(y: Layout, p: string, c: Contents, files: set<Path>, b0: Bucket, b: Bucket)
    requires ValidPrefix(y, p) && FinishKey(p) !in b0 && Uploading(p, c, files, b0, b) && FinishKey(p) !in b
    requires Sound(y, c, b0) && FinishesKept(y, b0, b) && RawMeta(b) == RawMeta(b0)
    requires forall k :: k in b && k !in b0 ==> IsStagedData(y, k) && Owner(y, k) == p
    ensures Coherent(y, c, b) && ShownPaths(y, b) == ShownPaths(y, b0)
    ensures Foreign(y, b) == Foreign(y, b0) && NamedIsVisible(y, b)
  {
    UploadedShown(y, p, c, files, b0, b);
    assert Coherent(y, c, b) && Foreign(y, b) == Foreign(y, b0);
    hide Coherent, Foreign, ShownPaths, Uploading, NamedIsVisible, StagedData, FinishesKept;
    forall k | k in b && IsFinish(y, k) ensures StagedData(b, Owner(y, k)) <= StagedData(b0, Owner(y, k)) {
      UploadedElsewhere(y, p, b0, b, Owner(y, k));
    }
    NamedFacet(y, b0, b);
  }

  lemma UploadedShown(y: Layout, p: string, c: Contents, files: set<Path>, b0: Bucket, b: Bucket)
    requires Uploading(p, c, files, b0, b) && FinishesKept(y, b0, b) && FinishKey(p) !in b
    requires forall k :: k in b && k !in b0 ==> IsStagedData(y, k) && Owner(y, k) == p
    ensures ShownPaths(y, b) == ShownPaths(y, b0)
  {
    forall k | k in b0 && Shows(y, b0, k) ensures Shows(y, b, k) { }
    forall k | k in b && Shows(y, b, k) ensures k in b0 && Shows(y, b0, k) {
      if !k.Visible? { FinishOwned(y, Owner(y, k)); }
    }
  }

  lemma UploadedElsewhere(y: Layout, p: string, b0: Bucket, b: Bucket, q: string)
    requires ValidPrefix(y, q) && q != p
    requires forall k :: k in b && k !in b0 ==> Owned(y, k) && Owner(y, k) == p
    ensures StagedData(b, q) <= StagedData(b0, q)
  {
    forall d | d in b && DataUnder(d, q) ensures d in b0 { OwnerIffUnder(y, d, q); }
  }

  /** The commit point: one put moves the whole attempt into the logical table. */
  lemma FinishPublishes(y: Layout, c: Contents, p: string, finish: Object, b0: Bucket, b: Bucket)
    requires ValidPrefix(y, p) && Sound(y, c, b0) && FinishKey(p) !in b0
    requires forall k :: k in b0 && Owned(y, k) ==> Under(k, p)
    requires if y.PerChunk? then finish.BackfillFinish? else finish.StreamFinish?
    requires y.PerChunk? && Names(OrEmpty(RawMeta(b0)), finish) ==> StagedData(b0, p) == {}
    requires b == b0[FinishKey(p) := finish]
    ensures Sound(y, c, b) && Foreign(y, b) == Foreign(y, b0)
    ensures View(y, b) == Publish(View(y, b0), StagedPaths(b0, p), finish)
    ensures forall e :: e in Pending(y, b) ==> e.0 == finish && e.1 in StagedPaths(b0, p)
  {
    FinishOwned(y, p);
    ForeignFacet(y, b0, b);
    hide Foreign;
    forall k | k in b0 && Owned(y, k) ensures Owner(y, k) == p && !IsFinish(y, k) { OwnerIffUnder(y, k, p); }
    FinishShows(y, p, finish, b0, b);
    FinishNamed(y, p, finish, b0, b);
    assert Coherent(y, c, b);
    assert forall k :: k in b && IsStagedData(y, k) ==> k in b0 && Owner(y, k) == p && DataPath(y, k) in StagedPaths(b0, p);
    hide Coherent, NamedIsVisible, ShownPaths, StagedPaths, StagedData, ValidPrefix, Under;
    if y.PerChunk? { FirstFinish(p, finish, b0, b); }
  }

  lemma FinishNamed(y: Layout, p: string, finish: Object, b0: Bucket, b: Bucket)
    requires ValidPrefix(y, p) && b == b0[FinishKey(p) := finish]
    requires forall k :: k in b0 ==> !IsFinish(y, k)
    requires y.PerChunk? && Names(OrEmpty(RawMeta(b0)), finish) ==> StagedData(b0, p) == {}
    ensures NamedIsVisible(y, b) && FinishesDistinct(y, b)
  {
    FinishOwned(y, p);
    assert StagedData(b, p) == StagedData(b0, p);
  }

  lemma FirstFinish(p: string, finish: Object, b0: Bucket, b: Bucket)
    requires IsFinish(PerChunk, FinishKey(p)) && finish.BackfillFinish? && b == b0[FinishKey(p) := finish]
    requires forall k :: k in b0 ==> !IsFinish(PerChunk, k)
    ensures FinishThreads(b0) == {} && FinishThreads(b) == {finish.thread}
  {
    assert finish.thread in FinishThreads(b) by { assert b[FinishKey(p)] == finish; }
  }

  lemma FinishShows(y: Layout, p: string, finish: Object, b0: Bucket, b: Bucket)
    requires ValidPrefix(y, p) && FinishKey(p) !in b0 && b == b0[FinishKey(p) := finish]
    requires forall k :: k in b0 && Owned(y, k) ==> Owner(y, k) == p
    ensures ShownPaths(y, b) == ShownPaths(y, b0) + StagedPaths(b0, p)
  {
    FinishOwned(y, p);
    forall k | k in b && Shows(y, b, k) ensures DataPath(y, k) in ShownPaths(y, b0) + StagedPaths(b0, p) {
      if k.Visible? { ShownPathIntro(y, b0, k); } else { assert DataUnder(k, p) && k in b0; }
    }
    forall k | k in b0 && Shows(y, b0, k) ensures DataPath(y, k) in ShownPaths(y, b) { ShownPathIntro(y, b, k); }
    forall k | k in b0 && DataUnder(k, p) ensures PathUnder(k, p) in ShownPaths(y, b) {
      OwnerIffUnder(y, k, p);
      ShownPathIntro(y, b, k);
    }
  }

  // ----- where recovery ends -----

  lemma SettledBySameTable(y: Layout, c: Contents, b: Bucket, b': Bucket)
    requires SameTable(y, c, b, b')
    ensures Settled(y, c, b') == Settled(y, c, b)
  {
  }

  /** With nothing staged the bucket is its own resting place. */
  lemma SettledAtRest(y: Layout, c: Contents, b: Bucket)
    requires Coherent(y, c, b) && MetadataReadable(b) && NothingStaged(y, b)
    ensures b == Settled(y, c, b)
  {
    RestingView(y, b);
    var s := Settled(y, c, b);
    hide Settled, Coherent, NothingStaged, ShownMeta, ShownPaths;
    forall k | k in b ensures k in s && s[k] == b[k] { SettledHolds(y, c, b, k); }
    forall k | k in s ensures k in b { SettledAddsNone(y, c, b, k); }
    assert b.Keys == s.Keys;
  }

  lemma SettledHolds(y: Layout, c: Contents, b: Bucket, k: Key)
    requires Coherent(y, c, b) && MetadataReadable(b) && NothingStaged(y, b) && k in b
    requires ShownMeta(y, b) == RawMeta(b) && forall r :: r in ShownPaths(y, b) <==> Visible(r) in b
    ensures k in Settled(y, c, b) && Settled(y, c, b)[k] == b[k]
  {
    hide ShownPaths, ShownMeta;
    match k
    case Visible(r) => assert r in View(y, b).paths && b[k] == DataFile(c(r));
    case Metadata =>
    case Staging(_) =>
  }

  lemma SettledAddsNone(y: Layout, c: Contents, b: Bucket, k: Key)
    requires ShownMeta(y, b) == RawMeta(b) && forall r :: r in ShownPaths(y, b) <==> Visible(r) in b
    requires k in Settled(y, c, b)
    ensures k in b
  {
    hide ShownPaths, ShownMeta;
  }

  lemma RestingView(y: Layout, b: Bucket)
    requires NothingStaged(y, b)
    ensures ShownMeta(y, b) == RawMeta(b)
    ensures forall r :: r in ShownPaths(y, b) <==> Visible(r) in b
  {
    FinishOwned(Shared, "");
    assert y.PerChunk? ==> FinishThreads(b) == {};
    forall r | Visible(r) in b ensures r in ShownPaths(y, b) { ShownPathIntro(y, b, Visible(r)); }
  }
}
