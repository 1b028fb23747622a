/** Restarting the daemon: the import counters, which are not stored, are counted anew from the queue. */
module Restart {
  import opened Common
  import opened Queue
  import opened Counting
  import opened ImportCounters
  import opened Store

  /** Only entries of running batches are looked at. */
  predicate InRunningBatch(s: State, i: InstanceId) {
    i in s.entries && s.entries[i].batch in s.batches && s.batches[s.entries[i].batch].status == Started
  }

  /** The entries among `done` that the recount adds to the counter a query stands for. */
  ghost function Counted(s: State, done: set<InstanceId>, q: Query): set<InstanceId> {
    set i | i in done && InRunningBatch(s, i) && Selects(q, i, s.entries[i])
  }

  ghost predicate Recounted(s: State, done: set<InstanceId>, source: map<string, int>, target: map<string, int>, batch: map<string, int>) {
    && (forall k :: Get(source, k) == |Counted(s, done, FromSource(k))|)
    && (forall k :: Get(target, k) == |Counted(s, done, ToTarget(k))|)
    && (forall k :: Get(batch, k) == |Counted(s, done, Syncing(k))|)
  }

  lemma OneMoreCounted(s: State, done: set<InstanceId>, i: InstanceId, q: Query)
    requires i !in done && i in s.entries
    ensures |Counted(s, done + {i}, q)| == |Counted(s, done, q)| + Weight(InRunningBatch(s, i) && Selects(q, i, s.entries[i]))
  {
    hide Selects, InRunningBatch;
    var before := Counted(s, done, q);
    assert Counted(s, done + {i}, q) == if InRunningBatch(s, i) && Selects(q, i, s.entries[i]) then before + {i} else before;
  }

  lemma RecountedOneMore(s: State, done: set<InstanceId>, i: InstanceId,
                         source: map<string, int>, target: map<string, int>, batch: map<string, int>)
    requires Recounted(s, done, source, target, batch) && i !in done && i in s.entries
    ensures var e, counts := s.entries[i], InRunningBatch(s, i);
            Recounted(s, done + {i},
                      if counts && e.IsImporting() then Record(source, e.source) else source,
                      if counts && e.IsImporting() then Record(target, e.target) else target,
                      if counts && e.status == BackgroundImport then Record(batch, e.batch) else batch)
  {
    hide InRunningBatch, Counted;
    forall k
      ensures |Counted(s, done + {i}, FromSource(k))| == |Counted(s, done, FromSource(k))| + Weight(InRunningBatch(s, i) && Selects(FromSource(k), i, s.entries[i]))
      ensures |Counted(s, done + {i}, ToTarget(k))| == |Counted(s, done, ToTarget(k))| + Weight(InRunningBatch(s, i) && Selects(ToTarget(k), i, s.entries[i]))
      ensures |Counted(s, done + {i}, Syncing(k))| == |Counted(s, done, Syncing(k))| + Weight(InRunningBatch(s, i) && Selects(Syncing(k), i, s.entries[i]))
    {
      OneMoreCounted(s, done, i, FromSource(k));
      OneMoreCounted(s, done, i, ToTarget(k));
      OneMoreCounted(s, done, i, Syncing(k));
    }
  }

  /** Fills the three import caches from the queue. */
  method InitImportCaches(db: Database)
    requires db.Valid()
    modifies db.sourceImports, db.targetImports, db.batchImports
    ensures var s := old(db.State());
            Recounted(s, s.entries.Keys, db.sourceImports.cache, db.targetImports.cache, db.batchImports.cache)
  {
    hide Recounted;
    ghost var s := db.State();
    var source, target, batch: map<string, int> := map[], map[], map[];
    var todo := db.entries.Keys;
    ghost var done: set<InstanceId> := {};
    NothingRecounted(s);
    while todo != {}
      invariant todo !! done && todo + done == s.entries.Keys
      invariant Recounted(s, done, source, target, batch)
      decreases todo
    {
      var i :| i in todo;
      var e := db.entries[i];
      RecountedOneMore(s, done, i, source, target, batch);
      if e.batch in db.batches && db.batches[e.batch].status == Started {
        match e.status
        case BackgroundImport =>
          source, target, batch := Record(source, e.source), Record(target, e.target), Record(batch, e.batch);
        case FinalImport =>
          source, target := Record(source, e.source), Record(target, e.target);
        case _ =>
      }
      todo, done := todo - {i}, done + {i};
    }
    assert done == s.entries.Keys;
    var replaced := db.sourceImports.Replace(Some(source));
    replaced := db.targetImports.Replace(Some(target));
    replaced := db.batchImports.Replace(Some(batch));
  }

  lemma NothingRecounted(s: State)
    ensures Recounted(s, {}, map[], map[], map[])
  {
    assert forall q: Query :: Counted(s, {}, q) == {};
  }

  /** The state after a restart: the tables are as they were, the counters are counted anew. */
  ghost predicate Restarted(s: State, s': State) {
    && s'.setup == s.setup && s'.entries == s.entries && s'.windows == s.windows
    && s'.batches == s.batches && s'.instances == s.instances
    && Recounted(s, s.entries.Keys, s'.sourceImports, s'.targetImports, s'.batchImports)
  }

  lemma CountedIsPicked(s: State, q: Query)
    ensures Counted(s, s.entries.Keys, q) <= Picked(s.entries, q)
    ensures |Counted(s, s.entries.Keys, q)| <= Count(s.entries, q)
    ensures |Counted(s, s.entries.Keys, q)| == Count(s.entries, q) <==>
              forall i | i in Picked(s.entries, q) :: InRunningBatch(s, i)
  {
    hide Selects, InRunningBatch;
    var counted, picked := Counted(s, s.entries.Keys, q), Picked(s.entries, q);
    SubsetIsSmaller(counted, picked);
    if forall i | i in picked :: InRunningBatch(s, i) {
      assert counted == picked;
    } else {
      var i :| i in picked && !InRunningBatch(s, i);
      SubsetIsSmaller(counted, picked - {i});
    }
  }

  /** After a restart no counter is too high. All of them are exact if and only if no entry of a batch that is
      not running was importing: an import of a stopped batch is no longer counted. */
  lemma RestartIsExact(s: State, s': State)
    requires Restarted(s, s')
    ensures forall k :: Get(s'.sourceImports, k) <= Count(s'.entries, FromSource(k))
    ensures forall k :: Get(s'.targetImports, k) <= Count(s'.entries, ToTarget(k))
    ensures Exact(s') && SyncsExact(s') <==>
              forall i | i in s.entries && (s.entries[i].status == BackgroundImport || s.entries[i].status == FinalImport) ::
                s.entries[i].batch in s.batches && s.batches[s.entries[i].batch].status == Started
  {
    assert forall i | i in s.entries :: InRunningBatch(s, i) <==>
             s.entries[i].batch in s.batches && s.batches[s.entries[i].batch].status == Started;
    hide Counted, Count, InRunningBatch;
    forall q
      ensures |Counted(s, s.entries.Keys, q)| <= Count(s.entries, q)
      ensures |Counted(s, s.entries.Keys, q)| == Count(s.entries, q) <==>
                forall i | i in Picked(s.entries, q) :: InRunningBatch(s, i)
    {
      CountedIsPicked(s, q);
    }
    if i :| i in s.entries && s.entries[i].IsImporting() && !InRunningBatch(s, i) {
      assert i in Picked(s.entries, FromSource(s.entries[i].source));
      assert Get(s'.sourceImports, s.entries[i].source) != Count(s'.entries, FromSource(s.entries[i].source));
    }
  }
}
