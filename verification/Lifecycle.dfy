/** One entry's way through the queue, from its first request to the end of its worker's tasks. */
module Lifecycle {
  import opened Common
  import opened Windows
  import opened Queue

  /** An idle entry whose source, target and batch take another import. */
  predicate Ready(s: State, id: InstanceId) {
    && Decidable(s, id)
    && !LimitReached(s.setup.sources[s.entries[id].source], Get(s.sourceImports, s.entries[id].source))
    && !LimitReached(s.setup.targets[s.entries[id].target], Get(s.targetImports, s.entries[id].target))
    && !LimitReached(s.batches[s.entries[id].batch].syncLimit, Get(s.batchImports, s.entries[id].batch))
  }

  /** Only the entry of `id` differs, and it belongs where it belonged. */
  predicate OnlyMoves(s: State, id: InstanceId, s': State) {
    && id in s.entries && id in s'.entries && s'.entries == s.entries[id := s'.entries[id]]
    && s'.entries[id].batch == s.entries[id].batch
    && s'.entries[id].source == s.entries[id].source && s'.entries[id].target == s.entries[id].target
    && s'.setup == s.setup && s'.windows == s.windows && s'.batches == s.batches && s'.instances == s.instances
  }

  ghost predicate SameCounters(s: State, s': State) {
    && (forall k :: Get(s'.sourceImports, k) == Get(s.sourceImports, k))
    && (forall k :: Get(s'.targetImports, k) == Get(s.targetImports, k))
    && (forall k :: Get(s'.batchImports, k) == Get(s.batchImports, k))
  }

  ghost predicate CountersNonNegative(s: State) {
    forall k :: Get(s.sourceImports, k) >= 0 && Get(s.targetImports, k) >= 0 && Get(s.batchImports, k) >= 0
  }

  /** A task: the worker asks at `asked` and reports success at `done`. */
  datatype Task = Task(next: NextWindow, asked: Time, message: Message, done: Time) {
    /** The window the entry would get has begun. */
    predicate Opens() {
      next.Chosen? && next.w.Begun(asked) && !next.w.IsEmpty()
    }
  }

  function Answer(s: State, id: InstanceId, t: Task): Reply<Command> {
    Request(s, id, t.next, t.asked).reply
  }

  function After(s: State, id: InstanceId, t: Task): State {
    Report(Request(s, id, t.next, t.asked).state, id, Success, t.message, t.done).state
  }

  /** The first background sync leaves the entry idle for its final import and the counters as they were. */
  lemma BackgroundTask(s: State, id: InstanceId, t: Task)
    requires Ready(s, id) && CountersNonNegative(s)
    requires s.entries[id].stage == Background && s.instances[id].SupportsBackgroundImport()
    ensures Answer(s, id, t) == Ok(ImportDisks)
    ensures var s' := After(s, id, t);
            && OnlyMoves(s, id, s') && SameCounters(s, s') && s'.entries[id].status == Idle
            && s'.entries[id].stage == Final && s'.entries[id].lastSync == t.done && s'.entries[id].window == s.entries[id].window
  {
  }

  /** So does the final import, which assigns the window it starts in. An entry that cannot sync in the
      background starts with it. */
  lemma FinalTask(s: State, id: InstanceId, t: Task)
    requires Ready(s, id) && CountersNonNegative(s) && t.Opens()
    requires s.entries[id].stage == Final || (s.entries[id].stage == Background && !s.instances[id].SupportsBackgroundImport())
    ensures Answer(s, id, t) == Ok(FinalizeImport)
    ensures var s' := After(s, id, t);
            && OnlyMoves(s, id, s') && SameCounters(s, s') && s'.entries[id].status == Idle
            && s'.entries[id].stage == Complete && s'.entries[id].window == Some(t.next.w.name)
  {
  }

  /** The tasks after the import are not counted when they start, and yet released when they end. */
  lemma PostTask(s: State, id: InstanceId, t: Task)
    requires Ready(s, id)
    requires s.entries[id].stage == Complete && t.Opens()
    ensures Answer(s, id, t) == Ok(RunPostImport)
    ensures var s', e := After(s, id, t), s.entries[id];
            && OnlyMoves(s, id, s')
            && s'.entries[id].status == WorkerDone && s'.entries[id].stage == Complete
            && s'.entries[id].window == Some(t.next.w.name)
            && (forall k :: Get(s'.sourceImports, k) == if k == e.source then Lowered(Get(s.sourceImports, k)) else Get(s.sourceImports, k))
            && (forall k :: Get(s'.targetImports, k) == if k == e.target then Lowered(Get(s.targetImports, k)) else Get(s.targetImports, k))
            && s'.batchImports == s.batchImports
  {
  }

  lemma StaysReady(s: State, id: InstanceId, s': State)
    requires Ready(s, id) && CountersNonNegative(s) && OnlyMoves(s, id, s') && SameCounters(s, s') && s'.entries[id].status == Idle
    ensures Ready(s', id) && CountersNonNegative(s')
  {
  }

  /** What a completed migration leaves: no other entry is touched and the batch's counter reads as before, but
      one import of others is taken off the counters of the source and the target, if there is any. */
  ghost predicate Completed(s: State, id: InstanceId, s': State) {
    && OnlyMoves(s, id, s')
    && s'.entries[id].status == WorkerDone && s'.entries[id].stage == Complete && s'.entries[id].IsCommitted()
    && var e := s.entries[id];
       && (forall k :: Get(s'.batchImports, k) == Get(s.batchImports, k))
       && (forall k :: Get(s'.sourceImports, k) == if k == e.source then Lowered(Get(s.sourceImports, k)) else Get(s.sourceImports, k))
       && (forall k :: Get(s'.targetImports, k) == if k == e.target then Lowered(Get(s.targetImports, k)) else Get(s.targetImports, k))
  }

  /** An entry that may import and whose window comes is through after three tasks, each granted at the first
      request: import, final import, post-import. */
  lemma MigrationCompletes(s: State, id: InstanceId, import_: Task, finalize: Task, post: Task)
    requires Ready(s, id) && CountersNonNegative(s)
    requires s.entries[id].stage == Background && s.instances[id].SupportsBackgroundImport()
    requires finalize.Opens() && post.Opens()
    ensures var s1 := After(s, id, import_);
            var s2 := After(s1, id, finalize);
            && Answer(s, id, import_) == Ok(ImportDisks)
            && Answer(s1, id, finalize) == Ok(FinalizeImport)
            && Answer(s2, id, post) == Ok(RunPostImport)
            && Completed(s, id, After(s2, id, post))
  {
    hide After, Answer, Get;
    var s1 := After(s, id, import_);
    BackgroundTask(s, id, import_);
    StaysReady(s, id, s1);
    var s2 := After(s1, id, finalize);
    FinalTask(s1, id, finalize);
    StaysReady(s1, id, s2);
    PostTask(s2, id, post);
    hide Ready;
  }

  /** An entry that cannot sync in the background needs two. */
  lemma OfflineMigrationCompletes(s: State, id: InstanceId, finalize: Task, post: Task)
    requires Ready(s, id) && CountersNonNegative(s)
    requires s.entries[id].stage == Background && !s.instances[id].SupportsBackgroundImport()
    requires finalize.Opens() && post.Opens()
    ensures var s1 := After(s, id, finalize);
            && Answer(s, id, finalize) == Ok(FinalizeImport)
            && Answer(s1, id, post) == Ok(RunPostImport)
            && Completed(s, id, After(s1, id, post))
  {
    hide After, Answer, Get;
    var s1 := After(s, id, finalize);
    FinalTask(s, id, finalize);
    StaysReady(s, id, s1);
    PostTask(s1, id, post);
    hide Ready;
  }
}
