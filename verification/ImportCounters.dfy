/** The import counters kept beside the database: their range, what they cover and when they drift
    from the number of entries they stand for. */
module ImportCounters {
  import opened Common
  import opened Queue
  import opened Counting
  import opened WindowSafety
  import opened ImportLimits
  import InstanceSync
  import opened WindowSelection

  // ---- Range -------------------------------------------------------------------------------------

  ghost predicate AtMost(cache: map<string, int>, limits: map<string, int>) {
    forall k | k in limits && limits[k] > 0 :: Get(cache, k) <= limits[k]
  }

  ghost predicate NonNegative(cache: map<string, int>) {
    forall k :: Get(cache, k) >= 0
  }

  ghost predicate SyncsAtMost(s: State) {
    forall b | b in s.batches && s.batches[b].syncLimit > 0 :: Get(s.batchImports, b) <= s.batches[b].syncLimit
  }

  /** Every counter lies between zero and its limit, if it has one. */
  ghost predicate WithinLimits(s: State) {
    && NonNegative(s.sourceImports) && AtMost(s.sourceImports, s.setup.sources)
    && NonNegative(s.targetImports) && AtMost(s.targetImports, s.setup.targets)
    && NonNegative(s.batchImports) && SyncsAtMost(s)
  }

  /** An import is granted only below the limits of its endpoints, a background sync only below its batch's. */
  lemma GrantsRespectLimits(s: State, id: InstanceId, next: NextWindow, now: Time)
    requires Decidable(s, id)
    ensures var e, d := s.entries[id], DecisionFor(s, id, next, now);
            d.Move? && (d.status == BackgroundImport || d.status == FinalImport) ==>
              && !LimitReached(s.setup.sources[e.source], Get(s.sourceImports, e.source))
              && !LimitReached(s.setup.targets[e.target], Get(s.targetImports, e.target))
              && (d.status == BackgroundImport ==> !LimitReached(s.batches[e.batch].syncLimit, Get(s.batchImports, e.batch)))
  {
  }

  lemma RequestKeepsRange(s: State, id: InstanceId, next: NextWindow, now: Time)
    requires WithinLimits(s) && Decidable(s, id)
    ensures WithinLimits(Request(s, id, next, now).state)
  {
    GrantsRespectLimits(s, id, next, now);
    hide DecisionFor;
  }

  /** Requests, reports and resets are the only steps that touch a counter. */
  lemma OtherStepsKeepCounters(s: State, op: Op, now: Time, s': State)
    requires !op.RequestCommand? && !op.WorkerReport? && !op.Reset? && Step(s, op, now, s')
    ensures s'.sourceImports == s.sourceImports && s'.targetImports == s.targetImports && s'.batchImports == s.batchImports
  {
    hide AfterMove, NewEntry, HasValidWindow, WithWindows, ReplacementAllowed, Requested;
  }

  lemma ReportKeepsRange(s: State, op: Op, now: Time, s': State)
    requires WithinLimits(s) && op.WorkerReport? && Step(s, op, now, s')
    ensures WithinLimits(s')
  {
    hide Reported;
  }

  lemma ResetKeepsRange(s: State, op: Op, now: Time, s': State)
    requires WithinLimits(s) && op.Reset? && Step(s, op, now, s')
    ensures WithinLimits(s')
  {
    hide ImportingFrom, ImportingTo, SyncingIn, OfBatch, LoweredBy, Get;
  }

  lemma SameCountersSameRange(s: State, s': State)
    requires WithinLimits(s) && SameTerms(s, s')
    requires s'.sourceImports == s.sourceImports && s'.targetImports == s.targetImports && s'.batchImports == s.batchImports
    ensures WithinLimits(s')
  {
  }

  lemma StepKeepsRange(s: State, op: Op, now: Time, s': State)
    requires WithinLimits(s) && Step(s, op, now, s')
    ensures WithinLimits(s')
  {
    hide WithinLimits, SameTerms;
    if op.RequestCommand? {
      if Decidable(s, op.id) {
        RequestKeepsRange(s, op.id, op.next, now);
      }
    } else if op.WorkerReport? {
      ReportKeepsRange(s, op, now, s');
    } else if op.Reset? {
      ResetKeepsRange(s, op, now, s');
    } else {
      StepKeepsTerms(s, op, now, s');
      OtherStepsKeepCounters(s, op, now, s');
      SameCountersSameRange(s, s');
    }
  }

  /** Started within its limits, every counter stays between zero and its limit for ever. */
  lemma {:induction false} CountersStayInRange(r: Run, k: nat)
    requires r.Legal() && k < |r.states| && WithinLimits(r.states[0])
    ensures WithinLimits(r.states[k])
  {
    hide Step, WithinLimits;
    if k > 0 {
      CountersStayInRange(r, k - 1);
      StepKeepsRange(r.states[k - 1], r.ops[k - 1], r.times[k - 1], r.states[k]);
    }
  }

  // ---- Background syncs of a batch -----------------------------------------------------------------

  /** Each batch counter is at least the number of the batch's background imports. */
  ghost predicate SyncsCovered(s: State) {
    forall b :: Count(s.entries, Syncing(b)) <= Get(s.batchImports, b)
  }

  /** The one way to lose the cover: a report with an unknown response, which releases an import that goes on. */
  ghost predicate Uncovers(s: State, op: Op) {
    && op.WorkerReport? && op.response == Unknown && op.id in s.entries && op.id in s.instances
    && s.entries[op.id].status == BackgroundImport
    && Count(s.entries, Syncing(s.entries[op.id].batch)) == Get(s.batchImports, s.entries[op.id].batch)
  }

  lemma RequestCountsSyncs(s: State, id: InstanceId, next: NextWindow, now: Time, b: string)
    requires Decidable(s, id)
    ensures var s' := Request(s, id, next, now).state;
            Count(s'.entries, Syncing(b)) - Get(s'.batchImports, b) == Count(s.entries, Syncing(b)) - Get(s.batchImports, b)
  {
    var e, d := s.entries[id], DecisionFor(s, id, next, now);
    hide DecisionFor;
    CountAfterUpdate(s.entries, id, Decided(e, d), Syncing(b));
  }

  lemma ReportCountsSyncs(s: State, op: Op, now: Time, s': State, b: string)
    requires SyncsCovered(s) && op.WorkerReport? && Step(s, op, now, s')
    ensures Count(s'.entries, Syncing(b)) <= Get(s'.batchImports, b) <==> !(Uncovers(s, op) && s.entries[op.id].batch == b)
  {
    if op.id in s.entries && s.entries[op.id].IsMigrating() && (op.response != Running ==> op.id in s.instances) {
      CountAfterUpdate(s.entries, op.id, Reported(s.entries[op.id], op.response, op.message, now), Syncing(b));
      assert SelectsAt(Syncing(b), s.entries, op.id) ==> op.id in Picked(s.entries, Syncing(b));
    }
  }

  lemma ResetEffect(s: State, op: Op, now: Time, s': State)
    requires op.Reset? && Step(s, op, now, s') && s' != s
    ensures Released(s, OfBatch(s.entries, op.name), s') && s'.entries == s.entries - OfBatch(s.entries, op.name)
  {
    hide Released, OfBatch;
  }

  lemma ResetCountsSyncs(s: State, op: Op, now: Time, s': State, b: string)
    requires SyncsCovered(s) && op.Reset? && Step(s, op, now, s')
    ensures Count(s'.entries, Syncing(b)) <= Get(s'.batchImports, b)
  {
    hide Step, ImportingFrom, ImportingTo;
    if s' != s {
      var gone := OfBatch(s.entries, op.name);
      ResetEffect(s, op, now, s');
      CountAfterRemoval(s.entries, gone, Syncing(b));
      assert SyncingIn(s.entries, gone, b) == Picked(s.entries, Syncing(b)) * gone;
    }
  }

  /** A step keeps every batch counter at or above the batch's background imports, resets included,
      unless it is the one report that releases an import which goes on. */
  lemma CoverIsKept(s: State, op: Op, now: Time, s': State)
    requires SyncsCovered(s) && Step(s, op, now, s')
    ensures SyncsCovered(s') <==> !Uncovers(s, op)
  {
    forall b
      ensures Count(s'.entries, Syncing(b)) <= Get(s'.batchImports, b) <==> !(Uncovers(s, op) && s.entries[op.id].batch == b)
    {
      if op.RequestCommand? {
        if Decidable(s, op.id) {
          RequestCountsSyncs(s, op.id, op.next, now, b);
        }
      } else if op.WorkerReport? {
        ReportCountsSyncs(s, op, now, s', b);
      } else if op.Reset? {
        ResetCountsSyncs(s, op, now, s', b);
      } else {
        OtherStepsKeepCounters(s, op, now, s');
        CountsOnlyGrowByRequests(s, op, now, s', Syncing(b));
      }
    }
    if Uncovers(s, op) {
      var b := s.entries[op.id].batch;
      assert !(Count(s'.entries, Syncing(b)) <= Get(s'.batchImports, b));
    }
  }

  /** No response of the run is an unknown one. */
  ghost predicate KnownResponses(r: Run) {
    forall k | 0 <= k < |r.ops| :: r.ops[k].WorkerReport? ==> r.ops[k].response != Unknown
  }

  /** With a sync limit, never more entries of the batch import in the background at once than it allows, in
      any run of known responses that starts covered and within limits. */
  lemma {:induction false} BackgroundSyncBound(r: Run, k: nat)
    requires r.Legal() && SyncsCovered(r.states[0]) && WithinLimits(r.states[0]) && KnownResponses(r) && k < |r.states|
    ensures SyncsCovered(r.states[k]) && WithinLimits(r.states[k])
    ensures forall b | b in r.states[k].batches && r.states[k].batches[b].syncLimit > 0 ::
              Count(r.states[k].entries, Syncing(b)) <= r.states[k].batches[b].syncLimit
  {
    CountersStayInRange(r, k);
    CoverOverRun(r, k);
    hide Step;
  }

  lemma {:induction false} CoverOverRun(r: Run, k: nat)
    requires r.Legal() && SyncsCovered(r.states[0]) && KnownResponses(r) && k < |r.states|
    ensures SyncsCovered(r.states[k])
  {
    hide Step, SyncsCovered;
    if k > 0 {
      CoverOverRun(r, k - 1);
      CoverIsKept(r.states[k - 1], r.ops[k - 1], r.times[k - 1], r.states[k]);
    }
  }

  // ---- Endpoints -----------------------------------------------------------------------------------

  /** The counters of sources and targets are the numbers of entries importing from and to them. */
  ghost predicate Exact(s: State) {
    && (forall k :: Get(s.sourceImports, k) == Count(s.entries, FromSource(k)))
    && (forall k :: Get(s.targetImports, k) == Count(s.entries, ToTarget(k)))
  }

  ghost predicate Accepts(s: State, id: InstanceId, response: Response) {
    id in s.entries && s.entries[id].IsMigrating() && (response != Running ==> id in s.instances)
  }

  /** What makes the endpoint counters drift: an import is ended without a release, by a cancellation or
      a missed deadline, or a report releases an import that does not end with it. */
  ghost predicate Drifts(s: State, op: Op) {
    && (op.CancelEntry? || op.DaemonStep? || op.WorkerReport?) && op.id in s.entries
    && var e := s.entries[op.id];
       match op
       case CancelEntry(_) => e.IsImporting()
       case DaemonStep(_, m, _) => m == MissDeadline && e.IsImporting() && e.status == FinalImport
       case WorkerReport(id, response, message) =>
         && Accepts(s, id, response) && response != Running
         && (response == Unknown || !e.IsImporting())
         && (Get(s.sourceImports, e.source) > 0 || Get(s.targetImports, e.target) > 0)
  }

  lemma RequestKeepsExact(s: State, id: InstanceId, next: NextWindow, now: Time)
    requires Exact(s) && Decidable(s, id)
    ensures Exact(Request(s, id, next, now).state)
  {
    var e, s' := s.entries[id], Request(s, id, next, now).state;
    var e' := Decided(e, DecisionFor(s, id, next, now));
    hide DecisionFor;
    forall k ensures Get(s'.sourceImports, k) == Count(s'.entries, FromSource(k)) {
      CountAfterUpdate(s.entries, id, e', FromSource(k));
    }
    forall k ensures Get(s'.targetImports, k) == Count(s'.entries, ToTarget(k)) {
      CountAfterUpdate(s.entries, id, e', ToTarget(k));
    }
  }

  /** How one changed entry moves the endpoint counts. */
  lemma EndpointCounts(entries: map<InstanceId, Entry>, id: InstanceId, e': Entry)
    requires id in entries && e'.source == entries[id].source
    requires e'.IsImporting() || entries[id].IsImporting() ==> e'.target == entries[id].target || (!e'.IsImporting() && entries[id].IsImporting())
    ensures var e := entries[id];
            && (forall k :: Count(entries[id := e'], FromSource(k)) ==
                  Count(entries, FromSource(k)) + if k != e.source then 0 else Weight(e'.IsImporting()) - Weight(e.IsImporting()))
            && (forall k :: Count(entries[id := e'], ToTarget(k)) ==
                  Count(entries, ToTarget(k)) + if k != e.target then 0 else Weight(e'.IsImporting()) - Weight(e.IsImporting()))
  {
    var e := entries[id];
    forall k
      ensures Count(entries[id := e'], FromSource(k)) ==
                Count(entries, FromSource(k)) + if k != e.source then 0 else Weight(e'.IsImporting()) - Weight(e.IsImporting())
    {
      CountAfterUpdate(entries, id, e', FromSource(k));
    }
    forall k
      ensures Count(entries[id := e'], ToTarget(k)) ==
                Count(entries, ToTarget(k)) + if k != e.target then 0 else Weight(e'.IsImporting()) - Weight(e.IsImporting())
    {
      CountAfterUpdate(entries, id, e', ToTarget(k));
    }
  }

  lemma ReportMovesExact(s: State, op: Op, now: Time, s': State)
    requires Exact(s) && op.WorkerReport? && Step(s, op, now, s')
    ensures Exact(s') <==> !Drifts(s, op)
  {
    if Accepts(s, op.id, op.response) {
      var e := s.entries[op.id];
      var e' := Reported(e, op.response, op.message, now);
      ReportedImporting(e, op.response, op.message, now);
      EndpointCounts(s.entries, op.id, e');
      SomeoneImports(s.entries, op.id);
      hide Reported, Count;
      if Drifts(s, op) {
        assert Get(s'.sourceImports, e.source) != Count(s'.entries, FromSource(e.source))
            || Get(s'.targetImports, e.target) != Count(s'.entries, ToTarget(e.target));
      }
    }
  }

  /** A report never starts an import; only success and failure end one. */
  lemma ReportedImporting(e: Entry, response: Response, message: Message, now: Time)
    ensures var e' := Reported(e, response, message, now);
            && e'.source == e.source && e'.target == e.target
            && e'.IsImporting() == (e.IsImporting() && response != Success && response != Failed)
  {
  }

  lemma SomeoneImports(entries: map<InstanceId, Entry>, id: InstanceId)
    requires id in entries
    ensures entries[id].IsImporting() ==> Count(entries, FromSource(entries[id].source)) > 0 && Count(entries, ToTarget(entries[id].target)) > 0
  {
    if entries[id].IsImporting() {
      assert id in Picked(entries, FromSource(entries[id].source));
      assert id in Picked(entries, ToTarget(entries[id].target));
    }
  }

  lemma EntryStepMovesExact(s: State, op: Op, now: Time, s': State)
    requires op.CancelEntry? || op.DaemonStep? || op.RetryEntry?
    requires Exact(s) && Step(s, op, now, s')
    ensures Exact(s') <==> !Drifts(s, op)
  {
    if s' != s {
      var e, e' := s.entries[op.id], s'.entries[op.id];
      OtherStepsKeepCounters(s, op, now, s');
      EntryStepImporting(s, op, now, s');
      hide Step;
      EndpointCounts(s.entries, op.id, e');
      if Drifts(s, op) {
        assert Count(s'.entries, FromSource(e.source)) != Count(s.entries, FromSource(e.source));
      }
    } else {
      EntryStepIdle(s, op, now);
    }
  }

  /** Cancellations, retries and daemon moves end an import exactly when they make the counters drift. */
  lemma EntryStepImporting(s: State, op: Op, now: Time, s': State)
    requires op.CancelEntry? || op.DaemonStep? || op.RetryEntry?
    requires Step(s, op, now, s') && s' != s
    ensures op.id in s.entries && op.id in s'.entries && s'.entries == s.entries[op.id := s'.entries[op.id]]
    ensures var e, e' := s.entries[op.id], s'.entries[op.id];
            && e'.source == e.source && !e'.IsImporting() && e.IsImporting() == Drifts(s, op)
  {
    match op
    case CancelEntry(_) =>
    case RetryEntry(_, _) =>
    case DaemonStep(_, _, _) =>
  }

  lemma EntryStepIdle(s: State, op: Op, now: Time)
    requires op.CancelEntry? || op.DaemonStep? || op.RetryEntry?
    requires Step(s, op, now, s)
    ensures !Drifts(s, op)
  {
  }

  /** The endpoint counts without a set of entries. */
  lemma EndpointCountsWithout(entries: map<InstanceId, Entry>, gone: set<InstanceId>)
    ensures forall k :: Count(entries - gone, FromSource(k)) == Count(entries, FromSource(k)) - |ImportingFrom(entries, gone, k)|
    ensures forall k :: Count(entries - gone, ToTarget(k)) == Count(entries, ToTarget(k)) - |ImportingTo(entries, gone, k)|
  {
    forall k ensures Count(entries - gone, FromSource(k)) == Count(entries, FromSource(k)) - |ImportingFrom(entries, gone, k)| {
      CountAfterRemoval(entries, gone, FromSource(k));
      assert ImportingFrom(entries, gone, k) == Picked(entries, FromSource(k)) * gone;
    }
    forall k ensures Count(entries - gone, ToTarget(k)) == Count(entries, ToTarget(k)) - |ImportingTo(entries, gone, k)| {
      CountAfterRemoval(entries, gone, ToTarget(k));
      assert ImportingTo(entries, gone, k) == Picked(entries, ToTarget(k)) * gone;
    }
  }

  lemma ResetKeepsExact(s: State, op: Op, now: Time, s': State)
    requires op.Reset? && Exact(s) && Step(s, op, now, s')
    ensures Exact(s')
  {
    EndpointCountsWithout(s.entries, OfBatch(s.entries, op.name));
    hide Count, ImportingFrom, ImportingTo, SyncingIn, OfBatch, LoweredBy, Get;
  }

  lemma TableStepKeepsExact(s: State, op: Op, now: Time, s': State)
    requires op.DeleteEntry? || op.Start? || op.Stop? || op.SetWindows? || op.DropWindow? || op.SyncInstance?
    requires Exact(s) && Step(s, op, now, s')
    ensures Exact(s')
  {
    OtherStepsKeepCounters(s, op, now, s');
    forall q: Query | q.FromSource? || q.ToTarget? ensures Count(s'.entries, q) == Count(s.entries, q) {
      TableStepKeepsCounts(s, op, now, s', q);
    }
    hide Step;
  }

  lemma TableStepKeepsCounts(s: State, op: Op, now: Time, s': State, q: Query)
    requires op.DeleteEntry? || op.Start? || op.Stop? || op.SetWindows? || op.DropWindow? || op.SyncInstance?
    requires (q.FromSource? || q.ToTarget? || q.Syncing?) && Step(s, op, now, s')
    ensures Count(s'.entries, q) == Count(s.entries, q)
  {
    if s' != s {
      match op
      case DeleteEntry(id) =>
        CountAfterRemoval(s.entries, {id}, q);
        assert Picked(s.entries, q) * {id} == {};
      case Start(name, candidates) =>
        var added := StartEffect(s, name, candidates, now, s');
        CountAfterAddition(s.entries, added, q);
      case _ =>
    }
  }

  /** The endpoint counters are exact after a step from exact counters if and only if the step is none of
      those that make them drift. */
  lemma ExactnessIsKept(s: State, op: Op, now: Time, s': State)
    requires Exact(s) && Step(s, op, now, s')
    ensures Exact(s') <==> !Drifts(s, op)
  {
    if op.RequestCommand? {
      if Decidable(s, op.id) {
        RequestKeepsExact(s, op.id, op.next, now);
      }
    } else if op.WorkerReport? {
      ReportMovesExact(s, op, now, s');
    } else if op.CancelEntry? || op.DaemonStep? || op.RetryEntry? {
      EntryStepMovesExact(s, op, now, s');
    } else if op.Reset? {
      ResetKeepsExact(s, op, now, s');
    } else {
      TableStepKeepsExact(s, op, now, s');
    }
    hide Exact;
  }

  /** On a run without drift the endpoint counters stay exact. */
  lemma {:induction false} EndpointCountersStayExact(r: Run, k: nat)
    requires r.Legal() && Exact(r.states[0]) && k < |r.states|
    requires forall j | 0 <= j < |r.ops| :: !Drifts(r.states[j], r.ops[j])
    ensures Exact(r.states[k])
  {
    hide Step, Exact, Drifts;
    if k > 0 {
      EndpointCountersStayExact(r, k - 1);
      ExactnessIsKept(r.states[k - 1], r.ops[k - 1], r.times[k - 1], r.states[k]);
    }
  }

  // ---- The limits of endpoints -----------------------------------------------------------------------

  /** No endpoint serves more imports than its counter says. Cancellations and missed deadlines keep this. */
  ghost predicate EndpointsCovered(s: State) {
    && (forall k :: Count(s.entries, FromSource(k)) <= Get(s.sourceImports, k))
    && (forall k :: Count(s.entries, ToTarget(k)) <= Get(s.targetImports, k))
  }

  /** A report that releases an import which did not end with it, from a counter that has none to spare. */
  ghost predicate Undercounts(s: State, op: Op) {
    && op.WorkerReport? && Accepts(s, op.id, op.response) && op.response != Running
    && var e := s.entries[op.id];
       && (op.response == Unknown || !e.IsImporting())
       && (|| 0 < Get(s.sourceImports, e.source) == Count(s.entries, FromSource(e.source))
           || 0 < Get(s.targetImports, e.target) == Count(s.entries, ToTarget(e.target)))
  }

  lemma RequestCountsEndpoints(s: State, op: Op, now: Time, s': State, k: string)
    requires op.RequestCommand? && Step(s, op, now, s')
    ensures Count(s'.entries, FromSource(k)) - Get(s'.sourceImports, k) == Count(s.entries, FromSource(k)) - Get(s.sourceImports, k)
    ensures Count(s'.entries, ToTarget(k)) - Get(s'.targetImports, k) == Count(s.entries, ToTarget(k)) - Get(s.targetImports, k)
  {
    hide IsNextWindow, Decide, Record;
    if Decidable(s, op.id) {
      var e' := Decided(s.entries[op.id], DecisionFor(s, op.id, op.next, now));
      CountAfterUpdate(s.entries, op.id, e', FromSource(k));
      CountAfterUpdate(s.entries, op.id, e', ToTarget(k));
    }
    hide DecisionFor;
  }

  lemma ReportMovesCover(s: State, op: Op, now: Time, s': State)
    requires EndpointsCovered(s) && op.WorkerReport? && Step(s, op, now, s')
    ensures EndpointsCovered(s') <==> !Undercounts(s, op)
  {
    if Accepts(s, op.id, op.response) {
      var e := s.entries[op.id];
      var e' := Reported(e, op.response, op.message, now);
      ReportedImporting(e, op.response, op.message, now);
      EndpointCounts(s.entries, op.id, e');
      SomeoneImports(s.entries, op.id);
      hide Reported, Count;
      if Undercounts(s, op) {
        assert Get(s'.sourceImports, e.source) < Count(s'.entries, FromSource(e.source))
            || Get(s'.targetImports, e.target) < Count(s'.entries, ToTarget(e.target));
      }
    }
  }

  lemma ResetKeepsCover(s: State, op: Op, now: Time, s': State)
    requires EndpointsCovered(s) && op.Reset? && Step(s, op, now, s')
    ensures EndpointsCovered(s')
  {
    hide Step;
    if s' != s {
      ResetEffect(s, op, now, s');
      EndpointCountsWithout(s.entries, OfBatch(s.entries, op.name));
      hide Count, ImportingFrom, ImportingTo, SyncingIn, OfBatch, Get;
    }
  }

  /** Endpoint counters that cover the imports still do so after a step if and only if the step is not a
      report that releases an import it does not end, from a counter that has none to spare. */
  lemma EndpointCoverIsKept(s: State, op: Op, now: Time, s': State)
    requires EndpointsCovered(s) && Step(s, op, now, s')
    ensures EndpointsCovered(s') <==> !Undercounts(s, op)
  {
    hide Step, Count;
    if op.WorkerReport? {
      ReportMovesCover(s, op, now, s');
    } else if op.Reset? {
      ResetKeepsCover(s, op, now, s');
    } else {
      forall k
        ensures Count(s'.entries, FromSource(k)) <= Get(s'.sourceImports, k)
        ensures Count(s'.entries, ToTarget(k)) <= Get(s'.targetImports, k)
      {
        if op.RequestCommand? {
          RequestCountsEndpoints(s, op, now, s', k);
        } else {
          OtherStepsKeepCounters(s, op, now, s');
          CountsOnlyGrowByRequests(s, op, now, s', FromSource(k));
          CountsOnlyGrowByRequests(s, op, now, s', ToTarget(k));
        }
      }
    }
  }

  /** In any run that starts covered and within limits and in which no report undercounts, a limited source or
      target never serves more imports at once than its limit, whatever is cancelled or misses its deadline. */
  lemma {:induction false} EndpointLimitsHold(r: Run, k: nat)
    requires r.Legal() && EndpointsCovered(r.states[0]) && WithinLimits(r.states[0]) && k < |r.states|
    requires forall j | 0 <= j < |r.ops| :: !Undercounts(r.states[j], r.ops[j])
    ensures EndpointsCovered(r.states[k])
    ensures var s := r.states[k];
            && (forall n | n in s.setup.sources && s.setup.sources[n] > 0 :: Count(s.entries, FromSource(n)) <= s.setup.sources[n])
            && (forall n | n in s.setup.targets && s.setup.targets[n] > 0 :: Count(s.entries, ToTarget(n)) <= s.setup.targets[n])
  {
    EndpointCoverOverRun(r, k);
    CountersStayInRange(r, k);
    hide Step, Undercounts, Count;
  }

  lemma {:induction false} EndpointCoverOverRun(r: Run, k: nat)
    requires r.Legal() && EndpointsCovered(r.states[0]) && k < |r.states|
    requires forall j | 0 <= j < |r.ops| :: !Undercounts(r.states[j], r.ops[j])
    ensures EndpointsCovered(r.states[k])
  {
    hide Step, EndpointsCovered, Undercounts;
    if k > 0 {
      EndpointCoverOverRun(r, k - 1);
      EndpointCoverIsKept(r.states[k - 1], r.ops[k - 1], r.times[k - 1], r.states[k]);
    }
  }

  /** The step starts an import from this source. */
  predicate GrantsFrom(s: State, op: Op, now: Time, source: string) {
    && op.RequestCommand? && Decidable(s, op.id) && s.entries[op.id].source == source
    && var d := DecisionFor(s, op.id, op.next, now);
       d.Move? && (d.status == BackgroundImport || d.status == FinalImport)
  }

  /** The step starts an import to this target. */
  predicate GrantsTo(s: State, op: Op, now: Time, target: string) {
    && op.RequestCommand? && Decidable(s, op.id) && s.entries[op.id].target == target
    && var d := DecisionFor(s, op.id, op.next, now);
       d.Move? && (d.status == BackgroundImport || d.status == FinalImport)
  }

  /** A step takes a source over its limit exactly if it grants an import while the source is at its limit, and
      it does so only while the counter reads below it. */
  lemma SourceLimitIsExceeded(s: State, op: Op, now: Time, s': State, source: string)
    requires Step(s, op, now, s') && source in s.setup.sources && s.setup.sources[source] > 0
    requires Count(s.entries, FromSource(source)) <= s.setup.sources[source]
    ensures Count(s'.entries, FromSource(source)) > s.setup.sources[source] <==>
              GrantsFrom(s, op, now, source) && Count(s.entries, FromSource(source)) == s.setup.sources[source]
    ensures GrantsFrom(s, op, now, source) ==> Get(s.sourceImports, source) < s.setup.sources[source]
  {
    if op.RequestCommand? {
      if Decidable(s, op.id) {
        GrantsRespectLimits(s, op.id, op.next, now);
        DecisionEffect(s, op.id, op.next, now);
        CountAfterUpdate(s.entries, op.id, Decided(s.entries[op.id], DecisionFor(s, op.id, op.next, now)), FromSource(source));
      }
      hide DecisionFor, IsNextWindow;
    } else {
      CountsOnlyGrowByRequests(s, op, now, s', FromSource(source));
      hide Step;
    }
  }

  /** The same for a target. */
  lemma TargetLimitIsExceeded(s: State, op: Op, now: Time, s': State, target: string)
    requires Step(s, op, now, s') && target in s.setup.targets && s.setup.targets[target] > 0
    requires Count(s.entries, ToTarget(target)) <= s.setup.targets[target]
    ensures Count(s'.entries, ToTarget(target)) > s.setup.targets[target] <==>
              GrantsTo(s, op, now, target) && Count(s.entries, ToTarget(target)) == s.setup.targets[target]
    ensures GrantsTo(s, op, now, target) ==> Get(s.targetImports, target) < s.setup.targets[target]
  {
    if op.RequestCommand? {
      if Decidable(s, op.id) {
        GrantsRespectLimits(s, op.id, op.next, now);
        DecisionEffect(s, op.id, op.next, now);
        CountAfterUpdate(s.entries, op.id, Decided(s.entries[op.id], DecisionFor(s, op.id, op.next, now)), ToTarget(target));
      }
      hide DecisionFor, IsNextWindow;
    } else {
      CountsOnlyGrowByRequests(s, op, now, s', ToTarget(target));
      hide Step;
    }
  }

  /** From exact counters, with the source at its limit, the success of a post-import task of the same source
      opens a slot although as many entries import from it as before. */
  lemma PostImportOpensSlot(s: State, id: InstanceId, message: Message, now: Time)
    requires Exact(s) && Accepts(s, id, Success) && s.entries[id].status == PostImport
    requires s.entries[id].source in s.setup.sources && s.setup.sources[s.entries[id].source] > 0
    requires Count(s.entries, FromSource(s.entries[id].source)) == s.setup.sources[s.entries[id].source]
    ensures var s', src := Report(s, id, Success, message, now).state, s.entries[id].source;
            && !LimitReached(s'.setup.sources[src], Get(s'.sourceImports, src))
            && Count(s'.entries, FromSource(src)) == s'.setup.sources[src]
  {
    var e' := Reported(s.entries[id], Success, message, now);
    CountAfterUpdate(s.entries, id, e', FromSource(s.entries[id].source));
  }

  /** The slot is then taken: an idle entry of the same source that waits for its first sync is granted one, and
      the source serves one import more than its limit. */
  lemma PostImportExceedsLimit(s: State, id: InstanceId, other: InstanceId, next: NextWindow, message: Message, done: Time, asked: Time)
    requires Exact(s) && Accepts(s, id, Success) && s.entries[id].status == PostImport
    requires s.entries[id].source in s.setup.sources && s.setup.sources[s.entries[id].source] > 0
    requires Count(s.entries, FromSource(s.entries[id].source)) == s.setup.sources[s.entries[id].source]
    requires Decidable(s, other) && s.entries[other].source == s.entries[id].source
    requires s.entries[other].stage == Background && s.instances[other].SupportsBackgroundImport()
    requires !LimitReached(s.setup.targets[s.entries[other].target], Get(s.targetImports, s.entries[other].target))
    requires !LimitReached(s.batches[s.entries[other].batch].syncLimit, Get(s.batchImports, s.entries[other].batch))
    ensures var s', src := Report(s, id, Success, message, done).state, s.entries[id].source;
            && Request(s', other, next, asked).reply == Ok(ImportDisks)
            && Count(Request(s', other, next, asked).state.entries, FromSource(src)) == s.setup.sources[src] + 1
  {
    var s', src := Report(s, id, Success, message, done).state, s.entries[id].source;
    PostImportOpensSlot(s, id, message, done);
    var d := DecisionFor(s', other, next, asked);
    assert d == Move(BackgroundImport, Background, s'.entries[other].window);
    CountAfterUpdate(s'.entries, other, Decided(s'.entries[other], d), FromSource(src));
    hide DecisionFor, Count;
  }

  /** Two steps over the limit: a source for one import has one import under way, counted exactly, and a
      post-import task; its success and the next request make it two. */
  lemma LimitIsExceeded() returns (s: State, report: Op, s': State, request: Op, s'': State, now: Time, source: string)
    ensures Inv(s) && Exact(s) && WithinLimits(s)
    ensures Step(s, report, now, s') && Step(s', request, now, s'')
    ensures source in s.setup.sources && s.setup.sources[source] == 1 == Count(s.entries, FromSource(source))
    ensures Count(s''.entries, FromSource(source)) == 2
  {
    hide Inv, Exact, WithinLimits;
    s, source := AtItsLimit();
    now := 1;
    report := WorkerReport(0, Success, InitialChecks);
    s' := Report(s, 0, Success, InitialChecks, now).state;
    var next := NextWindowExists(s', 2, s'.entries[2], now);
    PostImportExceedsLimit(s, 0, 2, next, InitialChecks, now, now);
    hide IsNextWindow, Request, Report, Count;
    request := RequestCommand(2, next);
    s'' := Request(s', 2, next, now).state;
  }

  lemma AtItsLimit() returns (s: State, source: string)
    ensures Inv(s) && Exact(s) && WithinLimits(s)
    ensures 0 in s.entries && s.entries[0].status == PostImport && s.entries[0].source == source && Accepts(s, 0, Success)
    ensures Decidable(s, 2) && s.entries[2].source == source && s.entries[2].stage == Background
    ensures s.instances[2].SupportsBackgroundImport() && s.entries[2].batch in s.batches
    ensures s.setup.targets[s.entries[2].target] == 0 && s.batches[s.entries[2].batch].syncLimit == 0
    ensures source in s.setup.sources && s.setup.sources[source] == 1 == Count(s.entries, FromSource(source))
  {
    source := ['a'];
    var devices, one := InstanceSync.Devices([], true, [], []), map[source := 1];
    var post := Entry(source, source, source, PostImport, InitialChecks, Complete, Running, 1, None);
    var importing := post.(status := BackgroundImport, stage := Background);
    var waiting := importing.(status := Idle);
    s := State(Setup(one, map[source := 0], map[]), map[0 := post, 1 := importing, 2 := waiting], map[],
               map[source := Batch(Started, [], 0, 2, 1, false)], map[0 := devices, 1 := devices, 2 := devices], one, one, one);
    assert Inv(s);
    hide Inv;
    forall k
      ensures Count(s.entries, FromSource(k)) == Weight(k == source) && Count(s.entries, ToTarget(k)) == Weight(k == source)
    {
      assert Picked(s.entries, FromSource(k)) == if k == source then {1} else {};
      assert Picked(s.entries, ToTarget(k)) == if k == source then {1} else {};
    }
    hide Count, Picked, Selects;
  }

  /** A fresh server has exact counters, all within their limits. */
  lemma FreshIsExact(s: State)
    requires Initial(s)
    ensures Exact(s) && SyncsExact(s) && EndpointsCovered(s) && SyncsCovered(s) && WithinLimits(s)
  {
    forall q
      ensures Count(s.entries, q) == 0
    {
      NothingQueued(s, q);
    }
  }

  // ---- Exact batch counters ------------------------------------------------------------------------

  /** Every batch counter is the number of the batch's background imports. */
  ghost predicate SyncsExact(s: State) {
    forall b :: Get(s.batchImports, b) == Count(s.entries, Syncing(b))
  }

  /** A background import that is cancelled, or reported with an unknown response, throws its batch's counter off. */
  predicate SyncDrifts(s: State, op: Op) {
    && (op.CancelEntry? || (op.WorkerReport? && op.response == Unknown && op.id in s.instances))
    && op.id in s.entries && s.entries[op.id].status == BackgroundImport
  }

  lemma SyncIsCounted(s: State, id: InstanceId)
    requires id in s.entries && s.entries[id].status == BackgroundImport
    ensures Count(s.entries, Syncing(s.entries[id].batch)) > 0
  {
    assert id in Picked(s.entries, Syncing(s.entries[id].batch));
  }

  lemma ReportMovesSyncs(s: State, op: Op, now: Time, s': State, b: string)
    requires SyncsExact(s) && op.WorkerReport? && Step(s, op, now, s')
    ensures Get(s'.batchImports, b) == Count(s'.entries, Syncing(b)) <==> !(SyncDrifts(s, op) && s.entries[op.id].batch == b)
  {
    if Accepts(s, op.id, op.response) {
      CountAfterUpdate(s.entries, op.id, Reported(s.entries[op.id], op.response, op.message, now), Syncing(b));
      if s.entries[op.id].status == BackgroundImport {
        SyncIsCounted(s, op.id);
      }
    }
    hide Count;
  }

  lemma EntryStepMovesSyncs(s: State, op: Op, now: Time, s': State, b: string)
    requires op.CancelEntry? || op.DaemonStep? || op.RetryEntry?
    requires SyncsExact(s) && Step(s, op, now, s')
    ensures Get(s'.batchImports, b) == Count(s'.entries, Syncing(b)) <==> !(SyncDrifts(s, op) && s.entries[op.id].batch == b)
  {
    OtherStepsKeepCounters(s, op, now, s');
    if s' != s {
      EntryStepImporting(s, op, now, s');
      EntryStepStartsNoImport(s, op, now, s');
      CountAfterUpdate(s.entries, op.id, s'.entries[op.id], Syncing(b));
      hide Step, Count;
    } else {
      EntryStepIdle(s, op, now);
      hide Step, Count;
    }
  }

  lemma ResetKeepsSyncsExact(s: State, op: Op, now: Time, s': State, b: string)
    requires SyncsExact(s) && op.Reset? && Step(s, op, now, s')
    ensures Get(s'.batchImports, b) == Count(s'.entries, Syncing(b))
  {
    hide Step, ImportingFrom, ImportingTo;
    if s' != s {
      var gone := OfBatch(s.entries, op.name);
      ResetEffect(s, op, now, s');
      CountAfterRemoval(s.entries, gone, Syncing(b));
      assert SyncingIn(s.entries, gone, b) == Picked(s.entries, Syncing(b)) * gone;
    }
  }

  /** Batch counters stay exact through a step, resets of any batch included, if and only if it neither cancels a
      background import nor reports one with an unknown response. */
  lemma SyncsExactIsKept(s: State, op: Op, now: Time, s': State)
    requires SyncsExact(s) && Step(s, op, now, s')
    ensures SyncsExact(s') <==> !SyncDrifts(s, op)
  {
    hide Step, Count;
    forall b
      ensures Get(s'.batchImports, b) == Count(s'.entries, Syncing(b)) <==> !(SyncDrifts(s, op) && s.entries[op.id].batch == b)
    {
      if op.RequestCommand? {
        RequestStepKeepsSyncs(s, op, now, s', b);
      } else if op.WorkerReport? {
        ReportMovesSyncs(s, op, now, s', b);
      } else if op.CancelEntry? || op.DaemonStep? || op.RetryEntry? {
        EntryStepMovesSyncs(s, op, now, s', b);
      } else if op.Reset? {
        ResetKeepsSyncsExact(s, op, now, s', b);
      } else {
        OtherStepsKeepCounters(s, op, now, s');
        TableStepKeepsCounts(s, op, now, s', Syncing(b));
      }
    }
    if SyncDrifts(s, op) {
      var b := s.entries[op.id].batch;
      assert !(Get(s'.batchImports, b) == Count(s'.entries, Syncing(b)));
    }
  }

  lemma RequestStepKeepsSyncs(s: State, op: Op, now: Time, s': State, b: string)
    requires SyncsExact(s) && op.RequestCommand? && Step(s, op, now, s')
    ensures Get(s'.batchImports, b) == Count(s'.entries, Syncing(b))
  {
    hide DecisionFor, IsNextWindow;
    if Decidable(s, op.id) {
      RequestCountsSyncs(s, op.id, op.next, now, b);
    }
  }
}
