/** Concurrency limits: constraints on final imports, sync limits of batches, import limits of sources
    and targets, and how far the counters behind them can be trusted. */
module ImportLimits {
  import opened Common
  import opened Windows
  import opened Queue
  import opened Counting
  import opened WindowSafety

  // ---- How a step moves a count ------------------------------------------------------------------

  /** Queries about imports. */
  ghost predicate AboutImports(q: Query) {
    q.Syncing? || q.FromSource? || q.ToTarget? || q.FinalUnder?
  }

  /** Only a request that starts an import adds to a count of imports. */
  lemma CountsOnlyGrowByRequests(s: State, op: Op, now: Time, s': State, q: Query)
    requires AboutImports(q) && !op.RequestCommand? && Step(s, op, now, s')
    ensures Count(s'.entries, q) <= Count(s.entries, q)
  {
    hide AboutImports, Step;
    if op.WorkerReport? || op.CancelEntry? || op.RetryEntry? || op.DaemonStep? {
      EntryStepLowersCount(s, op, now, s', q);
    } else {
      TableStepLowersCount(s, op, now, s', q);
    }
  }

  lemma TableStepLowersCount(s: State, op: Op, now: Time, s': State, q: Query)
    requires op.DeleteEntry? || op.Start? || op.Stop? || op.Reset? || op.SetWindows? || op.DropWindow? || op.SyncInstance?
    requires AboutImports(q) && Step(s, op, now, s')
    ensures Count(s'.entries, q) <= Count(s.entries, q)
  {
    if op.Start? {
      StartLowersCount(s, op, now, s', q);
    } else if s' != s {
      hide StartBatch, Released, AboutImports;
      if op.DeleteEntry? {
        CountAfterRemoval(s.entries, {op.id}, q);
      } else if op.Reset? {
        CountAfterRemoval(s.entries, OfBatch(s.entries, op.name), q);
      }
    }
  }

  lemma StartLowersCount(s: State, op: Op, now: Time, s': State, q: Query)
    requires op.Start? && AboutImports(q) && Step(s, op, now, s')
    ensures Count(s'.entries, q) <= Count(s.entries, q)
  {
    hide StartBatch;
    if s' != s {
      var added := StartEffect(s, op.name, op.candidates, now, s');
      CountAfterAddition(s.entries, added, q);
    }
  }

  /** Reports, cancellations, retries and daemon moves start no import and keep where an import goes. */
  lemma EntryStepStartsNoImport(s: State, op: Op, now: Time, s': State)
    requires op.WorkerReport? || op.CancelEntry? || op.RetryEntry? || op.DaemonStep?
    requires Step(s, op, now, s') && s' != s
    ensures op.id in s.entries && op.id in s'.entries && s'.entries == s.entries[op.id := s'.entries[op.id]]
    ensures var e, e' := s.entries[op.id], s'.entries[op.id];
            e'.IsImporting() ==> e'.status == e.status && e'.target == e.target
    ensures s'.entries[op.id].batch == s.entries[op.id].batch && s'.entries[op.id].source == s.entries[op.id].source
  {
    match op
    case WorkerReport(_, _, _) =>
    case CancelEntry(_) =>
    case RetryEntry(_, _) =>
    case DaemonStep(_, _, _) =>
  }

  lemma EntryStepLowersCount(s: State, op: Op, now: Time, s': State, q: Query)
    requires op.WorkerReport? || op.CancelEntry? || op.RetryEntry? || op.DaemonStep?
    requires AboutImports(q) && Step(s, op, now, s')
    ensures Count(s'.entries, q) <= Count(s.entries, q)
  {
    if s' != s {
      EntryStepStartsNoImport(s, op, now, s');
      hide Step;
      CountAfterUpdate(s.entries, op.id, s'.entries[op.id], q);
    }
  }

  // ---- Constraints -------------------------------------------------------------------------------

  /** For every constraint with a limit: no more entries of the batch that select it are in final import. */
  ghost predicate FinalImportsBounded(s: State) {
    forall b, c | b in s.batches && c in s.batches[b].constraints && c.max > 0 ::
      Count(s.entries, FinalUnder(b, s.batches[b].constraints, s.setup.criteria, c)) <= c.max
  }

  /** Batches keep the terms the limits are read from; only their status changes. */
  ghost predicate SameTerms(s: State, s': State) {
    && s'.setup == s.setup
    && (forall b | b in s'.batches ::
          b in s.batches && s'.batches[b].constraints == s.batches[b].constraints && s'.batches[b].syncLimit == s.batches[b].syncLimit)
  }

  lemma StepKeepsTerms(s: State, op: Op, now: Time, s': State)
    requires Step(s, op, now, s')
    ensures SameTerms(s, s')
  {
    hide DecisionFor, IsNextWindow, Decided, Reported, AfterMove, Requested, WithWindows, ReplacementAllowed, Record, Release;
    hide StartBatch, StopBatch, ResetBatch;
    match op
    case Start(name, candidates) => StartKeepsTerms(s, name, candidates, now);
    case Stop(name) => StopKeepsTerms(s, name);
    case Reset(name, force) =>
      var o :| ResetBatch(s, name, force, o) && s' == o.state;
      ResetKeepsTerms(s, name, force, o);
    case _ =>
  }

  lemma StartKeepsTerms(s: State, name: string, candidates: map<InstanceId, Candidate>, now: Time)
    ensures SameTerms(s, StartBatch(s, name, candidates, now).state)
  {
    hide NewEntry, HasValidWindow;
  }

  lemma StopKeepsTerms(s: State, name: string)
    ensures SameTerms(s, StopBatch(s, name).state)
  {
  }

  lemma ResetKeepsTerms(s: State, name: string, force: bool, o: Outcome<()>)
    requires ResetBatch(s, name, force, o)
    ensures SameTerms(s, o.state)
  {
    hide Released, OfBatch;
  }

  /** When a final import is granted to an entry that selects `c`, all rivals and the entry itself fit
      within the limit of `c`. The entry holds no window yet, so the limit was applied to it. */
  lemma FinalGrantRespectsConstraint(s: State, id: InstanceId, next: NextWindow, now: Time, c: Constraint)
    requires Inv(s) && Decidable(s, id) && IsNextWindow(s, id, s.entries[id], now, next)
    requires var d := DecisionFor(s, id, next, now); d.Move? && d.status == FinalImport
    requires Select(s.setup.criteria, s.batches[s.entries[id].batch].constraints, id) == Some(Some(c)) && c.max > 0
    ensures |Matching(s, Considered(s.entries, s.entries[id].batch, id), c.expr)| <= c.max
  {
    var e := s.entries[id];
    assert next.Chosen?;
    assert Disciplined(e) && e.window.None?;
  }

  lemma RequestKeepsFinalBound(s: State, id: InstanceId, next: NextWindow, now: Time, b: string, c: Constraint)
    requires Inv(s) && Decidable(s, id) && IsNextWindow(s, id, s.entries[id], now, next) && FinalImportsBounded(s)
    requires b in s.batches && c in s.batches[b].constraints && c.max > 0
    ensures Count(Request(s, id, next, now).state.entries, FinalUnder(b, s.batches[b].constraints, s.setup.criteria, c)) <= c.max
  {
    var e, d := s.entries[id], DecisionFor(s, id, next, now);
    var e', q := Decided(e, d), FinalUnder(b, s.batches[b].constraints, s.setup.criteria, c);
    CountAfterUpdate(s.entries, id, e', q);
    if Selects(q, id, e') {
      FinalGrantRespectsConstraint(s, id, next, now, c);
      SelectedRivalsMatch(s, id, e', b, c);
      SubsetIsSmaller(Picked(s.entries[id := e'], q), Matching(s, Considered(s.entries, b, id), c.expr));
    }
    hide DecisionFor, IsNextWindow, Inv, Selects, Matching, Considered;
  }

  lemma SelectedRivalsMatch(s: State, id: InstanceId, e': Entry, b: string, c: Constraint)
    requires id in s.entries && b in s.batches && s.entries[id].batch == b && s.entries[id].status == Idle
    ensures Picked(s.entries[id := e'], FinalUnder(b, s.batches[b].constraints, s.setup.criteria, c))
         <= Matching(s, Considered(s.entries, b, id), c.expr)
  {
  }

  lemma RequestStepKeepsFinalBound(s: State, op: Op, now: Time, s': State, b: string, c: Constraint)
    requires Inv(s) && op.RequestCommand? && FinalImportsBounded(s) && Step(s, op, now, s')
    requires b in s.batches && c in s.batches[b].constraints && c.max > 0
    ensures Count(s'.entries, FinalUnder(b, s.batches[b].constraints, s.setup.criteria, c)) <= c.max
  {
    hide Inv, IsNextWindow, DecisionFor;
    if Decidable(s, op.id) {
      RequestKeepsFinalBound(s, op.id, op.next, now, b, c);
    }
    hide Count;
  }

  lemma StepKeepsFinalBound(s: State, op: Op, now: Time, s': State)
    requires Inv(s) && FinalImportsBounded(s) && Step(s, op, now, s')
    ensures FinalImportsBounded(s')
  {
    hide Step, Inv, Count;
    StepKeepsTerms(s, op, now, s');
    forall b, c | b in s'.batches && c in s'.batches[b].constraints && c.max > 0
      ensures Count(s'.entries, FinalUnder(b, s'.batches[b].constraints, s'.setup.criteria, c)) <= c.max
    {
      if op.RequestCommand? {
        RequestStepKeepsFinalBound(s, op, now, s', b, c);
      } else {
        CountsOnlyGrowByRequests(s, op, now, s', FinalUnder(b, s.batches[b].constraints, s.setup.criteria, c));
      }
    }
  }

  lemma NothingQueued(s: State, q: Query)
    requires Initial(s)
    ensures Count(s.entries, q) == 0
  {
  }

  lemma FreshIsBounded(s: State)
    requires Initial(s)
    ensures FinalImportsBounded(s)
  {
  }

  /** At no moment of any run, from a fresh server or any safe state within bounds, do more than N entries of
      a batch that select a constraint with limit N perform their final import. */
  lemma {:induction false} FinalImportBound(r: Run, k: nat)
    requires r.Legal() && Inv(r.states[0]) && FinalImportsBounded(r.states[0]) && k < |r.states|
    ensures FinalImportsBounded(r.states[k])
  {
    hide Step, Inv, FinalImportsBounded;
    if k > 0 {
      FinalImportBound(r, k - 1);
      AssignmentsAreSafe(r, k - 1);
      StepKeepsFinalBound(r.states[k - 1], r.ops[k - 1], r.times[k - 1], r.states[k]);
    }
  }
}
