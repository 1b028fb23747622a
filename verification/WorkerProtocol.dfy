/** What workers are told: commands and stored statuses, background top-ups, and the point of no return. */
module WorkerProtocol {
  import opened Common
  import opened Windows
  import opened Queue
  import opened Counting
  import opened WindowSafety
  import opened ImportLimits

  // ---- Commands ------------------------------------------------------------------------------------

  ghost predicate StartsImport(c: Command) {
    c == ImportDisks || c == FinalizeImport
  }

  /** A successful request returns the command of the status it leaves. A worker that already runs one is
      told the same again and nothing changes, so an import is counted exactly when it is granted to an
      idle entry. */
  lemma NoImportIsGrantedTwice(s: State, id: InstanceId, next: NextWindow, now: Time)
    ensures var o := Request(s, id, next, now);
            && (o.reply.Err? ==> o.state == s)
            && (o.reply.Ok? ==>
                  && id in s.entries && id in o.state.entries
                  && o.reply.value == CommandFor(o.state.entries[id].status)
                  && (s.entries[id].status != Idle ==> o.state == s && o.reply.value != DoNothing)
                  && (s.entries[id].status == Idle ==>
                        var e, granted := s.entries[id], StartsImport(o.reply.value);
                        && (forall k :: Get(o.state.sourceImports, k) == Get(s.sourceImports, k) + Weight(granted && k == e.source))
                        && (forall k :: Get(o.state.targetImports, k) == Get(s.targetImports, k) + Weight(granted && k == e.target))
                        && (forall k :: Get(o.state.batchImports, k) ==
                              Get(s.batchImports, k) + Weight(o.reply.value == ImportDisks && k == e.batch))))
  {
    hide Decide, Record;
    if Decidable(s, id) {
      DecisionEffect(s, id, next, now);
      hide DecisionFor;
    }
  }

  // ---- Background top-ups --------------------------------------------------------------------------

  /** A repeated background sync issued against a known window leaves at least the final sync limit until
      the window starts. */
  lemma TopUpsKeepTheirDistance(s: State, id: InstanceId, next: NextWindow, now: Time)
    requires Decidable(s, id) && s.batches[s.entries[id].batch].ValidSyncBounds()
    requires s.entries[id].stage == Final && next.Chosen?
    requires Request(s, id, next, now).reply == Ok(ImportDisks)
    ensures next.w.start - now >= s.batches[s.entries[id].batch].finalSyncLimit > 0
    ensures !next.w.Begun(now) && s.entries[id].lastSync != ZERO_TIME && s.instances[id].SupportsBackgroundImport()
  {
  }

  /** A top-up is never issued later than the limit allows, and within an interval of the last sync it is
      issued whenever the limit allows it and no import limit is in the way. */
  lemma TopUpsNearTheWindow(s: State, id: InstanceId, next: NextWindow, now: Time)
    requires Decidable(s, id) && s.batches[s.entries[id].batch].ValidSyncBounds()
    requires s.entries[id].stage == Final && s.entries[id].lastSync != ZERO_TIME && s.instances[id].SupportsBackgroundImport()
    requires next.Chosen? && !next.w.Begun(now)
    requires next.w.start - s.entries[id].lastSync < s.batches[s.entries[id].batch].syncInterval
    requires !LimitReached(s.setup.sources[s.entries[id].source], Get(s.sourceImports, s.entries[id].source))
    requires !LimitReached(s.setup.targets[s.entries[id].target], Get(s.targetImports, s.entries[id].target))
    requires !LimitReached(s.batches[s.entries[id].batch].syncLimit, Get(s.batchImports, s.entries[id].batch))
    ensures Request(s, id, next, now).reply == Ok(ImportDisks) <==>
              next.w.start - now >= s.batches[s.entries[id].batch].finalSyncLimit
  {
  }

  // ---- The point of no return ------------------------------------------------------------------------

  /** The daemon's moves out of the committed statuses. */
  ghost predicate Ends(e: Entry, m: DaemonMove) {
    match m
    case Finish | FinishFailed | CheckFailed => e.status == WorkerDone
    case MissDeadline => e.status == FinalImport || e.status == PostImport || e.status == WorkerDone
    case _ => false
  }

  /** The steps that take a committed entry back, or out of the queue, and are not refused. */
  ghost predicate Withdraws(s: State, op: Op, id: InstanceId)
    requires id in s.entries
  {
    var e := s.entries[id];
    match op
    case CancelEntry(i) => i == id
    case DeleteEntry(i) => i == id && e.status == Conflict
    case WorkerReport(i, response, _) => i == id && response == Failed && e.IsMigrating() && id in s.instances
    case Reset(name, force) => name == e.batch && force && name in s.batches && s.batches[name].status != Defined
    case DaemonStep(i, m, _) => i == id && Ends(e, m)
    case _ => false
  }

  /** A step about one entry leaves every other entry as it was. */
  lemma OthersUntouched(s: State, op: Op, now: Time, s': State, id: InstanceId)
    requires op.WorkerReport? || op.CancelEntry? || op.RetryEntry? || op.DaemonStep? || op.DeleteEntry?
    requires id in s.entries && op.id != id && Step(s, op, now, s')
    ensures id in s'.entries && s'.entries[id] == s.entries[id]
  {
    hide Reported, AfterMove;
  }

  lemma ReportCommitment(s: State, op: Op, now: Time, s': State, id: InstanceId)
    requires op.WorkerReport? && op.id == id && Step(s, op, now, s')
    requires id in s.entries && Disciplined(s.entries[id]) && s.entries[id].IsCommitted()
    ensures id in s'.entries && s'.entries[id].IsCommitted() <==> !Withdraws(s, op, id)
  {
  }

  lemma MoveEndsCommitment(e: Entry, m: DaemonMove, message: Message)
    requires Disciplined(e) && e.IsCommitted()
    ensures AfterMove(e, m, message).Some? ==> (AfterMove(e, m, message).value.IsCommitted() <==> !Ends(e, m))
    ensures AfterMove(e, m, message).None? ==> !Ends(e, m)
  {
  }

  lemma MoveCommitment(s: State, op: Op, now: Time, s': State, id: InstanceId)
    requires op.DaemonStep? && op.id == id && Step(s, op, now, s')
    requires id in s.entries && Disciplined(s.entries[id]) && s.entries[id].IsCommitted()
    ensures id in s'.entries && s'.entries[id].IsCommitted() <==> !Withdraws(s, op, id)
  {
    MoveEndsCommitment(s.entries[id], op.move, op.message);
    hide AfterMove, Ends, Disciplined;
  }

  lemma AdministrationCommitment(s: State, op: Op, now: Time, s': State, id: InstanceId)
    requires (op.CancelEntry? || op.RetryEntry? || op.DeleteEntry?) && op.id == id && Step(s, op, now, s')
    requires id in s.entries && Disciplined(s.entries[id]) && s.entries[id].IsCommitted()
    ensures id in s'.entries && s'.entries[id].IsCommitted() <==> !Withdraws(s, op, id)
  {
    hide Reported, AfterMove, IsNextWindow, Request;
    match op
    case CancelEntry(_) =>
    case RetryEntry(_, _) =>
    case DeleteEntry(_) =>
  }

  lemma EntryStepCommitment(s: State, op: Op, now: Time, s': State, id: InstanceId)
    requires op.WorkerReport? || op.CancelEntry? || op.RetryEntry? || op.DaemonStep? || op.DeleteEntry?
    requires id in s.entries && Disciplined(s.entries[id]) && s.entries[id].IsCommitted() && Step(s, op, now, s')
    ensures id in s'.entries && s'.entries[id].IsCommitted() <==> !Withdraws(s, op, id)
  {
    hide Step, Disciplined;
    if op.id != id {
      OthersUntouched(s, op, now, s', id);
    } else if op.WorkerReport? {
      ReportCommitment(s, op, now, s', id);
    } else if op.DaemonStep? {
      MoveCommitment(s, op, now, s', id);
    } else {
      AdministrationCommitment(s, op, now, s', id);
    }
  }

  lemma RequestStepKeepsCommitment(s: State, op: Op, now: Time, s': State, id: InstanceId)
    requires op.RequestCommand? && Step(s, op, now, s')
    requires id in s.entries && Disciplined(s.entries[id]) && s.entries[id].IsCommitted()
    ensures id in s'.entries && s'.entries[id].IsCommitted()
  {
    hide IsNextWindow;
    if Decidable(s, op.id) {
      DecisionEffect(s, op.id, op.next, now);
    }
    hide DecisionFor;
  }

  lemma ResetCommitment(s: State, op: Op, now: Time, s': State, id: InstanceId)
    requires op.Reset? && id in s.entries && s.entries[id].IsCommitted() && Step(s, op, now, s')
    ensures id in s'.entries && s'.entries[id].IsCommitted() <==> !Withdraws(s, op, id)
  {
    assert s.entries[id].batch == op.name ==> id in OfBatch(s.entries, op.name);
    hide Released;
  }

  lemma TableStepCommitment(s: State, op: Op, now: Time, s': State, id: InstanceId)
    requires op.Start? || op.Stop? || op.SetWindows? || op.DropWindow? || op.SyncInstance?
    requires id in s.entries && Step(s, op, now, s')
    ensures id in s'.entries && s'.entries[id] == s.entries[id] && !Withdraws(s, op, id)
  {
    hide NewEntry, HasValidWindow, WithWindows, Requested, ReplacementAllowed;
  }

  /** A committed entry stays committed exactly until a failure, a cancellation, a deletion out of a conflict,
      a forced reset or one of the daemon's final moves. */
  lemma CommitmentPersists(s: State, op: Op, now: Time, s': State, id: InstanceId)
    requires Inv(s) && id in s.entries && s.entries[id].IsCommitted() && Step(s, op, now, s')
    ensures id in s'.entries && s'.entries[id].IsCommitted() <==> !Withdraws(s, op, id)
  {
    assert Disciplined(s.entries[id]);
    hide Step, Inv, Disciplined, Request;
    if op.RequestCommand? {
      RequestStepKeepsCommitment(s, op, now, s', id);
    } else if op.Reset? {
      ResetCommitment(s, op, now, s', id);
    } else if op.Start? || op.Stop? || op.SetWindows? || op.DropWindow? || op.SyncInstance? {
      TableStepCommitment(s, op, now, s', id);
    } else {
      EntryStepCommitment(s, op, now, s', id);
    }
  }

  // ---- After the final import ------------------------------------------------------------------------

  /** The daemon's moves that start a complete entry over. */
  predicate SendsBack(e: Entry, m: DaemonMove) {
    (m == FinishFailed && e.status == WorkerDone) || (m == MissDeadline && (e.status == PostImport || e.status == WorkerDone))
  }

  /** The steps that take a complete entry back to an earlier stage, or out of the queue, and are not refused. */
  ghost predicate Reopens(s: State, op: Op, id: InstanceId)
    requires id in s.entries
  {
    var e := s.entries[id];
    match op
    case CancelEntry(i) => i == id && e.status != Finished
    case DeleteEntry(i) => i == id && !e.IsMigrating()
    case Reset(name, force) =>
      && name == e.batch && name in s.batches && s.batches[name].status != Defined
      && (force || forall i | i in OfBatch(s.entries, name) :: !s.entries[i].IsCommitted())
    case DaemonStep(i, m, _) => i == id && SendsBack(e, m)
    case _ => false
  }

  /** The entry of `id` is there and its import is complete. */
  ghost predicate CompleteIn(s: State, id: InstanceId) {
    id in s.entries && s.entries[id].stage == Complete
  }

  /** A complete entry stays complete through a step exactly until it is cancelled, deleted, reset or sent back
      by the daemon; a step that is refused, or that cannot happen to a complete entry, changes nothing. */
  lemma StepKeepsComplete(s: State, op: Op, now: Time, s': State, id: InstanceId)
    requires Inv(s) && CompleteIn(s, id) && Step(s, op, now, s')
    ensures CompleteIn(s', id) <==> !Reopens(s, op, id)
  {
    hide Step;
    assert Disciplined(s.entries[id]);
    hide Inv, Disciplined;
    if op.RequestCommand? {
      RequestKeepsComplete(s, op, now, s', id);
    } else if op.Reset? {
      ResetReopens(s, op, now, s', id);
    } else if op.Start? || op.Stop? || op.SetWindows? || op.DropWindow? || op.SyncInstance? {
      TableStepCommitment(s, op, now, s', id);
    } else if op.id != id {
      OthersUntouched(s, op, now, s', id);
    } else if op.WorkerReport? {
      ReportKeepsComplete(s, op, now, s', id);
    } else if op.DaemonStep? {
      MoveReopens(s, op, now, s', id);
    } else {
      AdministrationReopens(s, op, now, s', id);
    }
  }

  lemma RequestKeepsComplete(s: State, op: Op, now: Time, s': State, id: InstanceId)
    requires op.RequestCommand? && CompleteIn(s, id) && Disciplined(s.entries[id]) && Step(s, op, now, s')
    ensures CompleteIn(s', id)
    ensures op.id == id && Request(s, id, op.next, now).reply.Ok? ==>
              !StartsImport(Request(s, id, op.next, now).reply.value)
  {
    hide IsNextWindow;
    if Decidable(s, op.id) {
      DecisionEffect(s, op.id, op.next, now);
    }
    hide DecisionFor;
  }

  lemma ResetReopens(s: State, op: Op, now: Time, s': State, id: InstanceId)
    requires op.Reset? && CompleteIn(s, id) && Step(s, op, now, s')
    ensures CompleteIn(s', id) <==> !Reopens(s, op, id)
  {
    assert s.entries[id].batch == op.name <==> id in OfBatch(s.entries, op.name);
    hide Released, OfBatch;
  }

  lemma ReportKeepsComplete(s: State, op: Op, now: Time, s': State, id: InstanceId)
    requires op.WorkerReport? && op.id == id
    requires CompleteIn(s, id) && Disciplined(s.entries[id]) && Step(s, op, now, s')
    ensures CompleteIn(s', id)
  {
  }

  lemma MoveOfComplete(e: Entry, m: DaemonMove, message: Message)
    requires Disciplined(e) && e.stage == Complete
    ensures AfterMove(e, m, message).Some? ==> (AfterMove(e, m, message).value.stage == Complete <==> !SendsBack(e, m))
    ensures AfterMove(e, m, message).None? ==> !SendsBack(e, m)
  {
  }

  lemma MoveReopens(s: State, op: Op, now: Time, s': State, id: InstanceId)
    requires op.DaemonStep? && op.id == id
    requires CompleteIn(s, id) && Disciplined(s.entries[id]) && Step(s, op, now, s')
    ensures CompleteIn(s', id) <==> !Reopens(s, op, id)
  {
    MoveOfComplete(s.entries[id], op.move, op.message);
    hide AfterMove, SendsBack, Disciplined;
  }

  lemma AdministrationReopens(s: State, op: Op, now: Time, s': State, id: InstanceId)
    requires (op.CancelEntry? || op.RetryEntry? || op.DeleteEntry?) && op.id == id
    requires CompleteIn(s, id) && Disciplined(s.entries[id]) && Step(s, op, now, s')
    ensures CompleteIn(s', id) <==> !Reopens(s, op, id)
  {
    match op
    case CancelEntry(_) =>
    case RetryEntry(_, _) =>
    case DeleteEntry(_) =>
  }

  lemma CompleteIsDisciplined(s: State, id: InstanceId)
    requires Inv(s) && CompleteIn(s, id)
    ensures Disciplined(s.entries[id])
  {
  }

  /** Once an import is complete it stays so, and its worker is never again told to import or to finalize,
      over any stretch of a run in which no step that succeeds reopens the entry. */
  lemma {:induction false} CompleteMeansNoMoreImports(r: Run, id: InstanceId, from: nat, k: nat)
    requires r.Legal() && Inv(r.states[0]) && from <= k < |r.states|
    requires CompleteIn(r.states[from], id)
    requires forall j | from <= j < k && id in r.states[j].entries :: !Reopens(r.states[j], r.ops[j], id)
    ensures CompleteIn(r.states[k], id)
    ensures forall j | from <= j < k && r.ops[j].RequestCommand? && r.ops[j].id == id ::
              var reply := Request(r.states[j], id, r.ops[j].next, r.times[j]).reply;
              reply.Ok? ==> !StartsImport(reply.value)
  {
    hide Step, Inv, Reopens, Request;
    if from < k {
      CompleteMeansNoMoreImports(r, id, from, k - 1);
      AssignmentsAreSafe(r, k - 1);
      var s, op, s' := r.states[k - 1], r.ops[k - 1], r.states[k];
      StepKeepsComplete(s, op, r.times[k - 1], s', id);
      if op.RequestCommand? && op.id == id {
        CompleteIsDisciplined(s, id);
        RequestKeepsComplete(s, op, r.times[k - 1], s', id);
      }
    }
  }
}
