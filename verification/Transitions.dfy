/** Which operation takes an entry from which status to which, and what administration accepts. */
module Transitions {
  import opened Common
  import opened Windows
  import opened Queue
  import opened Answers
  import opened WorkerProtocol

  // ---- Administration of entries -----------------------------------------------------------------------------

  /** Every entry but a finished one can be cancelled; it then holds no window and starts over. */
  lemma CancelMeans(s: State, id: InstanceId)
    ensures var o := Cancel(s, id);
            && (id !in s.entries ==> o == Outcome(s, Err(NotFound)))
            && (id in s.entries && s.entries[id].status == Finished ==> o == Outcome(s, Err(Invalid)))
            && (id in s.entries && s.entries[id].status != Finished ==>
                  && o.reply.Ok? && id in o.state.entries
                  && var e, e' := s.entries[id], o.state.entries[id];
                     && o.state == s.(entries := s.entries[id := e'])
                     && e'.status == Canceled && e'.stage == Background && e'.window == None
                     && e'.batch == e.batch && e'.source == e.source && e'.target == e.target
                     && e'.message == e.message && e'.lastWorker == e.lastWorker && e'.lastSync == e.lastSync
                     && (o.reply.value <==>
                           || e.status == FinalImport || e.status == PostImport || e.status == WorkerDone || e.status == WaitingImport
                           || (e.stage == Complete && (e.status == Idle || e.status == Conflict))))
  {
  }

  /** Only a cancelled entry of a known batch and instance that can be placed is put back. */
  lemma RetryMeans(s: State, id: InstanceId, a: Admission)
    ensures var o := Retry(s, id, a);
            && (o.reply.Ok? <==>
                  id in s.entries && s.entries[id].status == Canceled && s.entries[id].batch in s.batches && id in s.instances && a.target.Some?)
            && (o.reply.Err? ==> o.state == s)
            && (o.reply.Ok? ==>
                  && id in o.state.entries
                  && var e, e' := s.entries[id], o.state.entries[id];
                     && o.state == s.(entries := s.entries[id := e'])
                     && (a.disabled.None? ==> e'.status == Waiting && e'.message == InitialChecks)
                     && (a.disabled.Some? ==> e'.status == Blocked && e'.message == Text(a.disabled.value))
                     && e'.stage == Background && e'.window == None && e'.target == a.target.value
                     && e'.batch == e.batch && e'.source == e.source && e'.lastWorker == e.lastWorker && e'.lastSync == e.lastSync)
  {
  }

  /** Only an entry without a migration under way is deleted. */
  lemma DeleteMeans(s: State, id: InstanceId)
    ensures var o := Delete(s, id);
            && (o.reply.Ok? <==>
                  && id in s.entries
                  && (match s.entries[id].status
                      case Blocked | Waiting | WaitingImport | Finished | Error | Canceled | Conflict => true
                      case _ => false))
            && (o.reply.Ok? ==> o.state == s.(entries := s.entries - {id}))
            && (o.reply.Err? ==> o.state == s)
  {
  }

  // ---- Batches -------------------------------------------------------------------------------------------------

  /** A batch starts if it is not running or done, one of its windows is valid or it has none, and there are
      assigned instances that are not queued, each of which can be placed and matched. */
  lemma StartMeans(s: State, name: string, candidates: map<InstanceId, Candidate>, now: Time)
    ensures var o := StartBatch(s, name, candidates, now);
            && (o.reply.Ok? <==>
                  && |name| > 0 && name in s.batches
                  && (s.batches[name].status == Defined || s.batches[name].status == Stopped || s.batches[name].status == Faulty)
                  && ((forall k | k in s.windows :: k.0 != name) || exists k | k in s.windows :: k.0 == name && s.windows[k].Valid(now))
                  && (exists i :: i in candidates && i !in s.entries)
                  && (forall i | i in candidates && i !in s.entries :: candidates[i].target.Some? && candidates[i].matches.Some?))
            && (o.reply.Err? ==> o.state == s)
  {
    if i :| i in candidates && i !in s.entries {
      assert i in candidates.Keys - s.entries.Keys;
    }
    hide Window.Valid, NewEntry;
  }

  /** What a start queues: every assigned instance that was not queued, with its own source and target, at the first
      stage. It is in conflict if it no longer matches, unless that is forced; else it is blocked if it is
      disabled; else it waits. Entries that were queued stay as they were. */
  lemma StartQueues(s: State, name: string, candidates: map<InstanceId, Candidate>, now: Time)
    requires StartBatch(s, name, candidates, now).reply.Ok? && name in s.batches
    ensures var s' := StartBatch(s, name, candidates, now).state;
            && (forall i :: i in s'.entries <==> i in s.entries || i in candidates)
            && (forall i | i in s.entries :: i in s'.entries && s'.entries[i] == s.entries[i])
            && (forall i | i in candidates && i !in s.entries ::
                  i in s'.entries && IsNew(name, s.batches[name].forceConflictResolution, candidates[i], s'.entries[i]))
            && name in s'.batches && s'.batches[name] == s.batches[name].(status := Started)
            && (forall b | b in s.batches && b != name :: b in s'.batches && s'.batches[b] == s.batches[b])
            && s'.windows == s.windows && s'.instances == s.instances
  {
    hide HasValidWindow;
  }

  predicate IsNew(name: string, force: bool, c: Candidate, e: Entry) {
    && e.batch == name && e.source == c.source && c.target == Some(e.target)
    && e.stage == Background && e.window.None? && e.lastWorker == Unknown && e.lastSync == ZERO_TIME
    && (e.status == Conflict <==> c.matches == Some(false) && !force)
    && (e.status == Blocked <==> c.disabled.Some? && (force || c.matches != Some(false)))
    && (e.status == Waiting <==> c.disabled.None? && (force || c.matches != Some(false)))
    && (e.status == Conflict ==> e.message == NoLongerMatches)
    && (e.status == Blocked ==> e.message == Text(c.disabled.value))
    && (e.status == Waiting ==> e.message == InitialChecks)
  }

  lemma StopMeans(s: State, name: string)
    ensures var o := StopBatch(s, name);
            && (o.reply.Ok? <==> |name| > 0 && name in s.batches && s.batches[name].status == Started)
            && o.state == if o.reply.Ok? then s.(batches := s.batches[name := s.batches[name].(status := Stopped)]) else s
  {
  }

  /** A reset removes the batch's entries, all or none. It is refused without force if one of them is committed. */
  lemma ResetMeans(s: State, name: string, force: bool, o: Outcome<()>)
    requires ResetBatch(s, name, force, o)
    ensures o.reply.Ok? <==>
              && name in s.batches
              && (force || s.batches[name].status == Defined ||
                  forall i | i in s.entries && s.entries[i].batch == name ::
                    match s.entries[i].status
                    case FinalImport | PostImport | WorkerDone | WaitingImport => false
                    case Idle | Conflict => s.entries[i].stage != Complete
                    case _ => true)
    ensures o.reply.Err? || (name in s.batches && s.batches[name].status == Defined) ==> o.state == s
    ensures o.reply.Ok? && s.batches[name].status != Defined ==>
              && (forall i :: i in o.state.entries <==> i in s.entries && s.entries[i].batch != name)
              && (forall i | i in o.state.entries :: o.state.entries[i] == s.entries[i])
              && name in o.state.batches && o.state.batches[name] == s.batches[name].(status := Defined)
              && o.state.windows == s.windows && o.state.instances == s.instances
  {
    assert forall i :: i in OfBatch(s.entries, name) <==> i in s.entries && s.entries[i].batch == name;
    hide Released, OfBatch;
  }

  // ---- The daemon ------------------------------------------------------------------------------------------------

  /** Each of the daemon's moves: the statuses it starts from, and what it makes of the entry. */
  lemma MoveMeans(e: Entry, m: DaemonMove, message: Message)
    ensures var r := AfterMove(e, m, message);
            && (r.Some? <==>
                  match m
                  case Block => e.status == Blocked || e.status == Waiting
                  case Unblock => e.status == Blocked
                  case Create => e.status == Waiting
                  case CreateFailed(_) | CreateDone => e.status == Creating
                  case Finish | FinishFailed | FindConflict | CheckFailed => e.status == WorkerDone
                  case Resolve => e.status == Conflict
                  case MissDeadline => e.status == FinalImport || e.status == PostImport || e.status == WorkerDone)
            && (r.Some? ==>
                  && var e' := r.value;
                     && e'.batch == e.batch && e'.source == e.source && e'.target == e.target
                     && e'.lastWorker == e.lastWorker && e'.lastSync == e.lastSync
                     && e'.status == MovesTo(e, m)
                     && e'.stage == (if m.CreateFailed? || m == CreateDone || m == FinishFailed then Background
                                     else if m != MissDeadline then e.stage
                                     else if e.status == FinalImport then Final else Background)
                     && e'.window == if m == Finish || m == MissDeadline then None else e.window)
  {
  }

  function MovesTo(e: Entry, m: DaemonMove): Status {
    match m
    case Block => Blocked
    case Unblock => Waiting
    case Create => Creating
    case CreateFailed(again) => if again then Waiting else Error
    case CreateDone => Idle
    case Finish => Finished
    case FinishFailed | CheckFailed => Error
    case FindConflict => Conflict
    case Resolve => if e.stage == Complete then WorkerDone else Waiting
    case MissDeadline => if e.status == FinalImport then Idle else Waiting
  }

  // ---- All transitions -------------------------------------------------------------------------------------------

  /** The status changes that an operation may bring about. */
  predicate MayChange(op: Op, before: Status, after: Status) {
    match op
    case RequestCommand(_, _) => before == Idle && (after == BackgroundImport || after == FinalImport || after == PostImport)
    case WorkerReport(_, Success, _) =>
      || ((before == BackgroundImport || before == FinalImport) && after == Idle)
      || (before == PostImport && after == WorkerDone)
    case WorkerReport(_, Failed, _) =>
      && after == Error
      && (match before
          case Creating | Idle | BackgroundImport | FinalImport | PostImport | WorkerDone => true
          case _ => false)
    case CancelEntry(_) => before != Finished && after == Canceled
    case RetryEntry(_, _) => before == Canceled && (after == Waiting || after == Blocked)
    case DaemonStep(_, Block, _) => before == Waiting && after == Blocked
    case DaemonStep(_, Unblock, _) => before == Blocked && after == Waiting
    case DaemonStep(_, Create, _) => before == Waiting && after == Creating
    case DaemonStep(_, CreateFailed(again), _) => before == Creating && after == if again then Waiting else Error
    case DaemonStep(_, CreateDone, _) => before == Creating && after == Idle
    case DaemonStep(_, Finish, _) => before == WorkerDone && after == Finished
    case DaemonStep(_, FinishFailed, _) => before == WorkerDone && after == Error
    case DaemonStep(_, CheckFailed, _) => before == WorkerDone && after == Error
    case DaemonStep(_, FindConflict, _) => before == WorkerDone && after == Conflict
    case DaemonStep(_, Resolve, _) => before == Conflict && (after == WorkerDone || after == Waiting)
    case DaemonStep(_, MissDeadline, _) =>
      (before == FinalImport && after == Idle) || ((before == PostImport || before == WorkerDone) && after == Waiting)
    case _ => false
  }

  predicate IsAbout(op: Op, id: InstanceId) {
    (op.RequestCommand? || op.WorkerReport? || op.CancelEntry? || op.RetryEntry? || op.DeleteEntry? || op.DaemonStep?) && op.id == id
  }

  lemma RequestChanges(s: State, op: Op, now: Time, s': State, id: InstanceId)
    requires op.RequestCommand? && Step(s, op, now, s') && id in s.entries
    ensures s'.entries.Keys == s.entries.Keys
    ensures s'.entries[id].status != s.entries[id].status ==>
              IsAbout(op, id) && MayChange(op, s.entries[id].status, s'.entries[id].status)
  {
    hide IsNextWindow, DecisionFor;
    if Decidable(s, op.id) && Request(s, op.id, op.next, now).reply.Ok? {
      IdleEntryIsMoved(s, op.id, op.next, now);
    }
    hide Answers.WaitingMessage;
  }

  lemma ReportChanges(s: State, op: Op, now: Time, s': State)
    requires op.WorkerReport? && Step(s, op, now, s') && op.id in s.entries
    ensures op.id in s'.entries
    ensures s'.entries[op.id].status != s.entries[op.id].status ==>
              MayChange(op, s.entries[op.id].status, s'.entries[op.id].status)
  {
    ReportIsAccepted(s, op.id, op.response, op.message, now);
    if Report(s, op.id, op.response, op.message, now).reply.Ok? {
      ReportIsStored(s, op.id, op.response, op.message, now);
    }
    hide Report;
  }

  lemma MoveChanges(s: State, op: Op, now: Time, s': State)
    requires op.DaemonStep? && Step(s, op, now, s') && op.id in s.entries
    ensures op.id in s'.entries
    ensures s'.entries[op.id].status != s.entries[op.id].status ==>
              MayChange(op, s.entries[op.id].status, s'.entries[op.id].status)
  {
    MoveMeans(s.entries[op.id], op.move, op.message);
    hide AfterMove;
  }

  lemma AdministrationChanges(s: State, op: Op, now: Time, s': State)
    requires (op.CancelEntry? || op.RetryEntry? || op.DeleteEntry?) && Step(s, op, now, s')
    requires op.id in s.entries && op.id in s'.entries && s'.entries[op.id].status != s.entries[op.id].status
    ensures MayChange(op, s.entries[op.id].status, s'.entries[op.id].status)
  {
    CancelMeans(s, op.id);
    if op.RetryEntry? {
      RetryMeans(s, op.id, op.admission);
    }
    DeleteMeans(s, op.id);
    hide Cancel, Retry, Delete;
  }

  /** Over every step an entry only changes its status along these transitions, and by an operation about it. */
  lemma StatusChanges(s: State, op: Op, now: Time, s': State, id: InstanceId)
    requires Step(s, op, now, s') && id in s.entries && id in s'.entries
    requires s'.entries[id].status != s.entries[id].status
    ensures IsAbout(op, id) && MayChange(op, s.entries[id].status, s'.entries[id].status)
  {
    hide Step, MayChange;
    if op.RequestCommand? {
      RequestChanges(s, op, now, s', id);
    } else if op.Reset? {
      ResetChanges(s, op, now, s');
    } else if op.Start? || op.Stop? || op.SetWindows? || op.DropWindow? || op.SyncInstance? {
      TableStepCommitment(s, op, now, s', id);
    } else if op.id != id {
      OthersUntouched(s, op, now, s', id);
    } else if op.WorkerReport? {
      ReportChanges(s, op, now, s');
    } else if op.DaemonStep? {
      MoveChanges(s, op, now, s');
    } else {
      AdministrationChanges(s, op, now, s');
    }
  }

  lemma ResetChanges(s: State, op: Op, now: Time, s': State)
    requires op.Reset? && Step(s, op, now, s')
    ensures forall i | i in s'.entries :: i in s.entries && s'.entries[i] == s.entries[i]
    ensures forall i | i in s.entries && i !in s'.entries :: s.entries[i].batch == op.name
  {
    var o :| ResetBatch(s, op.name, op.force, o) && s' == o.state;
    ResetMeans(s, op.name, op.force, o);
    hide ResetBatch;
  }

  /** An entry is finished only by the daemon, after its worker was done. */
  lemma FinishedByTheDaemon(s: State, op: Op, now: Time, s': State, id: InstanceId)
    requires Step(s, op, now, s') && id in s.entries && id in s'.entries && s'.entries[id].status == Finished
    ensures s.entries[id].status == Finished || (op.DaemonStep? && op.id == id && op.move == Finish && s.entries[id].status == WorkerDone)
  {
    hide Step;
    if s.entries[id].status != Finished {
      StatusChanges(s, op, now, s', id);
    }
  }

  /** Entries come into the queue only by starting a batch, and leave it only by deletion or a reset. */
  lemma EntriesComeAndGo(s: State, op: Op, now: Time, s': State, id: InstanceId)
    requires Step(s, op, now, s')
    ensures id !in s.entries && id in s'.entries ==>
              && op.Start? && id in op.candidates && s'.entries[id].batch == op.name
              && (s'.entries[id].status == Waiting || s'.entries[id].status == Blocked || s'.entries[id].status == Conflict)
    ensures id in s.entries && id !in s'.entries ==>
              (op.DeleteEntry? && op.id == id) || (op.Reset? && op.name == s.entries[id].batch)
  {
    if op.Reset? {
      ResetChanges(s, op, now, s');
    } else if op.Start? {
      StartMeans(s, op.name, op.candidates, now);
      if StartBatch(s, op.name, op.candidates, now).reply.Ok? {
        StartQueues(s, op.name, op.candidates, now);
      }
    } else if id in s.entries && op.RequestCommand? {
      RequestChanges(s, op, now, s', id);
    } else {
      OthersKeepKeys(s, op, now, s');
    }
    hide Step, StartBatch;
  }

  lemma OthersKeepKeys(s: State, op: Op, now: Time, s': State)
    requires !op.Reset? && !op.Start? && Step(s, op, now, s')
    ensures s'.entries.Keys == if op.DeleteEntry? && op.id in s.entries && op.id !in s'.entries then s.entries.Keys - {op.id} else s.entries.Keys
  {
    hide IsNextWindow, HasValidWindow, ReplacementAllowed, Requested, WithWindows, DecisionFor, Reported, AfterMove;
    hide StartBatch, ResetBatch;
    match op
    case RequestCommand(_, _) =>
    case DeleteEntry(_) =>
    case _ =>
  }
}
