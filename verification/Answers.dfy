/** When workers get which command, and what their reports leave, said of stored fields and counters alone. */
module Answers {
  import opened Common
  import opened Windows
  import opened Queue

  // ---- Requests of entries that are not idle ----------------------------------------------------------------

  /** A worker that asks while its entry is not idle is answered exactly if it last reported to be running and the
      entry is at one of its tasks; it then gets that task's command. Otherwise it is refused. */
  lemma BusyEntryIsAnswered(s: State, id: InstanceId, next: NextWindow, now: Time)
    requires id in s.entries && id in s.instances && s.entries[id].status != Idle && s.entries[id].source in s.setup.sources
    ensures var e, o := s.entries[id], Request(s, id, next, now);
            && o.state == s
            && (o.reply.Ok? <==>
                  e.lastWorker == Running && (e.status == BackgroundImport || e.status == FinalImport || e.status == PostImport))
            && (o.reply.Ok? ==> o.reply.value == if e.status == BackgroundImport then ImportDisks
                                                 else if e.status == FinalImport then FinalizeImport else RunPostImport)
            && (o.reply.Err? ==> o.reply.error == NotPermitted)
  {
  }

  /** A command that was just granted is not given to a second worker; only once the worker has reported to be
      running is the same command given again, to a worker that reconnects. */
  lemma GrantIsGivenOnce(s: State, id: InstanceId, next: NextWindow, now: Time, again: NextWindow, then_: Time, message: Message)
    requires Decidable(s, id) && s.entries[id].lastWorker != Running
    requires Request(s, id, next, now).reply.Ok? && Request(s, id, next, now).reply.value != DoNothing
    ensures var granted := Request(s, id, next, now);
            var running := Report(granted.state, id, Running, message, then_).state;
            && Request(granted.state, id, again, then_) == Outcome(granted.state, Err(NotPermitted))
            && Request(running, id, again, then_) == Outcome(running, granted.reply)
  {
    var granted := Request(s, id, next, now);
    var e := granted.state.entries[id];
    assert e.status == BackgroundImport || e.status == FinalImport || e.status == PostImport;
    assert e.lastWorker != Running && granted.reply.value == CommandFor(e.status);
    var running := Report(granted.state, id, Running, message, then_).state;
    assert running.entries[id].status == e.status && running.entries[id].lastWorker == Running;
    hide DecisionFor;
    BusyEntryIsAnswered(granted.state, id, again, then_);
    BusyEntryIsAnswered(running, id, again, then_);
    hide Request, Report;
  }

  /** Requests about unknown entries, instances, sources, targets or batches are refused. */
  lemma UnknownIsRefused(s: State, id: InstanceId, next: NextWindow, now: Time)
    requires
      || id !in s.entries || id !in s.instances
      || (s.entries[id].status == Idle &&
          (s.entries[id].source !in s.setup.sources || s.entries[id].target !in s.setup.targets || s.entries[id].batch !in s.batches))
    ensures Request(s, id, next, now) == Outcome(s, Err(NotFound))
  {
  }

  // ---- Requests of idle entries ------------------------------------------------------------------------------

  /** A limit of zero or less is none. */
  predicate Below(limits: map<string, int>, name: string, counters: map<string, int>)
    requires name in limits
  {
    limits[name] <= 0 || (if name in counters then counters[name] else 0) < limits[name]
  }

  predicate HasSlots(s: State, e: Entry)
    requires e.source in s.setup.sources && e.target in s.setup.targets
  {
    Below(s.setup.sources, e.source, s.sourceImports) && Below(s.setup.targets, e.target, s.targetImports)
  }

  predicate HasSyncSlot(s: State, e: Entry)
    requires e.batch in s.batches
  {
    s.batches[e.batch].syncLimit <= 0 || (if e.batch in s.batchImports then s.batchImports[e.batch] else 0) < s.batches[e.batch].syncLimit
  }

  predicate NeedsFirstSync(s: State, id: InstanceId)
    requires id in s.entries && id in s.instances
  {
    s.entries[id].stage == Background && s.instances[id].SupportsBackgroundImport()
  }

  predicate HasBegun(next: NextWindow, now: Time) {
    next.Chosen? && (next.w.start == ZERO_TIME || next.w.start < now)
  }

  /** A finished sync is due again after an interval, if no window is known or another interval passes before it
      starts; and before, if the window starts within an interval of it and the final sync limit still fits. */
  predicate SyncDueAgain(e: Entry, b: Batch, next: NextWindow, now: Time) {
    match next
    case NoWindow => e.lastSync + b.syncInterval <= now
    case Chosen(w) =>
      || (e.lastSync + b.syncInterval <= now && now + b.syncInterval < w.start)
      || (w.start < e.lastSync + b.syncInterval && now + b.finalSyncLimit <= w.start)
    case CriteriaFailed => false
  }

  /** The answer to an idle entry, in all cases. A first sync goes before everything else and waits for slots of
      the source, the target and the batch; then the window decides; a sync is repeated while it is waited for. */
  lemma IdleEntryIsAnswered(s: State, id: InstanceId, next: NextWindow, now: Time)
    requires Decidable(s, id)
    ensures var e, b := s.entries[id], s.batches[s.entries[id].batch];
            var reply := Request(s, id, next, now).reply;
            && (reply == Ok(ImportDisks) <==>
                  && HasSlots(s, e) && HasSyncSlot(s, e)
                  && (NeedsFirstSync(s, id)
                      || (e.stage == Final && s.instances[id].SupportsBackgroundImport() && e.lastSync != ZERO_TIME
                          && !HasBegun(next, now) && SyncDueAgain(e, b, next, now))))
            && (reply == Ok(FinalizeImport) <==>
                  HasSlots(s, e) && !NeedsFirstSync(s, id) && HasBegun(next, now) && e.stage != Complete)
            && (reply == Ok(RunPostImport) <==>
                  HasSlots(s, e) && !NeedsFirstSync(s, id) && HasBegun(next, now) && e.stage == Complete)
            && (reply.Err? <==> HasSlots(s, e) && !NeedsFirstSync(s, id) && next == CriteriaFailed)
            && (reply.Err? ==> reply == Err(Internal))
  {
  }

  /** The message of an idle entry that got no command. */
  function WaitingMessage(s: State, id: InstanceId): Message
    requires Decidable(s, id)
  {
    var e := s.entries[id];
    if !HasSlots(s, e) || (NeedsFirstSync(s, id) && !HasSyncSlot(s, e)) then WaitingForImports
    else if e.stage == Final && s.instances[id].SupportsBackgroundImport() && e.lastSync != ZERO_TIME then
      if HasSyncSlot(s, e) then e.message else WaitingForImports
    else if e.message == WaitingForWorker then WaitingForWindow else e.message
  }

  /** What a request stores for an idle entry: a command that is given moves the entry to the status it stands for,
      a top-up sets it back to the first stage, and a begun window that is not the empty one becomes its own. Without
      a command at most the message changes. */
  lemma IdleEntryIsMoved(s: State, id: InstanceId, next: NextWindow, now: Time)
    requires Decidable(s, id) && Request(s, id, next, now).reply.Ok?
    ensures var e, o := s.entries[id], Request(s, id, next, now);
            && id in o.state.entries
            && var e' := o.state.entries[id];
               && (forall i :: i != id ==> (i in o.state.entries <==> i in s.entries))
               && (forall i | i in s.entries && i != id :: o.state.entries[i] == s.entries[i])
               && e'.batch == e.batch && e'.source == e.source && e'.target == e.target
               && e'.lastWorker == e.lastWorker && e'.lastSync == e.lastSync
               && e'.status == (match o.reply.value
                                case DoNothing => Idle
                                case ImportDisks => BackgroundImport
                                case FinalizeImport => FinalImport
                                case RunPostImport => PostImport)
               && e'.stage == (if o.reply.value == ImportDisks then Background else e.stage)
               && e'.window == (if (o.reply.value == FinalizeImport || o.reply.value == RunPostImport)
                                   && !(next.w.start == next.w.end == next.w.lockout == ZERO_TIME)
                                then Some(next.w.name) else e.window)
               && e'.message == (if o.reply.value == DoNothing then WaitingMessage(s, id) else StatusText(e'.status))
               && o.state.windows == s.windows && o.state.batches == s.batches && o.state.instances == s.instances
  {
    hide TopUpDue;
  }

  // ---- Reports -----------------------------------------------------------------------------------------------

  predicate Migrates(status: Status) {
    status != Blocked && status != Waiting && status != WaitingImport && status != Finished && status != Error
    && status != Canceled && status != Conflict
  }

  /** A report is accepted for an entry that migrates; all but "running" also need the instance. */
  lemma ReportIsAccepted(s: State, id: InstanceId, response: Response, message: Message, now: Time)
    ensures var o := Report(s, id, response, message, now);
            && (o.reply.Ok? <==> id in s.entries && Migrates(s.entries[id].status) && (response == Running || id in s.instances))
            && (o.reply.Err? ==> o == Outcome(s, Err(NotFound)))
            && (o.reply.Ok? ==> id in o.state.entries && o.reply.value == o.state.entries[id])
  {
  }

  /** What an accepted report stores. Success ends a task and moves the entry on; a failure makes it an error and
      keeps where it was; other responses leave it where it is. */
  lemma ReportIsStored(s: State, id: InstanceId, response: Response, message: Message, now: Time)
    requires Report(s, id, response, message, now).reply.Ok?
    ensures id in s.entries && id in Report(s, id, response, message, now).state.entries
    ensures var e, s' := s.entries[id], Report(s, id, response, message, now).state;
            var e' := s'.entries[id];
            && (forall i :: i != id ==> (i in s'.entries <==> i in s.entries))
            && (forall i | i in s.entries && i != id :: s'.entries[i] == s.entries[i])
            && e'.batch == e.batch && e'.source == e.source && e'.target == e.target && e'.window == e.window
            && e'.lastWorker == response
            && (response == Failed ==> e'.status == Error && e'.stage == e.stage && e'.lastSync == e.lastSync && e'.message == message)
            && (response == Running ==> e'.status == e.status && e'.stage == e.stage && e'.lastSync == e.lastSync && e'.message == message)
            && (response == Unknown ==>
                  e'.status == e.status && e'.stage == e.stage && e'.lastSync == e.lastSync && e'.message == e.message)
            && (response == Success ==>
                  && e'.status == (if e.status == BackgroundImport || e.status == FinalImport then Idle
                                   else if e.status == PostImport then WorkerDone else e.status)
                  && e'.stage == (if e.status == BackgroundImport then Final
                                  else if e.status == FinalImport then Complete else e.stage)
                  && e'.lastSync == (if e.status == BackgroundImport then now else e.lastSync)
                  && e'.message == (if e.status == BackgroundImport then WaitingForWindow
                                    else if e.status == FinalImport then WaitingForPostImport
                                    else if e.status == PostImport then StartingTarget else e.message))
  {
  }
}
