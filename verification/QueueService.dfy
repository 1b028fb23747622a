/** The queue service over the mutable store. Every method is one transaction: it leaves the state its
    specification in Queue names, and on an error the state it found. */
module QueueService {
  import opened Common
  import opened Windows
  import opened Queue
  import opened Store
  import opened WindowSelection
  import opened WindowSafety

  method CheckLimit(counter: Cache<string, int>, name: string, limit: int) returns (reached: bool)
    ensures reached <==> LimitReached(limit, Get(counter.cache, name))
  {
    reached := false;
    if limit > 0 {
      var n := CachedImports(counter, name);
      reached := limit <= n;
    }
  }

  /** The scheduling decision for an idle entry. */
  method Schedule(db: Database, id: InstanceId, now: Time) returns (d: Decision, ghost next: NextWindow)
    requires Decidable(db.State(), id)
    ensures IsNextWindow(db.State(), id, db.entries[id], now, next)
    ensures d == DecisionFor(db.State(), id, next, now)
    ensures exists n :: IsNextWindow(db.State(), id, db.entries[id], now, n) && d == DecisionFor(db.State(), id, n, now)
  {
    var e := db.entries[id];
    var batch := db.batches[e.batch];
    next := NextWindowExists(db.State(), id, e, now);

    hide IsNextWindow;
    var sourceLimitReached := CheckLimit(db.sourceImports, e.source, db.setup.sources[e.source]);
    var targetLimitReached := CheckLimit(db.targetImports, e.target, db.setup.targets[e.target]);
    var batchLimitReached := CheckLimit(db.batchImports, e.batch, batch.syncLimit);

    var supported := db.instances[id].SupportsBackgroundImport();
    var shouldBackgroundSync := e.stage == Background && supported;
    if targetLimitReached || sourceLimitReached || (shouldBackgroundSync && batchLimitReached) {
      d := Keep(WaitingForImports);
    } else if shouldBackgroundSync {
      d := Move(BackgroundImport, e.stage, e.window);
    } else {
      var answer := GetNextWindow(db.State(), id, e, now);
      next := answer;
      if answer.CriteriaFailed? {
        return Abort, next;
      }
      var begun := answer.Chosen? && answer.w.Begun(now);
      if begun {
        var windowName := e.window;
        if !answer.w.IsEmpty() {
          windowName := Some(answer.w.name);
        }
        if e.stage != Complete {
          d := Move(FinalImport, e.stage, windowName);
        } else {
          d := Move(PostImport, e.stage, windowName);
        }
      } else if e.stage != Final || !supported || e.lastSync == ZERO_TIME {
        d := Keep(if e.message == WaitingForWorker then WaitingForWindow else e.message);
      } else if batchLimitReached {
        d := Keep(WaitingForImports);
      } else {
        var resync := false;
        if now - e.lastSync >= batch.syncInterval {
          if answer.NoWindow? || answer.w.start > now + batch.syncInterval {
            resync := true;
          }
        }
        if !resync && answer.Chosen? {
          if answer.w.start - e.lastSync < batch.syncInterval && answer.w.start - now >= batch.finalSyncLimit {
            resync := true;
          }
        }
        d := if resync then Move(BackgroundImport, Background, e.window) else Keep(e.message);
      }
    }
  }

  method UpdateStatus(db: Database, id: InstanceId, status: Status, message: Message, stage: Stage, window: Option<string>)
    requires id in db.entries
    modifies db`entries
    ensures db.entries == old(db.entries)[id := old(db.entries)[id].(status := status, message := message, stage := stage, window := window)]
  {
    var q := db.entries[id];
    q := q.(status := status);
    q := q.(message := message);
    q := q.(stage := stage);
    q := q.(window := window);
    db.entries := db.entries[id := q];
  }

  /** The command a worker that lost its own is sent again. */
  method RestartWorker(status: Status) returns (reply: Reply<Command>)
    ensures reply == if CommandFor(status) == DoNothing then Err(NotPermitted) else Ok(CommandFor(status))
  {
    match status {
      case BackgroundImport => return Ok(ImportDisks);
      case FinalImport => return Ok(FinalizeImport);
      case PostImport => return Ok(RunPostImport);
      case _ => return Err(NotPermitted);
    }
  }

  method NewWorkerCommand(db: Database, id: InstanceId, now: Time) returns (reply: Reply<Command>, ghost next: NextWindow)
    requires db.Valid()
    modifies db, db.sourceImports, db.targetImports, db.batchImports
    ensures var s := old(db.State());
            && (id in s.entries && s.entries[id].batch in s.batches ==> IsNextWindow(s, id, s.entries[id], now, next))
            && Request(s, id, next, now) == Outcome(db.State(), reply)
  {
    next := NoWindow;
    if id in db.entries && db.entries[id].batch in db.batches {
      next := NextWindowExists(db.State(), id, db.entries[id], now);
    }
    hide IsNextWindow, DecisionFor;
    if id !in db.entries || id !in db.instances {
      return Err(NotFound), next;
    }
    var e := db.entries[id];
    var restartWorker := false;
    if e.status != Idle {
      if e.lastWorker != Running {
        return Err(NotPermitted), next;
      }
      restartWorker := true;
    }
    if e.source !in db.setup.sources {
      return Err(NotFound), next;
    }

    // A running worker is just sent the command it wants.
    if restartWorker {
      reply := RestartWorker(e.status);
      return;
    }

    if e.target !in db.setup.targets || e.batch !in db.batches {
      return Err(NotFound), next;
    }

    var d;
    d, next := Schedule(db, id, now);
    DecisionEffect(db.State(), id, next, now);
    if d.Abort? {
      return Err(Internal), next;
    }
    var command := CarryOut(db, id, d);
    return Ok(command), next;
  }

  /** Records the import a decision starts, if any, and updates the entry if anything in it changes. */
  method CarryOut(db: Database, id: InstanceId, d: Decision) returns (command: Command)
    requires db.Valid() && id in db.entries && db.entries[id].status == Idle
    requires d.Keep? || (d.Move? && (d.status == BackgroundImport || d.status == FinalImport || d.status == PostImport))
    modifies db, db.sourceImports, db.targetImports, db.batchImports
    ensures db.State() == AfterDecision(old(db.State()), id, d)
    ensures command == CommandFor(db.entries[id].status)
  {
    var e := db.entries[id];
    match d
    case Keep(message) =>
      if message != e.message {
        UpdateStatus(db, id, e.status, message, e.stage, e.window);
      }
      assert db.entries == old(db.entries)[id := Decided(e, d)];
      command := DoNothing;
    case Move(status, stage, window) =>
      if status != PostImport {
        RecordActiveImport(db.sourceImports, e.source);
        RecordActiveImport(db.targetImports, e.target);
      }
      // The sync limit only throttles the background sync, not the final import.
      if status == BackgroundImport {
        RecordActiveImport(db.batchImports, e.batch);
      }
      UpdateStatus(db, id, status, StatusText(status), stage, window);
      command := if status == BackgroundImport then ImportDisks else if status == FinalImport then FinalizeImport else RunPostImport;
  }

  /** What a report makes of the entry, apart from the recorded response. */
  method ApplyReport(e: Entry, response: Response, message: Message, now: Time) returns (entry: Entry)
    ensures entry.(lastWorker := response) == Reported(e, response, message, now)
    ensures entry.batch == e.batch && entry.source == e.source && entry.target == e.target
  {
    entry := e;
    match response {
      case Running =>
        entry := entry.(message := message);
      case Success => {
        match entry.status {
          case BackgroundImport =>
            entry := entry.(stage := Final, status := Idle, message := WaitingForWindow, lastSync := now);
          case FinalImport =>
            entry := entry.(stage := Complete, status := Idle, message := WaitingForPostImport);
          case PostImport =>
            entry := entry.(status := WorkerDone, message := StartingTarget);
          case _ =>
        }
      }
      case Failed =>
        entry := entry.(status := Error, message := message);
      case Unknown =>
    }
  }

  method ProcessWorkerUpdate(db: Database, id: InstanceId, response: Response, message: Message, now: Time) returns (reply: Reply<Entry>)
    requires db.Valid()
    modifies db, db.sourceImports, db.targetImports, db.batchImports
    ensures Report(old(db.State()), id, response, message, now) == Outcome(db.State(), reply)
  {
    hide Reported;
    if id !in db.entries {
      return Err(NotFound);
    }
    var entry := db.entries[id];
    if !entry.IsMigrating() {
      return Err(NotFound);
    }

    var wasBackgroundImport := entry.status == BackgroundImport;
    entry := ApplyReport(entry, response, message, now);
    if response != Running {
      if id !in db.instances {
        return Err(NotFound);
      }
      RemoveActiveImport(db.sourceImports, entry.source);
      RemoveActiveImport(db.targetImports, entry.target);
      if wasBackgroundImport {
        RemoveActiveImport(db.batchImports, entry.batch);
      }
    }

    entry := entry.(lastWorker := response);
    db.entries := db.entries[id := entry];
    return Ok(entry);
  }

  method CancelByUUID(db: Database, id: InstanceId) returns (reply: Reply<bool>)
    modifies db`entries
    ensures Cancel(old(db.State()), id) == Outcome(db.State(), reply)
  {
    if id !in db.entries {
      return Err(NotFound);
    }
    var isCommitted := db.entries[id].IsCommitted();
    if db.entries[id].status == Finished {
      return Err(Invalid);
    }
    UpdateStatus(db, id, Canceled, db.entries[id].message, Background, None);
    return Ok(isCommitted);
  }

  method RetryByUUID(db: Database, id: InstanceId, a: Admission) returns (reply: Reply<Entry>)
    modifies db`entries
    ensures Retry(old(db.State()), id, a) == Outcome(db.State(), reply)
  {
    if id !in db.entries {
      return Err(NotFound);
    }
    var q := db.entries[id];
    if q.status != Canceled {
      return Err(Invalid);
    }
    if q.batch !in db.batches || id !in db.instances {
      return Err(NotFound);
    }
    if a.target.None? {
      return Err(Internal);
    }
    var status, message := Waiting, InitialChecks;
    if a.disabled.Some? {
      status, message := Blocked, Text(a.disabled.value);
    }
    q := q.(status := status, message := message, stage := Background, window := None, target := a.target.value);
    db.entries := db.entries[id := q];
    return Ok(q);
  }

  method DeleteByUUID(db: Database, id: InstanceId) returns (reply: Reply<()>)
    modifies db`entries
    ensures Delete(old(db.State()), id) == Outcome(db.State(), reply)
  {
    if id !in db.entries {
      return Err(NotFound);
    }
    if db.entries[id].IsMigrating() {
      return Err(NotPermitted);
    }
    db.entries := db.entries - {id};
    return Ok(());
  }
}
