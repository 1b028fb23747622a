/** Starting, stopping and resetting batches over the mutable store. */
module BatchService {
  import opened Common
  import opened Windows
  import opened Queue
  import opened Store

  /** Whether the batch has no windows, or one that is still valid. */
  method CheckWindows(db: Database, batch: string, now: Time) returns (ok: bool)
    ensures ok <==> HasValidWindow(db.State(), batch, now)
  {
    var todo := db.windows.Keys;
    ghost var done: set<(string, string)> := {};
    ok := true;
    while todo != {}
      invariant todo + done == db.windows.Keys
      invariant forall k | k in done :: k.0 == batch ==> !db.windows[k].Valid(now)
      invariant ok <==> forall k | k in done :: k.0 != batch
      decreases todo
    {
      var k :| k in todo;
      if k.0 == batch {
        if db.windows[k].Valid(now) {
          return true;
        }
        ok := false;
      }
      todo, done := todo - {k}, done + {k};
    }
  }

  method StartBatchByName(db: Database, name: string, candidates: map<InstanceId, Candidate>, now: Time) returns (reply: Reply<()>)
    modifies db`entries, db`batches
    ensures StartBatch(old(db.State()), name, candidates, now) == Outcome(db.State(), reply)
  {
    hide HasValidWindow, NewEntry;
    if name == "" {
      return Err(NotPermitted);
    }
    if name !in db.batches {
      return Err(NotFound);
    }
    var batch := db.batches[name];
    if !batch.CanStart() {
      return Err(NotPermitted);
    }
    var valid := CheckWindows(db, name, now);
    if !valid {
      return Err(Invalid);
    }

    // Instances that are already queued are ignored.
    var unqueued := candidates.Keys - db.entries.Keys;
    if unqueued == {} {
      return Err(Invalid);
    }
    var added := NewEntries(name, candidates, unqueued, batch.forceConflictResolution);
    if added.None? {
      return Err(Internal);
    }
    db.entries := db.entries + added.value;
    db.batches := db.batches[name := batch.(status := Started)];
    return Ok(());
  }

  /** The entries to create; None when placing or matching an instance fails. */
  method NewEntries(name: string, candidates: map<InstanceId, Candidate>, unqueued: set<InstanceId>, force: bool)
    returns (r: Option<map<InstanceId, Entry>>)
    requires unqueued <= candidates.Keys
    ensures r.None? <==> exists i | i in unqueued :: candidates[i].target.None? || candidates[i].matches.None?
    ensures r.Some? ==> r.value == map i | i in unqueued :: NewEntry(name, candidates[i], force)
  {
    var added: map<InstanceId, Entry> := map[];
    var todo := unqueued;
    while todo != {}
      invariant todo <= unqueued && added.Keys == unqueued - todo
      invariant forall i | i in added :: candidates[i].target.Some? && candidates[i].matches.Some? &&
                  added[i] == NewEntry(name, candidates[i], force)
      decreases todo
    {
      var i :| i in todo;
      var c := candidates[i];
      if c.target.None? {
        return None;
      }
      var status, message := Waiting, InitialChecks;
      if c.disabled.Some? {
        status, message := Blocked, Text(c.disabled.value);
      }
      if c.matches.None? {
        return None;
      }
      if !c.matches.value && !force {
        status, message := Conflict, NoLongerMatches;
      }
      added := added[i := Entry(name, c.source, c.target.value, status, message, Background, Unknown, ZERO_TIME, None)];
      todo := todo - {i};
    }
    return Some(added);
  }

  method StopBatchByName(db: Database, name: string) returns (reply: Reply<()>)
    modifies db`batches
    ensures StopBatch(old(db.State()), name) == Outcome(db.State(), reply)
  {
    if name == "" {
      return Err(NotPermitted);
    }
    if name !in db.batches {
      return Err(NotFound);
    }
    if db.batches[name].status != Started {
      return Err(NotPermitted);
    }
    db.batches := db.batches[name := db.batches[name].(status := Stopped)];
    return Ok(());
  }

  // ---- Reset -------------------------------------------------------------------------------------------

  lemma NothingReleased(s: State)
    ensures Released(s, {}, s)
  {
  }

  /** The counters after one more entry of the reset batch has been released. */
  ghost function ReleasedOne(s: State, e: Entry): State {
    s.(sourceImports := if e.IsImporting() then Release(s.sourceImports, e.source) else s.sourceImports,
       targetImports := if e.IsImporting() then Release(s.targetImports, e.target) else s.targetImports,
       batchImports := if e.status == BackgroundImport then Release(s.batchImports, e.batch) else s.batchImports)
  }

  lemma OneMoreFrom(entries: map<InstanceId, Entry>, done: set<InstanceId>, i: InstanceId, k: string)
    requires i in entries && i !in done
    ensures |ImportingFrom(entries, done + {i}, k)| ==
            |ImportingFrom(entries, done, k)| + if entries[i].IsImporting() && entries[i].source == k then 1 else 0
  {
    var before := ImportingFrom(entries, done, k);
    assert ImportingFrom(entries, done + {i}, k) == if entries[i].IsImporting() && entries[i].source == k then before + {i} else before;
  }

  lemma OneMoreTo(entries: map<InstanceId, Entry>, done: set<InstanceId>, i: InstanceId, k: string)
    requires i in entries && i !in done
    ensures |ImportingTo(entries, done + {i}, k)| ==
            |ImportingTo(entries, done, k)| + if entries[i].IsImporting() && entries[i].target == k then 1 else 0
  {
    var before := ImportingTo(entries, done, k);
    assert ImportingTo(entries, done + {i}, k) == if entries[i].IsImporting() && entries[i].target == k then before + {i} else before;
  }

  lemma OneMoreSyncing(entries: map<InstanceId, Entry>, done: set<InstanceId>, i: InstanceId, k: string)
    requires i in entries && i !in done
    ensures |SyncingIn(entries, done + {i}, k)| ==
            |SyncingIn(entries, done, k)| + if entries[i].status == BackgroundImport && entries[i].batch == k then 1 else 0
  {
    var before := SyncingIn(entries, done, k);
    assert SyncingIn(entries, done + {i}, k) ==
           if entries[i].status == BackgroundImport && entries[i].batch == k then before + {i} else before;
  }

  lemma OneMoreReleased(s: State, done: set<InstanceId>, i: InstanceId, s': State)
    requires i in s.entries && i !in done && Released(s, done, s')
    ensures Released(s, done + {i}, ReleasedOne(s', s.entries[i]))
  {
    var t := ReleasedOne(s', s.entries[i]);
    hide ImportingFrom, ImportingTo, SyncingIn, Get;
    forall k ensures Get(t.sourceImports, k) == LoweredBy(Get(s.sourceImports, k), |ImportingFrom(s.entries, done + {i}, k)|) {
      OneMoreFrom(s.entries, done, i, k);
    }
    forall k ensures Get(t.targetImports, k) == LoweredBy(Get(s.targetImports, k), |ImportingTo(s.entries, done + {i}, k)|) {
      OneMoreTo(s.entries, done, i, k);
    }
    forall k ensures Get(t.batchImports, k) == LoweredBy(Get(s.batchImports, k), |SyncingIn(s.entries, done + {i}, k)|) {
      OneMoreSyncing(s.entries, done, i, k);
    }
  }

  method ResetBatchByName(db: Database, name: string, force: bool) returns (reply: Reply<()>)
    requires db.Valid()
    modifies db, db.sourceImports, db.targetImports, db.batchImports
    ensures ResetBatch(old(db.State()), name, force, Outcome(db.State(), reply))
  {
    if name !in db.batches {
      return Err(NotFound);
    }
    var batch := db.batches[name];
    if batch.status == Defined {
      return Ok(());
    }
    var entries := set i | i in db.entries && db.entries[i].batch == name;
    assert entries == OfBatch(db.entries, name);
    if !force && exists i | i in entries :: db.entries[i].IsCommitted() {
      return Err(NotPermitted);
    }

    var rows := db.entries;
    db.entries := db.entries - entries;
    db.batches := db.batches[name := batch.(status := Defined)];
    ReleaseImports(db, rows, entries, old(db.State()));
    return Ok(());
  }

  /** Releases the imports that were active in the removed rows. */
  method ReleaseImports(db: Database, rows: map<InstanceId, Entry>, entries: set<InstanceId>, ghost s: State)
    requires db.Valid() && rows == s.entries && entries <= rows.Keys
    requires db.State() == s.(entries := db.entries, batches := db.batches)
    modifies db.sourceImports, db.targetImports, db.batchImports
    ensures Released(s, entries, db.State())
  {
    var todo := entries;
    ghost var done: set<InstanceId> := {};
    NothingReleased(s);
    hide Released;
    assert Released(s, done, db.State()) by { SameCounters(s, {}, s, db.State()); }
    while todo != {}
      invariant todo !! done && todo + done == entries
      invariant Released(s, done, db.State())
      decreases todo
    {
      var i :| i in todo;
      var q := rows[i];
      ghost var before := db.State();
      if q.status == BackgroundImport || q.status == FinalImport {
        RemoveActiveImport(db.sourceImports, q.source);
        RemoveActiveImport(db.targetImports, q.target);
      }
      if q.status == BackgroundImport {
        RemoveActiveImport(db.batchImports, q.batch);
      }
      OneMoreReleased(s, done, i, before);
      assert ReleasedOne(before, q) == db.State();
      todo, done := todo - {i}, done + {i};
    }
    assert done == entries;
  }

  /** Only the counters matter to a release. */
  lemma SameCounters(s: State, gone: set<InstanceId>, a: State, b: State)
    requires Released(s, gone, a)
    requires b.sourceImports == a.sourceImports && b.targetImports == a.targetImports && b.batchImports == a.batchImports
    ensures Released(s, gone, b)
  {
  }
}
