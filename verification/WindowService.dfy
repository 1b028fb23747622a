/** Replacing and deleting the windows of a batch, row by row, over the mutable store. */
module WindowService {
  import opened Common
  import opened Windows
  import opened Queue
  import opened Store

  predicate SameTimes(a: Window, b: Window) {
    a.start == b.start && a.end == b.end && a.lockout == b.lockout
  }

  /** The database refuses a second row of a batch with the same start, end and lockout. */
  predicate Refused(rows: map<(string, string), Window>, batch: string, w: Window) {
    exists k | k in rows :: k.0 == batch && k.1 != w.name && SameTimes(rows[k], w)
  }

  method DeleteByNameAndBatch(db: Database, name: string, batch: string) returns (reply: Reply<()>)
    modifies db`windows
    ensures DeleteWindow(old(db.State()), name, batch) == Outcome(db.State(), reply)
  {
    var todo := db.entries.Keys;
    ghost var done: set<InstanceId> := {};
    while todo != {}
      invariant todo + done == db.entries.Keys
      invariant forall i | i in done :: !(db.entries[i].batch == batch && db.entries[i].window == Some(name))
      decreases todo
    {
      var i :| i in todo;
      var q := db.entries[i];
      if q.batch == batch && q.window.Some? {
        if q.window.value == name {
          return Err(Invalid);
        }
      }
      todo, done := todo - {i}, done + {i};
    }
    if (batch, name) !in db.windows {
      return Err(NotFound);
    }
    db.windows := db.windows - {(batch, name)};
    return Ok(());
  }

  /** Validates the requested windows and keys them by name. */
  method ByName(ws: seq<Window>, now: Time) returns (r: Option<map<string, Window>>)
    ensures r.None? <==> exists w | w in ws :: !w.Valid(now)
    ensures r.Some? ==> r.value == Requested(ws)
  {
    var byName: map<string, Window> := map[];
    for i := 0 to |ws|
      invariant byName == Requested(ws[..i])
      invariant forall w | w in ws[..i] :: w.Valid(now)
    {
      if !ws[i].Valid(now) {
        return None;
      }
      assert ws[..i + 1][..i] == ws[..i];
      byName := byName[ws[i].name := ws[i]];
    }
    assert ws[..|ws|] == ws;
    return Some(byName);
  }

  /** Whether every window that an entry of the batch holds may be replaced as requested. */
  method CheckHeldWindows(db: Database, batch: string, requested: map<string, Window>) returns (ok: bool)
    ensures ok <==> ReplacementAllowed(db.State(), batch, requested)
  {
    var todo := db.entries.Keys;
    ghost var done: set<InstanceId> := {};
    while todo != {}
      invariant todo + done == db.entries.Keys
      invariant forall i | i in done && db.entries[i].batch == batch && db.entries[i].window.Some? ::
                  var n := db.entries[i].window.value;
                  (batch, n) in db.windows ==> n in requested && MayReplace(db.windows[(batch, n)], requested[n])
      decreases todo
    {
      var i :| i in todo;
      var q := db.entries[i];
      if q.batch == batch && q.window.Some? && (batch, q.window.value) in db.windows {
        var oldWindow := db.windows[(batch, q.window.value)];
        if q.window.value !in requested {
          return false;
        }
        var newWindow := requested[q.window.value];
        if newWindow.start - oldWindow.start > 0 {
          return false;
        }
        if newWindow.end != ZERO_TIME && newWindow.end - oldWindow.end < 0 {
          return false;
        }
        if newWindow.capacity != 0 && (newWindow.capacity < oldWindow.capacity || oldWindow.capacity == 0) {
          return false;
        }
      }
      todo, done := todo - {i}, done + {i};
    }
    return true;
  }

  /** The rows after the windows named in `done` have been pruned, updated or created. */
  ghost predicate Rewritten(rows: map<(string, string), Window>, batch: string, requested: map<string, Window>,
                            done: set<string>, rows': map<(string, string), Window>) {
    forall k: (string, string) ::
      if k.0 == batch && k.1 in done then
        if k.1 in requested then k in rows' && rows'[k] == requested[k.1] else k !in rows'
      else
        if k in rows then k in rows' && rows'[k] == rows[k] else k !in rows'
  }

  lemma NothingRewritten(rows: map<(string, string), Window>, batch: string, requested: map<string, Window>)
    ensures Rewritten(rows, batch, requested, {}, rows)
  {
  }

  lemma RewriteOne(windows: map<(string, string), Window>, batch: string, requested: map<string, Window>,
                   done: set<string>, rows: map<(string, string), Window>, n: string)
    requires Rewritten(windows, batch, requested, done, rows)
    ensures n !in requested ==> Rewritten(windows, batch, requested, done + {n}, rows - {(batch, n)})
    ensures n in requested ==> Rewritten(windows, batch, requested, done + {n}, rows[(batch, n) := requested[n]])
    ensures n in requested && (batch, n) in rows && rows[(batch, n)] == requested[n] ==> Rewritten(windows, batch, requested, done + {n}, rows)
    ensures (batch, n) in windows && n !in done ==> (batch, n) in rows
  {
  }

  /** Prunes and updates the stored windows of the batch, then creates the new ones. Ends early when the
      database refuses a row. */
  method RewriteRows(db: Database, batch: string, requested: map<string, Window>) returns (rows: map<(string, string), Window>, ok: bool)
    requires forall n | n in requested :: requested[n].name == n
    ensures ok ==> rows == WithWindows(db.windows, batch, requested)
    ensures !ok ==> batch !in db.batches || SomeTimesClash(db.windows, batch, requested)
  {
    hide Rewritten, Refused, SomeTimesClash, WithWindows;
    rows := db.windows;
    NothingRewritten(db.windows, batch, requested);
    var olds := set k | k in db.windows && k.0 == batch :: k.1;
    ghost var done: set<string> := {};
    var todo := olds;
    while todo != {}
      invariant todo !! done && todo + done == olds
      invariant Rewritten(db.windows, batch, requested, done, rows)
      decreases todo
    {
      var n :| n in todo;
      RewriteOne(db.windows, batch, requested, done, rows, n);
      if n !in requested {
        rows := rows - {(batch, n)};
      } else if rows[(batch, n)] != requested[n] {
        if Refused(rows, batch, requested[n]) {
          RefusalIsClash(db.windows, batch, requested, done, rows, n);
          return rows, false;
        }
        rows := rows[(batch, n) := requested[n]];
      }
      todo, done := todo - {n}, done + {n};
    }
    todo := requested.Keys - olds;
    while todo != {}
      invariant todo !! done && todo <= requested.Keys && done + todo == olds + requested.Keys
      invariant Rewritten(db.windows, batch, requested, done, rows)
      decreases todo
    {
      var n :| n in todo;
      if batch !in db.batches {
        return rows, false;
      }
      if Refused(rows, batch, requested[n]) {
        RefusalIsClash(db.windows, batch, requested, done, rows, n);
        return rows, false;
      }
      RewriteOne(db.windows, batch, requested, done, rows, n);
      rows := rows[(batch, n) := requested[n]];
      todo, done := todo - {n}, done + {n};
    }
    AllRewritten(db.windows, batch, requested, done, rows);
    return rows, true;
  }

  /** Two differently named windows, stored or requested, would share their times. */
  ghost predicate SomeTimesClash(windows: map<(string, string), Window>, batch: string, requested: map<string, Window>) {
    exists n, m | n in requested && m != n ::
      || (m in requested && SameTimes(requested[m], requested[n]))
      || ((batch, m) in windows && SameTimes(windows[(batch, m)], requested[n]))
  }

  lemma RefusalIsClash(windows: map<(string, string), Window>, batch: string, requested: map<string, Window>,
                       done: set<string>, rows: map<(string, string), Window>, n: string)
    requires Rewritten(windows, batch, requested, done, rows)
    requires n in requested && requested[n].name == n && Refused(rows, batch, requested[n])
    ensures SomeTimesClash(windows, batch, requested)
  {
  }

  lemma AllRewritten(windows: map<(string, string), Window>, batch: string, requested: map<string, Window>,
                     done: set<string>, rows: map<(string, string), Window>)
    requires Rewritten(windows, batch, requested, done, rows)
    requires done == (set k | k in windows && k.0 == batch :: k.1) + requested.Keys
    ensures rows == WithWindows(windows, batch, requested)
  {
  }

  /** Replaces the windows of a batch. It fails only for an invalid window, a held window that may not be
      replaced, a missing batch or windows that share their times. */
  method ReplaceByBatch(db: Database, batch: string, ws: seq<Window>, now: Time) returns (reply: Reply<()>, ghost accepted: bool)
    modifies db`windows
    ensures ReplaceWindows(old(db.State()), batch, ws, accepted, now) == Outcome(db.State(), reply)
    ensures batch in db.batches && !SomeTimesClash(old(db.windows), batch, Requested(ws)) ==> accepted
  {
    accepted := true;
    var byName := ByName(ws, now);
    if byName.None? {
      return Err(Invalid), accepted;
    }
    var allowed := CheckHeldWindows(db, batch, byName.value);
    if !allowed {
      return Err(Invalid), accepted;
    }
    var rows, ok := RewriteRows(db, batch, byName.value);
    accepted := ok;
    if !ok {
      return Err(Internal), accepted;
    }
    db.windows := rows;
    return Ok(()), accepted;
  }
}
