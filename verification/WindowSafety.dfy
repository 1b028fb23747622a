/** Status discipline, window assignment and window capacity, over all runs of the queue. */
module WindowSafety {
  import opened Common
  import opened Windows
  import opened Queue
  import opened Counting

  /** How status, stage and window go together in one entry. */
  ghost predicate Disciplined(e: Entry) {
    && (e.status == BackgroundImport ==> e.stage == Background)
    && (e.status == FinalImport ==> e.stage != Complete)
    && (e.status == PostImport || e.status == WorkerDone ==> e.stage == Complete)
    && (e.status == Blocked || e.status == Waiting || e.status == Creating || e.status == Canceled ==> e.stage == Background)
    && (e.status == Conflict ==> e.stage != Final)
    && e.status != WaitingImport
    && (e.window.Some? ==>
          || e.status == FinalImport || e.status == PostImport || e.status == WorkerDone || e.status == Error
          || ((e.status == Idle || e.status == Conflict) && e.stage == Complete))
  }

  ghost predicate Capacities(s: State) {
    forall k | k in s.windows && s.windows[k].capacity > 0 ::
      Count(s.entries, Holding(k.0, k.1)) <= s.windows[k].capacity
  }

  ghost predicate Inv(s: State) {
    && (forall k | k in s.windows :: s.windows[k].name == k.1 && s.windows[k].capacity >= 0)
    && (forall i | i in s.entries :: Disciplined(s.entries[i]))
    && (forall i | i in s.entries && s.entries[i].window.Some? :: (s.entries[i].batch, s.entries[i].window.value) in s.windows)
    && Capacities(s)
  }

  lemma HoldersAreInUse(entries: map<InstanceId, Entry>, batch: string, name: string)
    ensures Count(entries, Holding(batch, name)) <= |InUse(entries, name)|
  {
    SubsetIsSmaller(Picked(entries, Holding(batch, name)), InUse(entries, name));
  }

  /** A window taken by an entry exists in its batch, and was its own or had room. */
  ghost predicate MayTake(s: State, i: InstanceId, e: Entry) {
    e.window.Some? ==>
      && (e.batch, e.window.value) in s.windows
      && ((i in s.entries && s.entries[i].batch == e.batch && s.entries[i].window == e.window)
          || HasRoom(s.entries, None, s.windows[(e.batch, e.window.value)]))
  }

  lemma ChangeKeepsInv(s: State, i: InstanceId, e: Entry, s': State)
    requires Inv(s) && Disciplined(e) && MayTake(s, i, e)
    requires s'.entries == s.entries[i := e] && s'.windows == s.windows
    ensures Inv(s')
  {
    forall k | k in s'.windows && s'.windows[k].capacity > 0
      ensures Count(s'.entries, Holding(k.0, k.1)) <= s'.windows[k].capacity
    {
      var q := Holding(k.0, k.1);
      CountAfterUpdate(s.entries, i, e, q);
      HoldersAreInUse(s.entries, k.0, k.1);
    }
  }

  /** The window a request assigns is an open window of the entry's batch. */
  lemma NextWindowMayBeTaken(s: State, id: InstanceId, e: Entry, now: Time, next: NextWindow)
    requires Inv(s) && id in s.entries && s.entries[id] == e && e.batch in s.batches
    requires IsNextWindow(s, id, e, now, next) && next.Chosen? && !next.w.IsEmpty()
    ensures next.w in Available(s, e)
    ensures MayTake(s, id, e.(window := Some(next.w.name)))
  {
  }

  /** A decision leads an idle entry to a status that suits its stage, and into no window but the next one. */
  lemma DecisionEffect(s: State, id: InstanceId, next: NextWindow, now: Time)
    requires Decidable(s, id)
    ensures var e, d := s.entries[id], DecisionFor(s, id, next, now);
            d.Move? ==>
              && (d.status == BackgroundImport || d.status == FinalImport || d.status == PostImport)
              && (d.status == BackgroundImport ==> d.stage == Background && d.window == e.window && e.stage != Complete)
              && (d.status == FinalImport ==> d.stage == e.stage != Complete)
              && (d.status == PostImport ==> d.stage == e.stage == Complete)
              && (d.window == e.window || (next.Chosen? && !next.w.IsEmpty() && d.window == Some(next.w.name)))
  {
  }

  lemma RequestKeepsInv(s: State, id: InstanceId, next: NextWindow, now: Time)
    requires Inv(s) && Decidable(s, id) && IsNextWindow(s, id, s.entries[id], now, next)
    ensures Inv(Request(s, id, next, now).state)
  {
    var e, d := s.entries[id], DecisionFor(s, id, next, now);
    DecisionEffect(s, id, next, now);
    hide DecisionFor, IsNextWindow;
    if !d.Abort? {
      var e' := Decided(e, d);
      if e'.window != e.window {
        NextWindowMayBeTaken(s, id, e, now, next);
      }
      ChangeKeepsInv(s, id, e', Request(s, id, next, now).state);
    }
  }

  /** The windows of a batch after a replacement, looked up one by one. */
  lemma ReplacedWindow(windows: map<(string, string), Window>, batch: string, requested: map<string, Window>, k: (string, string))
    ensures k in WithWindows(windows, batch, requested) <==> if k.0 == batch then k.1 in requested else k in windows
    ensures k in WithWindows(windows, batch, requested) ==>
              WithWindows(windows, batch, requested)[k] == if k.0 == batch then requested[k.1] else windows[k]
  {
  }

  lemma ReplaceKeepsInv(s: State, batch: string, ws: seq<Window>, s': State)
    requires Inv(s) && ReplacementAllowed(s, batch, Requested(ws)) && forall w | w in ws :: w.capacity >= 0
    requires s' == s.(windows := WithWindows(s.windows, batch, Requested(ws)))
    ensures Inv(s')
  {
    forall k {
      ReplacedWindow(s.windows, batch, Requested(ws), k);
    }
    hide WithWindows, Requested;
    forall k | k in s'.windows && s'.windows[k].capacity > 0
      ensures Count(s'.entries, Holding(k.0, k.1)) <= s'.windows[k].capacity
    {
      var held := Picked(s.entries, Holding(k.0, k.1));
      if held != {} {
        var i :| i in held;
        assert (s.entries[i].batch, s.entries[i].window.value) == k && k in s.windows;
        assert Count(s'.entries, Holding(k.0, k.1)) == Count(s.entries, Holding(k.0, k.1));
      }
    }
  }

  lemma RemovalKeepsInv(s: State, gone: set<InstanceId>, s': State)
    requires Inv(s) && s'.entries == s.entries - gone && s'.windows == s.windows
    ensures Inv(s')
  {
    hide Disciplined;
    forall k | k in s'.windows && s'.windows[k].capacity > 0
      ensures Count(s'.entries, Holding(k.0, k.1)) <= s'.windows[k].capacity
    {
      CountAfterRemoval(s.entries, gone, Holding(k.0, k.1));
    }
  }

  lemma DropKeepsInv(s: State, window: string, name: string, s': State)
    requires Inv(s) && s'.entries == s.entries && s'.windows == s.windows - {(name, window)}
    requires forall i | i in s.entries && s.entries[i].batch == name :: s.entries[i].window != Some(window)
    ensures Inv(s')
  {
  }

  /** A start only adds entries, none of which holds a window. */
  lemma StartEffect(s: State, name: string, candidates: map<InstanceId, Candidate>, now: Time, s': State) returns (added: map<InstanceId, Entry>)
    requires s' == StartBatch(s, name, candidates, now).state && s' != s
    ensures s'.windows == s.windows && s'.entries == s.entries + added && s.entries.Keys !! added.Keys
    ensures forall i | i in added :: added[i].window.None? && !added[i].IsImporting() && Disciplined(added[i])
  {
    added := map i | i in candidates.Keys - s.entries.Keys :: NewEntry(name, candidates[i], s.batches[name].forceConflictResolution);
  }

  lemma AdditionKeepsInv(s: State, added: map<InstanceId, Entry>, s': State)
    requires Inv(s) && s'.windows == s.windows && s'.entries == s.entries + added && s.entries.Keys !! added.Keys
    requires forall i | i in added :: added[i].window.None? && Disciplined(added[i])
    ensures Inv(s')
  {
    forall k | k in s'.windows && s'.windows[k].capacity > 0
      ensures Count(s'.entries, Holding(k.0, k.1)) <= s'.windows[k].capacity
    {
      CountAfterAddition(s.entries, added, Holding(k.0, k.1));
    }
  }

  /** A report or a daemon move keeps an entry disciplined and assigns it no window. */
  lemma EntryEffect(e: Entry, e': Entry, response: Response, m: DaemonMove, message: Message, now: Time)
    requires (e.IsMigrating() && e' == Reported(e, response, message, now)) || AfterMove(e, m, message) == Some(e')
    ensures Disciplined(e) ==> Disciplined(e')
    ensures e'.batch == e.batch && e'.source == e.source && e'.target == e.target
    ensures e'.window.None? || e'.window == e.window
  {
  }

  /** Reports, cancellations, retries and daemon moves keep one entry disciplined and assign no window. */
  lemma EntryStepEffect(s: State, op: Op, now: Time, s': State)
    requires op.WorkerReport? || op.CancelEntry? || op.RetryEntry? || op.DaemonStep?
    requires Step(s, op, now, s') && s' != s
    ensures op.id in s.entries && op.id in s'.entries && s'.entries == s.entries[op.id := s'.entries[op.id]]
    ensures s'.windows == s.windows && s'.entries[op.id].batch == s.entries[op.id].batch
    ensures s'.entries[op.id].window.None? || s'.entries[op.id].window == s.entries[op.id].window
    ensures Disciplined(s.entries[op.id]) ==> Disciplined(s'.entries[op.id])
  {
    var e, e' := s.entries[op.id], s'.entries[op.id];
    match op
    case WorkerReport(_, response, message) => EntryEffect(e, e', response, Block, message, now);
    case DaemonStep(_, m, message) => EntryEffect(e, e', Unknown, m, message, now);
    case CancelEntry(_) =>
    case RetryEntry(_, _) =>
    hide Reported, AfterMove;
  }

  lemma StepKeepsInv(s: State, op: Op, now: Time, s': State)
    requires Inv(s) && Step(s, op, now, s')
    ensures Inv(s')
  {
    hide Inv;
    if s' != s {
      match op
      case RequestCommand(id, next) => RequestKeepsInv(s, id, next, now);
      case WorkerReport(_, _, _) => EntryStepKeepsInv(s, op, now, s');
      case CancelEntry(_) => EntryStepKeepsInv(s, op, now, s');
      case RetryEntry(_, _) => EntryStepKeepsInv(s, op, now, s');
      case DaemonStep(_, _, _) => EntryStepKeepsInv(s, op, now, s');
      case _ => TableStepKeepsInv(s, op, now, s');
    }
  }

  lemma EntryStepKeepsInv(s: State, op: Op, now: Time, s': State)
    requires op.WorkerReport? || op.CancelEntry? || op.RetryEntry? || op.DaemonStep?
    requires Inv(s) && Step(s, op, now, s') && s' != s
    ensures Inv(s')
  {
    EntryStepEffect(s, op, now, s');
    hide Step;
    ChangeKeepsInv(s, op.id, s'.entries[op.id], s');
  }

  lemma TableStepKeepsInv(s: State, op: Op, now: Time, s': State)
    requires op.DeleteEntry? || op.Start? || op.Stop? || op.Reset? || op.SetWindows? || op.DropWindow? || op.SyncInstance?
    requires Inv(s) && Step(s, op, now, s') && s' != s
    ensures Inv(s')
  {
    hide Inv;
    match op
    case DeleteEntry(id) => RemovalKeepsInv(s, {id}, s');
    case Start(name, candidates) =>
      var added := StartEffect(s, name, candidates, now, s');
      AdditionKeepsInv(s, added, s');
    case Reset(name, _) => RemovalKeepsInv(s, OfBatch(s.entries, name), s');
    case SetWindows(name, ws, _) => ReplaceKeepsInv(s, name, ws, s');
    case DropWindow(window, name) => DropKeepsInv(s, window, name, s');
    case Stop(_) => RemovalKeepsInv(s, {}, s');
    case SyncInstance(_, _) => RemovalKeepsInv(s, {}, s');
  }

  /** A freshly configured server is safe. */
  lemma FreshIsSafe(s: State)
    requires Initial(s)
    ensures Inv(s)
  {
    forall w: (string, string) ensures Picked(s.entries, Holding(w.0, w.1)) == {} {}
  }

  /** In every state of every run, from a fresh server or any safe state: each assigned window exists in its
      entry's batch, no window with a capacity is held by more entries of its batch than that, and every entry
      is disciplined. */
  lemma {:induction false} AssignmentsAreSafe(r: Run, k: nat)
    requires r.Legal() && Inv(r.states[0]) && k < |r.states|
    ensures Inv(r.states[k])
  {
    hide Inv, Step;
    if k > 0 {
      AssignmentsAreSafe(r, k - 1);
      StepKeepsInv(r.states[k - 1], r.ops[k - 1], r.times[k - 1], r.states[k]);
    }
  }
}
