/** The migration queue: its records and, for every operation on it, the state it leaves.
    An operation that fails leaves the state it found. */
module Queue {
  import opened Common
  import opened Windows
  import InstanceSync

  type InstanceId = nat

  datatype Status =
    | Blocked | Waiting | WaitingImport | Creating | BackgroundImport | Idle | FinalImport
    | PostImport | WorkerDone | Finished | Error | Canceled | Conflict

  datatype Stage = Background | Final | Complete

  datatype Response = Unknown | Running | Success | Failed

  datatype Command = DoNothing | ImportDisks | FinalizeImport | RunPostImport

  /** Status messages: the fixed texts that operations write or test, and any other text. */
  datatype Message =
    | WaitingForImports | WaitingForWorker | WaitingForWindow | WaitingForPostImport | StartingTarget
    | InitialChecks | NoLongerMatches | StatusText(status: Status) | Text(text: string)

  /** A queue row, joined with the source name of its instance. */
  datatype Entry = Entry(
    batch: string, source: string, target: string, status: Status, message: Message, stage: Stage,
    lastWorker: Response, lastSync: Time, window: Option<string>)
  {
    predicate IsMigrating() {
      match status
      case Creating | BackgroundImport | Idle | FinalImport | PostImport | WorkerDone => true
      case _ => false
    }

    /** Past the point of no return: the source VM is off, or about to be. */
    predicate IsCommitted() {
      match status
      case Blocked | Canceled | Creating | Error | Finished | Waiting | BackgroundImport => false
      case FinalImport | PostImport | WorkerDone => true
      case Idle | Conflict => stage == Complete
      case WaitingImport => true
    }

    predicate IsImporting() {
      status == BackgroundImport || status == FinalImport
    }

    /** Statuses whose instances compete for a constraint's limit. */
    predicate CountsForConstraints() {
      status == Idle || status == FinalImport || status == PostImport || status == WorkerDone
    }
  }

  datatype Constraint = Constraint(name: string, description: string, expr: string, max: int, minBootTime: Duration)

  datatype BatchStatus = Defined | Started | Stopped | Done | Faulty

  datatype Batch = Batch(
    status: BatchStatus, constraints: seq<Constraint>, syncLimit: int, syncInterval: Duration,
    finalSyncLimit: Duration, forceConflictResolution: bool)
  {
    predicate CanStart() {
      status == Defined || status == Faulty || status == Stopped
    }

    /** The part of batch validation that bounds background syncs. */
    predicate ValidSyncBounds() {
      syncInterval > 0 && finalSyncLimit > 0 && !(finalSyncLimit > syncInterval)
    }
  }

  /** What no operation here changes: the import limits of sources and targets, and the verdict of every
      constraint expression on every instance. An absent verdict is an expression that fails. */
  datatype Setup = Setup(
    sources: map<string, int>,
    targets: map<string, int>,
    criteria: map<(InstanceId, string), bool>)

  /** The database tables and the import counters kept beside them; windows are keyed by batch and name. */
  datatype State = State(
    setup: Setup,
    entries: map<InstanceId, Entry>,
    windows: map<(string, string), Window>,
    batches: map<string, Batch>,
    instances: map<InstanceId, InstanceSync.Devices>,
    sourceImports: map<string, int>,
    targetImports: map<string, int>,
    batchImports: map<string, int>)

  datatype Outcome<+T> = Outcome(state: State, reply: Reply<T>)

  // ---- Import counters ---------------------------------------------------------------------------

  function Get(cache: map<string, int>, key: string): int {
    if key in cache then cache[key] else 0
  }

  function Record(cache: map<string, int>, key: string): (r: map<string, int>)
    ensures forall k :: Get(r, k) == if k == key then Get(cache, k) + 1 else Get(cache, k)
  {
    cache[key := Get(cache, key) + 1]
  }

  function Lowered(count: int): int {
    if count > 0 then count - 1 else count
  }

  function Release(cache: map<string, int>, key: string): (r: map<string, int>)
    ensures forall k :: Get(r, k) == if k == key then Lowered(Get(cache, k)) else Get(cache, k)
  {
    cache[key := Lowered(Get(cache, key))]
  }

  // ---- Selecting the next window -----------------------------------------------------------------

  /** The answer to "which window comes next": a window, "not found", or an expression that failed. */
  datatype NextWindow = Chosen(w: Window) | NoWindow | CriteriaFailed

  /** The rows of the queue that hold a window of this name, in whatever batch. */
  ghost function InUse(entries: map<InstanceId, Entry>, name: string): set<InstanceId> {
    set i | i in entries && entries[i].window == Some(name)
  }

  /** Whether `w` has room for one more entry, or is the entry's own window. */
  ghost predicate HasRoom(entries: map<InstanceId, Entry>, own: Option<string>, w: Window) {
    w.capacity == 0 || |InUse(entries, w.name)| < w.capacity || own == Some(w.name)
  }

  ghost function Available(s: State, e: Entry): set<Window> {
    set k | k in s.windows && k.0 == e.batch && HasRoom(s.entries, e.window, s.windows[k]) :: s.windows[k]
  }

  /** The last constraint of the list that matches the instance; the outer None is a failed expression. */
  function Select(criteria: map<(InstanceId, string), bool>, cs: seq<Constraint>, i: InstanceId): (r: Option<Option<Constraint>>)
    ensures r.Some? && r.value.Some? ==> r.value.value in cs && (i, r.value.value.expr) in criteria && criteria[(i, r.value.value.expr)]
  {
    if cs == [] then Some(None)
    else
      var last := cs[|cs| - 1];
      if (i, last.expr) !in criteria then None
      else if criteria[(i, last.expr)] then Some(Some(last))
      else Select(criteria, cs[..|cs| - 1], i)
  }

  /** The entries weighed against a constraint's limit when `id` asks: other idle ones are not, for
      they hold no window yet. */
  ghost function Considered(entries: map<InstanceId, Entry>, batch: string, id: InstanceId): set<InstanceId> {
    set i | i in entries && entries[i].batch == batch && entries[i].CountsForConstraints() &&
            (entries[i].status == Idle ==> i == id)
  }

  ghost function Matching(s: State, among: set<InstanceId>, expr: string): set<InstanceId> {
    set i | i in among && (i, expr) in s.setup.criteria && s.setup.criteria[(i, expr)]
  }

  ghost predicate EarliestAvailable(ws: set<Window>, duration: Duration, now: Time, next: NextWindow) {
    match next
    case Chosen(w) => IsEarliest(ws, duration, now, Some(w))
    case NoWindow => IsEarliest(ws, duration, now, None)
    case CriteriaFailed => false
  }

  ghost predicate Reusable(s: State, e: Entry, now: Time, w: Window) {
    w in Available(s, e) && e.window == Some(w.name) && !w.Ended(now)
  }

  /** What the next window of `e`, the entry of instance `id`, may be. */
  ghost predicate IsNextWindow(s: State, id: InstanceId, e: Entry, now: Time, next: NextWindow)
    requires e.batch in s.batches
  {
    var ws := Available(s, e);
    var cs := s.batches[e.batch].constraints;
    var selected := if e.CountsForConstraints() then Select(s.setup.criteria, cs, id) else Some(None);
    if exists w :: Reusable(s, e, now, w) then next.Chosen? && Reusable(s, e, now, next.w)
    else if selected.None? then next == CriteriaFailed
    else if selected.value.None? then EarliestAvailable(ws, 0, now, next)
    else
      var c := selected.value.value;
      var rivals := Considered(s.entries, e.batch, id);
      if exists i | i in rivals :: (i, c.expr) !in s.setup.criteria then next == CriteriaFailed
      else if c.max == 0 || |Matching(s, rivals, c.expr)| <= c.max then EarliestAvailable(ws, c.minBootTime, now, next)
      else next == NoWindow
  }

  // ---- Worker requests ---------------------------------------------------------------------------

  /** The command a worker whose entry has this status must be running. */
  function CommandFor(status: Status): Command {
    match status
    case BackgroundImport => ImportDisks
    case FinalImport => FinalizeImport
    case PostImport => RunPostImport
    case _ => DoNothing
  }

  /** What a request does to an idle entry: keep it idle under a message, or move it on. */
  datatype Decision =
    | Keep(message: Message)
    | Move(status: Status, stage: Stage, window: Option<string>)
    | Abort

  predicate LimitReached(limit: int, count: int) {
    limit > 0 && limit <= count
  }

  /** A finished background sync is repeated when the interval has passed and another interval fits
      before the window, or when the window comes within an interval of the last sync but is not yet
      within the final sync limit. */
  predicate TopUpDue(e: Entry, b: Batch, next: NextWindow, now: Time) {
    || (now - e.lastSync >= b.syncInterval && (next.Chosen? ==> next.w.start > now + b.syncInterval))
    || (next.Chosen? && next.w.start - e.lastSync < b.syncInterval && next.w.start - now >= b.finalSyncLimit)
  }

  function Decide(s: State, e: Entry, b: Batch, supported: bool, next: NextWindow, now: Time): Decision
    requires e.source in s.setup.sources && e.target in s.setup.targets
  {
    var endpointsFull :=
      || LimitReached(s.setup.sources[e.source], Get(s.sourceImports, e.source))
      || LimitReached(s.setup.targets[e.target], Get(s.targetImports, e.target));
    var batchFull := LimitReached(b.syncLimit, Get(s.batchImports, e.batch));
    var firstSync := e.stage == Background && supported;
    if endpointsFull || (firstSync && batchFull) then Keep(WaitingForImports)
    else if firstSync then Move(BackgroundImport, Background, e.window)
    else if next.CriteriaFailed? then Abort
    else if next.Chosen? && next.w.Begun(now) then
      Move(if e.stage != Complete then FinalImport else PostImport, e.stage,
           if next.w.IsEmpty() then e.window else Some(next.w.name))
    else if e.stage != Final || !supported || e.lastSync == ZERO_TIME then
      Keep(if e.message == WaitingForWorker then WaitingForWindow else e.message)
    else if batchFull then Keep(WaitingForImports)
    else if TopUpDue(e, b, next, now) then Move(BackgroundImport, Background, e.window)
    else Keep(e.message)
  }

  /** The entry after a decision that was not aborted. */
  function Decided(e: Entry, d: Decision): Entry {
    match d
    case Keep(message) => e.(message := message)
    case Move(status, stage, window) => e.(status := status, message := StatusText(status), stage := stage, window := window)
    case Abort => e
  }

  /** The request of an idle entry whose instance, source, target and batch are all known. */
  predicate Decidable(s: State, id: InstanceId) {
    && id in s.entries && id in s.instances && s.entries[id].status == Idle
    && s.entries[id].source in s.setup.sources && s.entries[id].target in s.setup.targets && s.entries[id].batch in s.batches
  }

  function DecisionFor(s: State, id: InstanceId, next: NextWindow, now: Time): Decision
    requires Decidable(s, id)
  {
    var e := s.entries[id];
    Decide(s, e, s.batches[e.batch], s.instances[id].SupportsBackgroundImport(), next, now)
  }

  /** The state after the decision for an idle entry: an import that starts is counted. */
  function AfterDecision(s: State, id: InstanceId, d: Decision): State
    requires id in s.entries
  {
    var e, e' := s.entries[id], Decided(s.entries[id], d);
    var granted := e'.IsImporting();
    s.(entries := s.entries[id := e'],
       sourceImports := if granted then Record(s.sourceImports, e.source) else s.sourceImports,
       targetImports := if granted then Record(s.targetImports, e.target) else s.targetImports,
       batchImports := if e'.status == BackgroundImport then Record(s.batchImports, e.batch) else s.batchImports)
  }

  /** A worker asks what to do. `next` is the answer of the window selection, used only when needed. */
  function Request(s: State, id: InstanceId, next: NextWindow, now: Time): Outcome<Command> {
    if Decidable(s, id) then
      var e, d := s.entries[id], DecisionFor(s, id, next, now);
      if d.Abort? then Outcome(s, Err(Internal))
      else
        Outcome(AfterDecision(s, id, d), Ok(CommandFor(Decided(e, d).status)))
    else if id !in s.entries || id !in s.instances then Outcome(s, Err(NotFound))
    else
      var e := s.entries[id];
      if e.status == Idle then Outcome(s, Err(NotFound))
      else if e.lastWorker != Running then Outcome(s, Err(NotPermitted))
      else if e.source !in s.setup.sources then Outcome(s, Err(NotFound))
      else if CommandFor(e.status) == DoNothing then Outcome(s, Err(NotPermitted))
      else Outcome(s, Ok(CommandFor(e.status)))
  }

  // ---- Worker reports ----------------------------------------------------------------------------

  /** The entry after a report; an unknown response changes nothing but the recorded response. */
  function Reported(e: Entry, response: Response, message: Message, now: Time): Entry {
    match response
    case Running => e.(lastWorker := response, message := message)
    case Success => (
      match e.status
      case BackgroundImport =>
        e.(lastWorker := response, stage := Final, status := Idle, message := WaitingForWindow, lastSync := now)
      case FinalImport =>
        e.(lastWorker := response, stage := Complete, status := Idle, message := WaitingForPostImport)
      case PostImport => e.(lastWorker := response, status := WorkerDone, message := StartingTarget)
      case _ => e.(lastWorker := response))
    case Failed => e.(lastWorker := response, status := Error, message := message)
    case Unknown => e.(lastWorker := response)
  }

  /** Every report other than "running" takes the entry off the counters, whatever its status was. */
  function Report(s: State, id: InstanceId, response: Response, message: Message, now: Time): Outcome<Entry> {
    if id !in s.entries || !s.entries[id].IsMigrating() then Outcome(s, Err(NotFound))
    else if response != Running && id !in s.instances then Outcome(s, Err(NotFound))
    else
      var e := s.entries[id];
      var e' := Reported(e, response, message, now);
      var done := response != Running;
      var s' := s.(entries := s.entries[id := e'],
                   sourceImports := if done then Release(s.sourceImports, e.source) else s.sourceImports,
                   targetImports := if done then Release(s.targetImports, e.target) else s.targetImports,
                   batchImports := if done && e.status == BackgroundImport then Release(s.batchImports, e.batch) else s.batchImports);
      Outcome(s', Ok(e'))
  }

  // ---- Administration of entries -----------------------------------------------------------------

  /** Cancels an unfinished entry; the reply tells whether it was committed. Counters are not touched. */
  function Cancel(s: State, id: InstanceId): Outcome<bool> {
    if id !in s.entries then Outcome(s, Err(NotFound))
    else
      var e := s.entries[id];
      if e.status == Finished then Outcome(s, Err(Invalid))
      else Outcome(s.(entries := s.entries[id := e.(status := Canceled, stage := Background, window := None)]),
                   Ok(e.IsCommitted()))
  }

  /** What a canceled entry is given when it is retried: the placement's target, if placing succeeds,
      and the reason why the instance is disabled, if it is. */
  datatype Admission = Admission(target: Option<string>, disabled: Option<string>)

  function InitialStatus(disabled: Option<string>): (Status, Message) {
    match disabled
    case None => (Waiting, InitialChecks)
    case Some(reason) => (Blocked, Text(reason))
  }

  function Retry(s: State, id: InstanceId, a: Admission): Outcome<Entry> {
    if id !in s.entries then Outcome(s, Err(NotFound))
    else
      var e := s.entries[id];
      if e.status != Canceled then Outcome(s, Err(Invalid))
      else if e.batch !in s.batches || id !in s.instances then Outcome(s, Err(NotFound))
      else if a.target.None? then Outcome(s, Err(Internal))
      else
        var (status, message) := InitialStatus(a.disabled);
        var e' := e.(status := status, message := message, stage := Background, window := None, target := a.target.value);
        Outcome(s.(entries := s.entries[id := e']), Ok(e'))
  }

  function Delete(s: State, id: InstanceId): Outcome<()> {
    if id !in s.entries then Outcome(s, Err(NotFound))
    else if s.entries[id].IsMigrating() then Outcome(s, Err(NotPermitted))
    else Outcome(s.(entries := s.entries - {id}), Ok(()))
  }

  // ---- Batches -----------------------------------------------------------------------------------

  /** An instance assigned to a starting batch. `matches` is the verdict of the batch's own
      expression; None is an expression that fails. */
  datatype Candidate = Candidate(source: string, target: Option<string>, disabled: Option<string>, matches: Option<bool>)

  function NewEntry(batch: string, c: Candidate, force: bool): Entry
    requires c.target.Some? && c.matches.Some?
  {
    var (status, message) :=
      if !c.matches.value && !force then (Conflict, NoLongerMatches)
      else InitialStatus(c.disabled);
    Entry(batch, c.source, c.target.value, status, message, Background, Unknown, ZERO_TIME, None)
  }

  ghost predicate HasValidWindow(s: State, batch: string, now: Time) {
    || (forall k | k in s.windows :: k.0 != batch)
    || (exists k | k in s.windows :: k.0 == batch && s.windows[k].Valid(now))
  }

  /** Queues the assigned instances that are not queued yet and sets the batch running. */
  ghost function StartBatch(s: State, name: string, candidates: map<InstanceId, Candidate>, now: Time): Outcome<()> {
    if name == "" then Outcome(s, Err(NotPermitted))
    else if name !in s.batches then Outcome(s, Err(NotFound))
    else if !s.batches[name].CanStart() then Outcome(s, Err(NotPermitted))
    else if !HasValidWindow(s, name, now) then Outcome(s, Err(Invalid))
    else
      var b := s.batches[name];
      var unqueued := candidates.Keys - s.entries.Keys;
      if unqueued == {} then Outcome(s, Err(Invalid))
      else if exists i | i in unqueued :: candidates[i].target.None? || candidates[i].matches.None? then Outcome(s, Err(Internal))
      else
        var added := map i | i in unqueued :: NewEntry(name, candidates[i], b.forceConflictResolution);
        Outcome(s.(entries := s.entries + added, batches := s.batches[name := b.(status := Started)]), Ok(()))
  }

  function StopBatch(s: State, name: string): Outcome<()> {
    if name == "" then Outcome(s, Err(NotPermitted))
    else if name !in s.batches then Outcome(s, Err(NotFound))
    else if s.batches[name].status != Started then Outcome(s, Err(NotPermitted))
    else Outcome(s.(batches := s.batches[name := s.batches[name].(status := Stopped)]), Ok(()))
  }

  /** A counter after `n` releases: it stops at zero. */
  function LoweredBy(count: int, n: nat): (r: int)
    ensures r <= count && (count >= 0 ==> r >= 0) && (count >= n ==> r == count - n)
  {
    if count <= 0 then count else if count <= n then 0 else count - n
  }

  ghost function OfBatch(entries: map<InstanceId, Entry>, batch: string): set<InstanceId> {
    set i | i in entries && entries[i].batch == batch
  }

  ghost function ImportingFrom(entries: map<InstanceId, Entry>, among: set<InstanceId>, source: string): set<InstanceId> {
    set i | i in among && i in entries && entries[i].IsImporting() && entries[i].source == source
  }

  ghost function ImportingTo(entries: map<InstanceId, Entry>, among: set<InstanceId>, target: string): set<InstanceId> {
    set i | i in among && i in entries && entries[i].IsImporting() && entries[i].target == target
  }

  ghost function SyncingIn(entries: map<InstanceId, Entry>, among: set<InstanceId>, batch: string): set<InstanceId> {
    set i | i in among && i in entries && entries[i].status == BackgroundImport && entries[i].batch == batch
  }

  /** Counters after the importing entries among `gone` have been released. */
  ghost predicate Released(s: State, gone: set<InstanceId>, s': State) {
    && (forall k :: Get(s'.sourceImports, k) == LoweredBy(Get(s.sourceImports, k), |ImportingFrom(s.entries, gone, k)|))
    && (forall k :: Get(s'.targetImports, k) == LoweredBy(Get(s.targetImports, k), |ImportingTo(s.entries, gone, k)|))
    && (forall k :: Get(s'.batchImports, k) == LoweredBy(Get(s.batchImports, k), |SyncingIn(s.entries, gone, k)|))
  }

  /** What a reset may leave: the counters are fixed by what they read, not by which keys they hold. */
  ghost predicate ResetBatch(s: State, name: string, force: bool, o: Outcome<()>) {
    if name !in s.batches then o == Outcome(s, Err(NotFound))
    else if s.batches[name].status == Defined then o == Outcome(s, Ok(()))
    else
      var gone := OfBatch(s.entries, name);
      if !force && exists i | i in gone :: s.entries[i].IsCommitted() then o == Outcome(s, Err(NotPermitted))
      else
        && o.reply == Ok(())
        && Released(s, gone, o.state)
        && o.state == s.(entries := s.entries - gone,
                         batches := s.batches[name := s.batches[name].(status := Defined)],
                         sourceImports := o.state.sourceImports,
                         targetImports := o.state.targetImports,
                         batchImports := o.state.batchImports)
  }

  // ---- Windows -----------------------------------------------------------------------------------

  /** The requested windows by name; of two with one name the later counts. */
  function Requested(ws: seq<Window>): (r: map<string, Window>)
    ensures forall n | n in r :: r[n].name == n && r[n] in ws
    ensures forall w | w in ws :: w.name in r
  {
    if ws == [] then map[]
    else
      var last := ws[|ws| - 1];
      Requested(ws[..|ws| - 1])[last.name := last]
  }

  /** What may become of a window that entries hold. */
  predicate MayReplace(held: Window, wanted: Window) {
    && !(wanted.start > held.start)
    && !(wanted.end != ZERO_TIME && wanted.end < held.end)
    && !(wanted.capacity != 0 && (wanted.capacity < held.capacity || held.capacity == 0))
  }

  ghost predicate ReplacementAllowed(s: State, batch: string, requested: map<string, Window>) {
    forall i | i in s.entries && s.entries[i].batch == batch && s.entries[i].window.Some? ::
      var n := s.entries[i].window.value;
      (batch, n) in s.windows ==> n in requested && MayReplace(s.windows[(batch, n)], requested[n])
  }

  function WithWindows(windows: map<(string, string), Window>, batch: string, requested: map<string, Window>): map<(string, string), Window> {
    var others := set k | k in windows && k.0 != batch;
    var own := set n | n in requested :: (batch, n);
    map k | k in others + own :: if k.0 == batch then requested[k.1] else windows[k]
  }

  /** Replaces the windows of a batch. `accepted` tells whether the database took every row. */
  ghost function ReplaceWindows(s: State, batch: string, ws: seq<Window>, accepted: bool, now: Time): Outcome<()> {
    var requested := Requested(ws);
    if exists w | w in ws :: !w.Valid(now) then Outcome(s, Err(Invalid))
    else if !ReplacementAllowed(s, batch, requested) then Outcome(s, Err(Invalid))
    else if !accepted then Outcome(s, Err(Internal))
    else Outcome(s.(windows := WithWindows(s.windows, batch, requested)), Ok(()))
  }

  ghost function DeleteWindow(s: State, name: string, batch: string): Outcome<()> {
    if exists i | i in s.entries :: s.entries[i].batch == batch && s.entries[i].window == Some(name) then Outcome(s, Err(Invalid))
    else if (batch, name) !in s.windows then Outcome(s, Err(NotFound))
    else Outcome(s.(windows := s.windows - {(batch, name)}), Ok(()))
  }

  // ---- The daemon --------------------------------------------------------------------------------

  /** The periodic tasks of the daemon move entries through the statuses no worker reaches. */
  datatype DaemonMove =
    | Block | Unblock | Create | CreateFailed(again: bool) | CreateDone
    | Finish | FinishFailed | FindConflict | Resolve | CheckFailed | MissDeadline

  function AfterMove(e: Entry, m: DaemonMove, message: Message): Option<Entry> {
    match m
    case Block => if e.status == Blocked || e.status == Waiting then Some(e.(status := Blocked, message := message)) else None
    case Unblock => if e.status == Blocked then Some(e.(status := Waiting, message := message)) else None
    case Create => if e.status == Waiting then Some(e.(status := Creating, message := message)) else None
    case CreateFailed(again) =>
      if e.status == Creating then Some(e.(status := if again then Waiting else Error, message := message, stage := Background)) else None
    case CreateDone =>
      if e.status == Creating then Some(e.(status := Idle, message := WaitingForWorker, stage := Background)) else None
    case Finish => if e.status == WorkerDone then Some(e.(status := Finished, message := message, window := None)) else None
    case FinishFailed => if e.status == WorkerDone then Some(e.(status := Error, message := message, stage := Background)) else None
    case FindConflict => if e.status == WorkerDone then Some(e.(status := Conflict, message := message)) else None
    case Resolve =>
      if e.status == Conflict then Some(e.(status := if e.stage == Complete then WorkerDone else Waiting, message := message)) else None
    case CheckFailed => if e.status == WorkerDone then Some(e.(status := Error, message := message)) else None
    case MissDeadline =>
      if e.status == FinalImport then Some(e.(status := Idle, message := message, stage := Final, window := None))
      else if e.status == PostImport || e.status == WorkerDone then
        Some(e.(status := Waiting, message := message, stage := Background, window := None))
      else None
  }

  function Daemon(s: State, id: InstanceId, m: DaemonMove, message: Message): State {
    if id !in s.entries then s
    else
      match AfterMove(s.entries[id], m, message)
      case None => s
      case Some(e) => s.(entries := s.entries[id := e])
  }

  // ---- Steps and runs ----------------------------------------------------------------------------

  /** One operation together with everything the environment contributes to it. */
  datatype Op =
    | RequestCommand(id: InstanceId, next: NextWindow)
    | WorkerReport(id: InstanceId, response: Response, message: Message)
    | CancelEntry(id: InstanceId)
    | RetryEntry(id: InstanceId, admission: Admission)
    | DeleteEntry(id: InstanceId)
    | Start(name: string, candidates: map<InstanceId, Candidate>)
    | Stop(name: string)
    | Reset(name: string, force: bool)
    | SetWindows(name: string, ws: seq<Window>, accepted: bool)
    | DropWindow(window: string, name: string)
    | DaemonStep(id: InstanceId, move: DaemonMove, message: Message)
    | SyncInstance(id: InstanceId, devices: InstanceSync.Devices)

  /** One atomic operation at instant `now` takes `s` to `s'`. */
  ghost predicate Step(s: State, op: Op, now: Time, s': State) {
    match op
    case RequestCommand(id, next) =>
      && (id in s.entries && s.entries[id].batch in s.batches ==> IsNextWindow(s, id, s.entries[id], now, next))
      && s' == Request(s, id, next, now).state
    case WorkerReport(id, response, message) => s' == Report(s, id, response, message, now).state
    case CancelEntry(id) => s' == Cancel(s, id).state
    case RetryEntry(id, admission) => s' == Retry(s, id, admission).state
    case DeleteEntry(id) => s' == Delete(s, id).state
    case Start(name, candidates) => s' == StartBatch(s, name, candidates, now).state
    case Stop(name) => s' == StopBatch(s, name).state
    case Reset(name, force) => exists o :: ResetBatch(s, name, force, o) && s' == o.state
    case SetWindows(name, ws, accepted) => s' == ReplaceWindows(s, name, ws, accepted, now).state
    case DropWindow(window, name) => s' == DeleteWindow(s, window, name).state
    case DaemonStep(id, move, message) => s' == Daemon(s, id, move, message)
    case SyncInstance(id, devices) => id in s.instances && s' == s.(instances := s.instances[id := devices])
  }

  /** A run: the states visited, the operations between them and their instants. */
  datatype Run = Run(states: seq<State>, ops: seq<Op>, times: seq<Time>) {
    ghost predicate Legal() {
      && |states| == |ops| + 1 == |times| + 1
      && forall k | 0 <= k < |ops| :: Step(states[k], ops[k], times[k], states[k + 1])
    }
  }

  /** A freshly configured server: nothing is queued and every counter is zero. */
  ghost predicate Initial(s: State) {
    && s.entries == map[]
    && s.sourceImports == map[] && s.targetImports == map[] && s.batchImports == map[]
    && forall k | k in s.windows :: s.windows[k].name == k.1 && s.windows[k].capacity >= 0
  }
}
