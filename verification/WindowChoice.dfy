/** What the window selection answers, said of the stored windows and queue entries alone. */
module WindowChoice {
  import opened Common
  import opened Windows
  import opened Queue

  /** The entries, of any batch, that hold a window of this name. */
  ghost function Holders(s: State, name: string): set<InstanceId> {
    set i | i in s.entries && s.entries[i].window == Some(name)
  }

  /** A stored window that another entry may still take. */
  ghost predicate Free(s: State, batch: string, k: (string, string)) {
    k in s.windows && k.0 == batch && (s.windows[k].capacity == 0 || |Holders(s, k.1)| < s.windows[k].capacity)
  }

  ghost predicate StoredByName(s: State) {
    forall k | k in s.windows :: s.windows[k].name == k.1
  }

  lemma FreeIsAvailable(s: State, e: Entry, w: Window)
    requires StoredByName(s) && e.window.None?
    ensures w in Available(s, e) <==> exists k | k in s.windows :: Free(s, e.batch, k) && s.windows[k] == w
  {
    forall k | k in s.windows
      ensures Holders(s, k.1) == InUse(s.entries, s.windows[k].name)
    {
    }
    if w in Available(s, e) {
      var k :| k in s.windows && k.0 == e.batch && HasRoom(s.entries, e.window, s.windows[k]) && s.windows[k] == w;
      assert Free(s, e.batch, k);
    }
  }

  /** An entry without a window that is given one is sent outside of all stored windows, as if there were none, if
      and only if each window of its batch has a capacity and as many holders. */
  lemma OutsideAnyWindow(s: State, id: InstanceId, e: Entry, now: Time, next: NextWindow)
    requires StoredByName(s) && e.batch in s.batches && e.window.None?
    requires IsNextWindow(s, id, e, now, next) && next.Chosen?
    ensures (forall k | k in s.windows && k.0 == e.batch :: s.windows[k] != next.w) <==>
              forall k | k in s.windows && k.0 == e.batch ::
                s.windows[k].capacity != 0 && s.windows[k].capacity <= |Holders(s, k.1)|
  {
    FreeIsAvailable(s, e, next.w);
    forall k | k in s.windows && k.0 == e.batch
      ensures Free(s, e.batch, k) <==> s.windows[k] in Available(s, e)
    {
      FreeIsAvailable(s, e, s.windows[k]);
    }
    hide Free, HasRoom, Holders;
  }

  /** An entry that holds a window which is not over keeps it, even when it is full, and no other one. */
  lemma HeldWindowIsKept(s: State, id: InstanceId, e: Entry, now: Time, next: NextWindow)
    requires StoredByName(s) && e.batch in s.batches && IsNextWindow(s, id, e, now, next)
    requires e.window.Some? && (e.batch, e.window.value) in s.windows
    requires var w := s.windows[(e.batch, e.window.value)]; w.end == ZERO_TIME || now <= w.end
    ensures next == Chosen(s.windows[(e.batch, e.window.value)])
  {
    var w := s.windows[(e.batch, e.window.value)];
    assert HasRoom(s.entries, e.window, w) && w in Available(s, e);
    assert Reusable(s, e, now, w);
    hide IsEarliest, Select, Considered, Matching;
  }

  // ---- The earliest window -------------------------------------------------------------------------------

  /** The name and the times of the window are in order, and so much time is left before it ends or locks. */
  predicate Suits(w: Window, duration: Duration, now: Time) {
    && w.apiName && w.capacity >= 0
    && (w.end == ZERO_TIME ||
        (w.start <= w.end && now <= w.end && w.start + duration + MINUTE < w.end && now + duration + MINUTE < w.end))
    && (w.lockout == ZERO_TIME || (w.start <= w.lockout <= w.end && now <= w.lockout))
  }

  /** A free window that suits, and none starts earlier; outside of all windows if none is free. */
  ghost predicate EarliestFree(s: State, batch: string, duration: Duration, now: Time, next: NextWindow) {
    match next
    case CriteriaFailed => false
    case NoWindow => (exists k :: Free(s, batch, k)) && forall k | Free(s, batch, k) :: !Suits(s.windows[k], duration, now)
    case Chosen(w) =>
      if forall k :: !Free(s, batch, k) then w == EMPTY_WINDOW
      else
        && (exists k :: Free(s, batch, k) && s.windows[k] == w) && Suits(w, duration, now)
        && forall k | Free(s, batch, k) && Suits(s.windows[k], duration, now) :: w.start <= s.windows[k].start
  }

  lemma EarliestIsFree(s: State, e: Entry, duration: Duration, now: Time, next: NextWindow)
    requires StoredByName(s) && e.window.None? && EarliestAvailable(Available(s, e), duration, now, next)
    ensures EarliestFree(s, e.batch, duration, now, next)
  {
    hide Free, Available;
    var ws := Available(s, e);
    forall w
      ensures w in ws <==> exists k | k in s.windows :: Free(s, e.batch, k) && s.windows[k] == w
    {
      FreeIsAvailable(s, e, w);
    }
    forall k | Free(s, e.batch, k)
      ensures k in s.windows && s.windows[k] in ws
      ensures Suits(s.windows[k], duration, now) <==> s.windows[k].FitsDuration(duration, now)
    {
      KeyOfFree(s, e.batch, k);
    }
    assert ws == {} <==> forall k :: !Free(s, e.batch, k);
    hide Suits, Window.FitsDuration;
    if next.Chosen? && ws != {} {
      assert next.w in ws;
    }
  }

  lemma KeyOfFree(s: State, batch: string, k: (string, string))
    requires Free(s, batch, k)
    ensures k in s.windows && k.0 == batch
  {
  }

  // ---- Constraints ---------------------------------------------------------------------------------------

  predicate Matches(s: State, i: InstanceId, c: Constraint) {
    (i, c.expr) in s.setup.criteria && s.setup.criteria[(i, c.expr)]
  }

  predicate Differs(s: State, i: InstanceId, c: Constraint) {
    (i, c.expr) in s.setup.criteria && !s.setup.criteria[(i, c.expr)]
  }

  lemma {:induction false} SelectLast(criteria: map<(InstanceId, string), bool>, cs: seq<Constraint>, i: InstanceId, j: nat)
    requires j < |cs|
    requires forall l | j < l < |cs| :: (i, cs[l].expr) in criteria && !criteria[(i, cs[l].expr)]
    ensures (i, cs[j].expr) !in criteria ==> Select(criteria, cs, i) == None
    ensures (i, cs[j].expr) in criteria && criteria[(i, cs[j].expr)] ==> Select(criteria, cs, i) == Some(Some(cs[j]))
  {
    if j < |cs| - 1 {
      SelectLast(criteria, cs[..|cs| - 1], i, j);
    }
  }

  lemma {:induction false} SelectNone(criteria: map<(InstanceId, string), bool>, cs: seq<Constraint>, i: InstanceId)
    requires forall c | c in cs :: (i, c.expr) in criteria && !criteria[(i, c.expr)]
    ensures Select(criteria, cs, i) == Some(None)
  {
    if cs != [] {
      SelectNone(criteria, cs[..|cs| - 1], i);
    }
  }

  /** The statuses of an entry that waits for its turn or is past the point where it got it. */
  predicate Competes(e: Entry) {
    e.status == Idle || e.status == FinalImport || e.status == PostImport || e.status == WorkerDone
  }

  /** The instance is in its final import or past it, or is the one that asks. */
  predicate UnderWay(s: State, asking: InstanceId, i: InstanceId)
    requires i in s.entries
  {
    var e := s.entries[i];
    e.status == FinalImport || e.status == PostImport || e.status == WorkerDone || (i == asking && e.status == Idle)
  }

  /** The entry itself and those of its batch that are under way, as far as they match. */
  ghost function Rivals(s: State, id: InstanceId, batch: string, c: Constraint): set<InstanceId> {
    set i | i in s.entries && UnderWay(s, id, i) && s.entries[i].batch == batch && Matches(s, i, c)
  }

  /** Without a constraint that applies, the earliest free window that is not over is chosen. */
  lemma UnconstrainedAnswer(s: State, id: InstanceId, e: Entry, now: Time, next: NextWindow)
    requires StoredByName(s) && e.batch in s.batches && e.window.None? && IsNextWindow(s, id, e, now, next)
    requires Competes(e) ==> forall c | c in s.batches[e.batch].constraints :: Differs(s, id, c)
    ensures EarliestFree(s, e.batch, 0, now, next)
  {
    if Competes(e) {
      SelectNone(s.setup.criteria, s.batches[e.batch].constraints, id);
    }
    assert !exists w :: Reusable(s, e, now, w);
    hide EarliestAvailable, Select, Considered, Matching, Available;
    EarliestIsFree(s, e, 0, now, next);
  }

  /** With one, the last that matches decides: if more entries than it allows would be under way there is no
      window; otherwise the earliest free window is chosen that leaves the time it demands. */
  lemma ConstrainedAnswer(s: State, id: InstanceId, e: Entry, now: Time, next: NextWindow, j: nat)
    requires StoredByName(s) && e.batch in s.batches && e.window.None? && IsNextWindow(s, id, e, now, next)
    requires Competes(e) && j < |s.batches[e.batch].constraints| && Matches(s, id, s.batches[e.batch].constraints[j])
    requires forall l | j < l < |s.batches[e.batch].constraints| :: Differs(s, id, s.batches[e.batch].constraints[l])
    requires forall i | i in s.entries && s.entries[i].batch == e.batch && UnderWay(s, id, i) ::
               (i, s.batches[e.batch].constraints[j].expr) in s.setup.criteria
    ensures var c := s.batches[e.batch].constraints[j];
            if c.max != 0 && |Rivals(s, id, e.batch, c)| > c.max then next == NoWindow
            else EarliestFree(s, e.batch, c.minBootTime, now, next)
  {
    var c := s.batches[e.batch].constraints[j];
    SelectLast(s.setup.criteria, s.batches[e.batch].constraints, id, j);
    assert Matching(s, Considered(s.entries, e.batch, id), c.expr) == Rivals(s, id, e.batch, c);
    assert !exists w :: Reusable(s, e, now, w);
    hide EarliestAvailable, Select, Considered, Matching, Available, Rivals, EarliestFree;
    if !(c.max != 0 && |Rivals(s, id, e.batch, c)| > c.max) {
      EarliestIsFree(s, e, c.minBootTime, now, next);
    }
  }

  /** The selection fails exactly if an expression that has to be asked fails: one of a constraint that no later
      one hides, or that of the constraint that applies, for an entry that competes. */
  lemma FailedExpression(s: State, id: InstanceId, e: Entry, now: Time, next: NextWindow, j: nat)
    requires e.batch in s.batches && e.window.None? && IsNextWindow(s, id, e, now, next)
    requires Competes(e) && j < |s.batches[e.batch].constraints|
    requires forall l | j < l < |s.batches[e.batch].constraints| :: Differs(s, id, s.batches[e.batch].constraints[l])
    requires !Differs(s, id, s.batches[e.batch].constraints[j])
    ensures var c := s.batches[e.batch].constraints[j];
            next == CriteriaFailed <==>
              || (id, c.expr) !in s.setup.criteria
              || exists i | i in s.entries && UnderWay(s, id, i) :: (i, c.expr) !in s.setup.criteria && s.entries[i].batch == e.batch
  {
    SelectLast(s.setup.criteria, s.batches[e.batch].constraints, id, j);
    assert !exists w :: Reusable(s, e, now, w);
    var c := s.batches[e.batch].constraints[j];
    forall i | i in s.entries
      ensures i in Considered(s.entries, e.batch, id) <==> UnderWay(s, id, i) && s.entries[i].batch == e.batch
    {
    }
    hide Select, Matching, Available, IsEarliest, Considered, UnderWay;
    if (id, c.expr) in s.setup.criteria {
      assert Select(s.setup.criteria, s.batches[e.batch].constraints, id) == Some(Some(c));
    }
  }
}
