/** The selection of the next window, loop by loop, and the proof that there always is an answer. */
module WindowSelection {
  import opened Common
  import opened Windows
  import opened Queue
  import opened Store

  ghost function InUseAmong(entries: map<InstanceId, Entry>, among: set<InstanceId>, name: string): set<InstanceId> {
    set i | i in among && i in entries && entries[i].window == Some(name)
  }

  lemma OneMoreInUse(entries: map<InstanceId, Entry>, done: set<InstanceId>, i: InstanceId, name: string)
    requires i in entries && i !in done
    ensures |InUseAmong(entries, done + {i}, name)| == |InUseAmong(entries, done, name)| + if entries[i].window == Some(name) then 1 else 0
  {
    var before := InUseAmong(entries, done, name);
    assert InUseAmong(entries, done + {i}, name) == if entries[i].window == Some(name) then before + {i} else before;
  }

  /** How many entries, of whatever batch, hold a window of each name. */
  method CountWindowsInUse(entries: map<InstanceId, Entry>) returns (inUse: map<string, int>)
    ensures forall n :: Get(inUse, n) == |InUse(entries, n)|
  {
    inUse := map[];
    var todo := entries.Keys;
    ghost var done: set<InstanceId> := {};
    while todo != {}
      invariant todo !! done && todo + done == entries.Keys
      invariant forall n :: Get(inUse, n) == |InUseAmong(entries, done, n)|
      decreases todo
    {
      var i :| i in todo;
      forall n {
        OneMoreInUse(entries, done, i, n);
      }
      var window := entries[i].window;
      if window.Some? {
        inUse := Record(inUse, window.value);
      }
      todo, done := todo - {i}, done + {i};
    }
    forall n ensures InUseAmong(entries, entries.Keys, n) == InUse(entries, n) {}
  }

  ghost function Elements(ws: seq<Window>): set<Window> {
    set w | w in ws
  }

  lemma ElementsOfAppend(ws: seq<Window>, w: Window)
    ensures Elements(ws + [w]) == Elements(ws) + {w}
  {
  }

  ghost function OpenAmong(s: State, e: Entry, among: set<(string, string)>): set<Window> {
    set k | k in among && k in s.windows && k.0 == e.batch && HasRoom(s.entries, e.window, s.windows[k]) :: s.windows[k]
  }

  lemma OneMoreOpen(s: State, e: Entry, done: set<(string, string)>, k: (string, string))
    requires k in s.windows
    ensures OpenAmong(s, e, done + {k}) ==
            OpenAmong(s, e, done) + if k.0 == e.batch && HasRoom(s.entries, e.window, s.windows[k]) then {s.windows[k]} else {}
  {
    hide HasRoom;
  }

  lemma OpenOfAll(s: State, e: Entry)
    ensures OpenAmong(s, e, {}) == {} && OpenAmong(s, e, s.windows.Keys) == Available(s, e)
  {
    hide HasRoom;
  }

  /** The windows of the entry's batch that are below capacity or its own. */
  method FilterWindows(s: State, e: Entry, inUse: map<string, int>) returns (open: seq<Window>)
    requires forall n :: Get(inUse, n) == |InUse(s.entries, n)|
    ensures Elements(open) == Available(s, e)
  {
    hide OpenAmong, Available, InUse;
    OpenOfAll(s, e);
    open := [];
    var todo := s.windows.Keys;
    ghost var done: set<(string, string)> := {};
    while todo != {}
      invariant todo + done == s.windows.Keys
      invariant Elements(open) == OpenAmong(s, e, done)
      decreases todo
    {
      var k :| k in todo;
      OneMoreOpen(s, e, done, k);
      var w := s.windows[k];
      if k.0 == e.batch && (w.capacity == 0 || Get(inUse, w.name) < w.capacity || (e.window.Some? && w.name == e.window.value)) {
        ElementsOfAppend(open, w);
        open := open + [w];
      }
      todo, done := todo - {k}, done + {k};
    }
    assert done == s.windows.Keys;
  }

  /** The most recently added constraint that matches the instance. */
  method SelectConstraint(criteria: map<(InstanceId, string), bool>, cs: seq<Constraint>, id: InstanceId) returns (r: Option<Option<Constraint>>)
    ensures r == Select(criteria, cs, id)
  {
    assert cs[..|cs|] == cs;
    for k := |cs| downto 0
      invariant Select(criteria, cs, id) == Select(criteria, cs[..k], id)
    {
      var c := cs[k];
      assert cs[..k + 1][..k] == cs[..k];
      if (id, c.expr) !in criteria {
        return None;
      }
      if criteria[(id, c.expr)] {
        return Some(Some(c));
      }
    }
    return Some(None);
  }

  lemma OneMoreMatch(s: State, rivals: set<InstanceId>, expr: string, done: set<InstanceId>, i: InstanceId)
    requires i !in done
    ensures |Matching(s, rivals * (done + {i}), expr)| ==
            |Matching(s, rivals * done, expr)| +
            if i in rivals && (i, expr) in s.setup.criteria && s.setup.criteria[(i, expr)] then 1 else 0
  {
    var before := Matching(s, rivals * done, expr);
    assert Matching(s, rivals * (done + {i}), expr) ==
           if i in rivals && (i, expr) in s.setup.criteria && s.setup.criteria[(i, expr)] then before + {i} else before;
  }

  lemma RivalsOfAll(s: State, batch: string, id: InstanceId, expr: string)
    ensures var rivals := Considered(s.entries, batch, id);
            && rivals <= s.entries.Keys
            && Matching(s, rivals * {}, expr) == {}
  {
  }

  lemma IsRival(s: State, batch: string, id: InstanceId, i: InstanceId)
    requires i in s.entries
    ensures var e := s.entries[i];
            i in Considered(s.entries, batch, id) <==> e.batch == batch && e.CountsForConstraints() && !(e.status == Idle && i != id)
  {
  }

  /** How many entries that compete with `id` match the expression; None is a failed expression. */
  method CountMatches(s: State, batch: string, id: InstanceId, expr: string) returns (r: Option<nat>)
    ensures r.None? <==> exists i | i in Considered(s.entries, batch, id) :: (i, expr) !in s.setup.criteria
    ensures r.Some? ==> r.value == |Matching(s, Considered(s.entries, batch, id), expr)|
  {
    hide Considered, Matching, Entry.CountsForConstraints;
    var n := 0;
    var todo := s.entries.Keys;
    ghost var done: set<InstanceId> := {};
    ghost var rivals := Considered(s.entries, batch, id);
    RivalsOfAll(s, batch, id, expr);
    while todo != {}
      invariant todo !! done && todo + done == s.entries.Keys
      invariant n == |Matching(s, rivals * done, expr)|
      invariant forall i | i in rivals && i in done :: (i, expr) in s.setup.criteria
      decreases todo
    {
      var i :| i in todo;
      var e := s.entries[i];
      OneMoreMatch(s, rivals, expr, done, i);
      IsRival(s, batch, id, i);
      if e.batch == batch && e.CountsForConstraints() {
        // Skip other idle instances, which have not been assigned a window yet.
        if !(e.status == Idle && i != id) {
          if (i, expr) !in s.setup.criteria {
            assert i in Considered(s.entries, batch, id);
            return None;
          }
          if s.setup.criteria[(i, expr)] {
            n := n + 1;
          }
        }
      }
      todo, done := todo - {i}, done + {i};
    }
    assert done == s.entries.Keys && rivals * done == rivals;
    return Some(n);
  }

  method GetNextWindow(s: State, id: InstanceId, q: Entry, now: Time) returns (next: NextWindow)
    requires q.batch in s.batches
    ensures IsNextWindow(s, id, q, now, next)
  {
    var inUse := CountWindowsInUse(s.entries);
    var open := FilterWindows(s, q, inUse);
    ghost var ws := Available(s, q);
    assert forall w :: w in open <==> w in ws;

    // If a window is already assigned, and has not ended, then reuse it.
    if q.window.Some? {
      for k := 0 to |open|
        invariant forall j | 0 <= j < k :: !(open[j].name == q.window.value && !open[j].Ended(now))
      {
        if open[k].name == q.window.value && !open[k].Ended(now) {
          assert Reusable(s, q, now, open[k]);
          return Chosen(open[k]);
        }
      }
    }
    assert !exists w :: Reusable(s, q, now, w);

    var constraint: Option<Constraint> := None;
    if q.CountsForConstraints() {
      var selected := SelectConstraint(s.setup.criteria, s.batches[q.batch].constraints, id);
      if selected.None? {
        return CriteriaFailed;
      }
      constraint := selected.value;
    }

    if constraint.None? {
      var w := GetEarliest(open, 0, now);
      return if w.Some? then Chosen(w.value) else NoWindow;
    }

    var matches := CountMatches(s, q.batch, id, constraint.value.expr);
    if matches.None? {
      return CriteriaFailed;
    }
    if constraint.value.max == 0 || matches.value <= constraint.value.max {
      var w := GetEarliest(open, constraint.value.minBootTime, now);
      return if w.Some? then Chosen(w.value) else NoWindow;
    }
    return NoWindow;
  }

  // ---- There always is an answer ---------------------------------------------------------------------

  lemma {:induction false} EarliestExists(ws: set<Window>, duration: Duration, now: Time) returns (r: Option<Window>)
    ensures IsEarliest(ws, duration, now, r)
  {
    if ws == {} {
      r := Some(EMPTY_WINDOW);
    } else {
      var w :| w in ws;
      var others := EarliestExists(ws - {w}, duration, now);
      if w.FitsDuration(duration, now) && (ws == {w} || others.None? || w.start < others.value.start) {
        r := Some(w);
      } else {
        r := if ws == {w} then None else others;
      }
    }
  }

  /** Window selection is total: a request is never left without an answer. */
  lemma NextWindowExists(s: State, id: InstanceId, e: Entry, now: Time) returns (next: NextWindow)
    requires e.batch in s.batches
    ensures IsNextWindow(s, id, e, now, next)
  {
    var ws, cs := Available(s, e), s.batches[e.batch].constraints;
    var selected := if e.CountsForConstraints() then Select(s.setup.criteria, cs, id) else Some(None);
    if w :| Reusable(s, e, now, w) {
      return Chosen(w);
    }
    if selected.None? {
      return CriteriaFailed;
    }
    if selected.value.None? {
      var r := EarliestExists(ws, 0, now);
      return if r.Some? then Chosen(r.value) else NoWindow;
    }
    var c, rivals := selected.value.value, Considered(s.entries, e.batch, id);
    if exists i | i in rivals :: (i, c.expr) !in s.setup.criteria {
      return CriteriaFailed;
    }
    if c.max == 0 || |Matching(s, rivals, c.expr)| <= c.max {
      var r := EarliestExists(ws, c.minBootTime, now);
      return if r.Some? then Chosen(r.value) else NoWindow;
    }
    return NoWindow;
  }
}
