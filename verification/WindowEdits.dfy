/** What replacing a batch's windows leaves, and which windows final imports start in. */
module WindowEdits {
  import opened Common
  import opened Windows
  import opened Queue
  import opened Counting
  import opened WindowSafety
  import InstanceSync

  lemma RequestedStep(before: seq<Window>, last: Window)
    ensures Requested(before + [last]) == Requested(before)[last.name := last]
  {
    assert (before + [last])[..|before|] == before;
  }

  /** Of several requested windows with one name the last one counts. */
  lemma {:induction false} RequestedIsLast(ws: seq<Window>, j: nat)
    requires j < |ws| && forall m | j < m < |ws| :: ws[m].name != ws[j].name
    ensures ws[j].name in Requested(ws) && Requested(ws)[ws[j].name] == ws[j]
  {
    hide Requested;
    var n := |ws| - 1;
    var last, before := ws[n], ws[..n];
    assert ws == before + [last];
    RequestedStep(before, last);
    if j < n {
      assert before[j] == ws[j];
      RequestedIsLast(before, j);
    }
  }

  /** `a` ends earlier than `b`; an unset end is later than any other. */
  predicate EndsEarlier(a: Window, b: Window) {
    a.end != ZERO_TIME && (b.end == ZERO_TIME || a.end < b.end)
  }

  /** A window that entries hold only ever grows, except that an unset end may be set: that, and nothing
      else, lets it end earlier than before. */
  lemma HeldWindowsGrow(held: Window, wanted: Window)
    requires MayReplace(held, wanted)
    ensures wanted.start <= held.start
    ensures EndsEarlier(wanted, held) <==> held.end == ZERO_TIME && wanted.end != ZERO_TIME
    ensures wanted.capacity == 0 || (held.capacity != 0 && held.capacity <= wanted.capacity)
  {
  }

  /** A replacement is accepted if every requested window is valid, each window of the batch that one of its entries
      holds is requested again (the last of that name counts) with a start no later, an end no earlier or unset and a
      capacity no smaller or unlimited, and the database takes the rows. */
  lemma ReplacementMeans(s: State, batch: string, ws: seq<Window>, accepted: bool, now: Time)
    ensures var o := ReplaceWindows(s, batch, ws, accepted, now);
            && (o.reply.Ok? <==>
                  && accepted
                  && (forall w | w in ws :: w.Valid(now))
                  && forall i | i in s.entries && s.entries[i].batch == batch && s.entries[i].window.Some?
                                && (batch, s.entries[i].window.value) in s.windows ::
                       var n := s.entries[i].window.value;
                       n in Requested(ws) && MayBecome(s.windows[(batch, n)], Requested(ws)[n]))
            && (o.reply.Err? ==> o.state == s)
  {
    hide WithWindows, Requested, Window.Valid;
  }

  predicate MayBecome(held: Window, wanted: Window) {
    && wanted.start <= held.start
    && (wanted.end == ZERO_TIME || held.end <= wanted.end)
    && (wanted.capacity == 0 || 0 != held.capacity <= wanted.capacity)
  }

  /** A stored window is deleted if no entry of its batch holds it. */
  lemma DeletionMeans(s: State, name: string, batch: string)
    ensures var o := DeleteWindow(s, name, batch);
            && (o.reply.Ok? <==>
                  (batch, name) in s.windows && forall i | i in s.entries && s.entries[i].batch == batch :: s.entries[i].window != Some(name))
            && (o.reply.Err? ==> o.state == s)
            && (o.reply.Ok? ==> o.state == s.(windows := s.windows - {(batch, name)}))
  {
  }

  /** After a successful replacement the batch has exactly the requested windows, every other batch has the
      windows it had, and every window that an entry of the batch holds is still there and has only grown. */
  lemma ReplacementIsExact(s: State, batch: string, ws: seq<Window>, accepted: bool, now: Time)
    requires Inv(s)
    ensures var o := ReplaceWindows(s, batch, ws, accepted, now);
            && (o.reply.Err? ==> o.state == s)
            && (o.reply.Ok? ==>
                  && o.state.entries == s.entries && o.state.batches == s.batches
                  && (forall w | w in ws :: w.Valid(now))
                  && (forall k :: k in o.state.windows <==>
                        if k.0 == batch then exists w | w in ws :: w.name == k.1 else k in s.windows)
                  && (forall k | k in o.state.windows ::
                        o.state.windows[k] == if k.0 == batch then Requested(ws)[k.1] else s.windows[k])
                  && (forall i | i in s.entries && s.entries[i].batch == batch && s.entries[i].window.Some? ::
                        var k := (batch, s.entries[i].window.value);
                        k in s.windows && k in o.state.windows && MayReplace(s.windows[k], o.state.windows[k])))
  {
    forall k {
      ReplacedWindow(s.windows, batch, Requested(ws), k);
    }
    hide WithWindows;
  }

  /** A final import starts in a window of the entry's batch that has room, has begun and is neither locked
      nor over. It starts without a window exactly when no window of the batch has room for the entry, as if
      none were defined, or when the window it is given has neither start, end nor lockout. */
  lemma FinalImportsStartInWindows(s: State, id: InstanceId, next: NextWindow, now: Time)
    requires Inv(s) && Decidable(s, id) && IsNextWindow(s, id, s.entries[id], now, next)
    requires Request(s, id, next, now).reply == Ok(FinalizeImport)
    ensures var e, e' := s.entries[id], Request(s, id, next, now).state.entries[id];
            && next.Chosen?
            && (Available(s, e) != {} ==> next.w in Available(s, e) && next.w.Valid(now) && next.w.Begun(now) && !next.w.Locked(now))
            && (e'.window.None? <==> Available(s, e) == {} || next.w.IsEmpty())
            && (e'.window.Some? ==> e'.window == Some(next.w.name) && (e.batch, next.w.name) in s.windows)
  {
    var e, d := s.entries[id], DecisionFor(s, id, next, now);
    DecisionEffect(s, id, next, now);
    FinalGrantWindow(s, id, next, now);
    assert Disciplined(e);
    if !next.w.IsEmpty() {
      NextWindowMayBeTaken(s, id, e, now, next);
    }
    hide IsNextWindow, Inv, Available, DecisionFor;
  }

  /** An entry that has not finished importing holds no window, so its next window is an earliest one. */
  lemma FinalGrantWindow(s: State, id: InstanceId, next: NextWindow, now: Time)
    requires Inv(s) && Decidable(s, id) && IsNextWindow(s, id, s.entries[id], now, next)
    requires Request(s, id, next, now).reply == Ok(FinalizeImport)
    ensures next.Chosen? && next.w.Begun(now) && s.entries[id].stage != Complete
    ensures var ws := Available(s, s.entries[id]);
            if ws == {} then next.w == EMPTY_WINDOW else next.w in ws && next.w.Valid(now) && !next.w.Locked(now)
    ensures var e' := Request(s, id, next, now).state.entries[id];
            e'.window == if next.w.IsEmpty() then None else Some(next.w.name)
  {
    assert Disciplined(s.entries[id]);
    hide Inv;
  }

  /** An idle entry that needs no first sync is granted its final import at once if none of its batch's windows
      has room and the endpoints do. */
  lemma NoRoomMeansNow(s: State, id: InstanceId, now: Time)
    requires Decidable(s, id) && Available(s, s.entries[id]) == {}
    requires s.entries[id].stage == Final && s.batches[s.entries[id].batch].constraints == []
    requires !LimitReached(s.setup.sources[s.entries[id].source], Get(s.sourceImports, s.entries[id].source))
    requires !LimitReached(s.setup.targets[s.entries[id].target], Get(s.targetImports, s.entries[id].target))
    ensures IsNextWindow(s, id, s.entries[id], now, Chosen(EMPTY_WINDOW))
    ensures Request(s, id, Chosen(EMPTY_WINDOW), now).reply == Ok(FinalizeImport)
    ensures Request(s, id, Chosen(EMPTY_WINDOW), now).state.entries[id].window == s.entries[id].window
  {
    hide Available;
  }

  /** Full windows are no windows: the only window of a batch has not even begun and is held to its capacity by
      another entry, and yet a request is granted the final import at once, outside of any window. */
  lemma FullWindowsAreNoWindows() returns (s: State, id: InstanceId, next: NextWindow, now: Time)
    ensures Inv(s) && Decidable(s, id) && IsNextWindow(s, id, s.entries[id], now, next)
    ensures exists k | k in s.windows :: k.0 == s.entries[id].batch && s.windows[k].Valid(now) && !s.windows[k].Begun(now)
    ensures Request(s, id, next, now).reply == Ok(FinalizeImport)
    ensures Request(s, id, next, now).state.entries[id].window.None?
  {
    hide IsNextWindow, Request;
    var b, w := ['b'], ['w'];
    id, next, now := 1, Chosen(EMPTY_WINDOW), 1;
    var window := Window(w, true, 2 * MINUTE, 4 * MINUTE, ZERO_TIME, 1);
    var other := Entry(b, b, b, PostImport, InitialChecks, Complete, Running, ZERO_TIME, Some(w));
    var asking := Entry(b, b, b, Idle, InitialChecks, Final, Success, 1, None);
    var limits, devices := map[b := 0], InstanceSync.Devices([], false, [], []);
    s := State(Setup(limits, limits, map[]), map[0 := other, 1 := asking], map[(b, w) := window],
               map[b := Batch(Started, [], 0, 2, 1, false)], map[0 := devices, 1 := devices], map[], map[], map[]);
    assert InUse(s.entries, w) == {0};
    assert Picked(s.entries, Holding(b, w)) == {0};
    assert Available(s, asking) == {};
    assert (b, w) in s.windows && window.Valid(now);
    NoRoomMeansNow(s, id, now);
  }
}
