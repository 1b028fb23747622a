/** Migration windows: validity, the fit of a duration, the earliest window of a list and list validation. */
module Windows {
  import opened Common

  /** `apiName` is the verdict of the external name check on `name`. */
  datatype Window = Window(name: string, apiName: bool, start: Time, end: Time, lockout: Time, capacity: int) {
    predicate IsEmpty() {
      start == ZERO_TIME && end == ZERO_TIME && lockout == ZERO_TIME
    }

    predicate Begun(now: Time) {
      start == ZERO_TIME || start < now
    }

    predicate Ended(now: Time) {
      end != ZERO_TIME && end < now
    }

    predicate Locked(now: Time) {
      Ended(now) || (lockout != ZERO_TIME && lockout < now)
    }

    /** Unset ends read as the zero time here, so a lockout demands a set end. */
    predicate Valid(now: Time) {
      && apiName
      && !(start != ZERO_TIME && end != ZERO_TIME && end < start)
      && !(end != ZERO_TIME && end < now)
      && !(lockout != ZERO_TIME && start > lockout)
      && !(lockout != ZERO_TIME && end < lockout)
      && capacity >= 0
    }

    predicate FitsDuration(duration: Duration, now: Time) {
      if !Valid(now) then false
      else if Locked(now) then false
      else if end == ZERO_TIME then true
      else (if start < now then now else start) + duration + MINUTE < end
    }
  }

  /** A valid window has a good name and capacity, its times are in order, and it is not over. */
  lemma ValidMeans(w: Window, now: Time)
    ensures w.Valid(now) <==>
              && w.apiName && w.capacity >= 0
              && (w.end == ZERO_TIME || (w.start <= w.end && now <= w.end))
              && (w.lockout == ZERO_TIME || w.start <= w.lockout <= w.end)
  {
  }

  /** A valid window fits a duration if it is not locked and, unless its end is unset, the duration and a minute
      end before it does, counted from its start or from now. */
  lemma FitsMeans(w: Window, duration: Duration, now: Time)
    ensures w.FitsDuration(duration, now) <==>
              && w.Valid(now)
              && (w.lockout == ZERO_TIME || now <= w.lockout)
              && (w.end == ZERO_TIME || (w.start + duration + MINUTE < w.end && now + duration + MINUTE < w.end))
  {
  }

  /** The window that stands for "no windows are defined". */
  const EMPTY_WINDOW := Window("", false, ZERO_TIME, ZERO_TIME, ZERO_TIME, 0)

  /** What an earliest window of `ws` is; None stands for "no window is available". */
  ghost predicate IsEarliest(ws: set<Window>, duration: Duration, now: Time, r: Option<Window>) {
    if ws == {} then r == Some(EMPTY_WINDOW)
    else match r
      case None => forall w | w in ws :: !w.FitsDuration(duration, now)
      case Some(w) =>
        && w in ws && w.FitsDuration(duration, now)
        && forall v | v in ws && v.FitsDuration(duration, now) :: w.start <= v.start
  }

  method GetEarliest(ws: seq<Window>, minDuration: Duration, now: Time) returns (r: Option<Window>)
    ensures IsEarliest((set w | w in ws), minDuration, now, r)
  {
    ghost var all := set w | w in ws;
    if |ws| == 0 {
      assert all == {};
      return Some(EMPTY_WINDOW);
    }
    assert ws[0] in all;
    r := None;
    for i := 0 to |ws|
      invariant r.None? ==> forall w | w in ws[..i] :: !w.FitsDuration(minDuration, now)
      invariant r.Some? ==>
        && r.value in ws[..i] && r.value.FitsDuration(minDuration, now)
        && forall w | w in ws[..i] && w.FitsDuration(minDuration, now) :: r.value.start <= w.start
    {
      var w := ws[i];
      assert ws[..i + 1] == ws[..i] + [w];
      if r.None? || w.start < r.value.start {
        if w.FitsDuration(minDuration, now) {
          r := Some(w);
        }
      }
    }
    assert ws[..|ws|] == ws;
    assert forall w | w in all :: w in ws[..|ws|];
  }

  /** A window that fits later, or fits longer, fits now: waiting never opens a window. */
  lemma FitsAntitone(w: Window, duration: Duration, longer: Duration, now: Time, later: Time)
    requires now <= later && duration <= longer
    requires w.FitsDuration(longer, later)
    ensures w.FitsDuration(duration, now)
  {
  }

  /** Once no window of a nonempty list is available, none becomes available by waiting or by asking for more time. */
  lemma UnavailableForever(ws: set<Window>, duration: Duration, longer: Duration, now: Time, later: Time, r: Option<Window>)
    requires ws != {} && now <= later && duration <= longer
    requires IsEarliest(ws, duration, now, None)
    requires IsEarliest(ws, longer, later, r)
    ensures r.None?
  {
  }

  // ---- Validation of a whole list ------------------------------------------------------------

  ghost predicate SortedByStart(ws: seq<Window>) {
    forall i, j | 0 <= i < j < |ws| :: ws[i].start <= ws[j].start
  }

  /** What list validation accepts: valid windows none of which starts before its predecessor's end. */
  ghost predicate Accepted(ws: seq<Window>, now: Time) {
    && (forall i | 0 <= i < |ws| :: ws[i].Valid(now))
    && (forall i | 0 < i < |ws| :: !(ws[i].start < ws[i - 1].end))
  }

  /** `a` is over when `b` starts; an unset end never comes. */
  /** A sorted list is accepted if its windows are valid and each ends no later than the next one starts; an unset end
      counts as the zero time. */
  lemma AcceptedMeans(ws: seq<Window>, now: Time)
    ensures Accepted(ws, now) <==>
              && (forall w | w in ws :: w.Valid(now))
              && forall i | 0 <= i && i + 1 < |ws| :: ws[i].end <= ws[i + 1].start
  {
    if forall i | 0 <= i && i + 1 < |ws| :: ws[i].end <= ws[i + 1].start {
      forall i | 0 < i < |ws|
        ensures !(ws[i].start < ws[i - 1].end)
      {
        var j := i - 1;
        assert ws[j].end <= ws[j + 1].start;
      }
    } else {
      var i :| 0 <= i && i + 1 < |ws| && !(ws[i].end <= ws[i + 1].start);
      assert ws[i + 1].start < ws[(i + 1) - 1].end;
    }
    hide Window.Valid;
  }

  predicate OverBefore(a: Window, b: Window) {
    a.end != ZERO_TIME && a.end <= b.start
  }

  /** No two windows share an instant. */
  ghost predicate Disjoint(ws: seq<Window>) {
    forall i, j | 0 <= i < j < |ws| :: OverBefore(ws[i], ws[j])
  }

  /** Only neighbours are compared, and an unset end is never seen to overlap: an accepted list is
      disjoint exactly when no window but the last one is open-ended. */
  lemma AcceptedIsDisjoint(ws: seq<Window>, now: Time)
    requires SortedByStart(ws) && Accepted(ws, now)
    ensures Disjoint(ws) <==> forall i | 0 <= i < |ws| - 1 :: ws[i].end != ZERO_TIME
  {
    if forall i | 0 <= i < |ws| - 1 :: ws[i].end != ZERO_TIME {
      forall i, j | 0 <= i < j < |ws| ensures OverBefore(ws[i], ws[j]) {
        assert !(ws[i + 1].start < ws[i + 1 - 1].end);
      }
    } else {
      var i :| 0 <= i < |ws| - 1 && ws[i].end == ZERO_TIME;
      var j := i + 1;
      assert !OverBefore(ws[i], ws[j]);
    }
  }

  /** Sorts in place by start time; stands for the library's sort. */
  method SortByStart(ws: array<Window>)
    modifies ws
    ensures SortedByStart(ws[..])
    ensures multiset(ws[..]) == multiset(old(ws[..]))
  {
    for i := 0 to ws.Length
      invariant SortedByStart(ws[..i])
      invariant multiset(ws[..]) == multiset(old(ws[..]))
    {
      SiftDown(ws, i);
    }
    assert ws[..ws.Length] == ws[..];
  }

  method SwapDown(ws: array<Window>, j: nat)
    requires 0 < j < ws.Length
    modifies ws
    ensures ws[j] == old(ws[j - 1]) && ws[j - 1] == old(ws[j])
    ensures forall k | 0 <= k < ws.Length && k != j && k != j - 1 :: ws[k] == old(ws[k])
    ensures multiset(ws[..]) == multiset(old(ws[..]))
  {
    ws[j], ws[j - 1] := ws[j - 1], ws[j];
  }

  /** Moves the window at `i` down to its place among the sorted windows before it. */
  method SiftDown(ws: array<Window>, i: nat)
    requires i < ws.Length && SortedByStart(ws[..i])
    modifies ws
    ensures SortedByStart(ws[..i + 1])
    ensures multiset(ws[..]) == multiset(old(ws[..]))
  {
    var j := i;
    while j > 0 && ws[j].start < ws[j - 1].start
      invariant 0 <= j <= i
      invariant forall p, q | 0 <= p < q <= i && q != j :: ws[p].start <= ws[q].start
      invariant multiset(ws[..]) == multiset(old(ws[..]))
    {
      SwapDown(ws, j);
      j := j - 1;
    }
  }

  /** Whatever the verdict, the caller's list is left sorted by start. */
  method ValidateList(ws: array<Window>, now: Time) returns (ok: bool)
    modifies ws
    ensures SortedByStart(ws[..])
    ensures multiset(ws[..]) == multiset(old(ws[..]))
    ensures ok <==> Accepted(ws[..], now)
  {
    SortByStart(ws);
    for i := 0 to ws.Length
      invariant SortedByStart(ws[..])
      invariant multiset(ws[..]) == multiset(old(ws[..]))
      invariant Accepted(ws[..i], now)
    {
      if !ws[i].Valid(now) {
        return false;
      }
      if i > 0 {
        if ws[i].start < ws[i - 1].end {
          return false;
        }
      }
    }
    assert ws[..ws.Length] == ws[..];
    return true;
  }
}
