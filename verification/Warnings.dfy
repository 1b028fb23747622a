/** Warnings: repeated reports are merged into one row, and messages no longer reported are pruned. */
module Warnings {
  import opened Common

  type Uuid = nat

  const NO_UUID: Uuid := 0

  datatype Scope = Scope(scope: string, entityType: string, entity: string) {
    /** A scope without entity type or entity covers all of them. */
    predicate Match(other: Scope) {
      && (entity == [] || entity == other.entity)
      && (entityType == [] || entityType == other.entityType)
      && scope == other.scope
    }
  }

  datatype Warning = Warning(uuid: Uuid, kind: string, scope: Scope, status: string, firstSeen: Time, lastSeen: Time,
                             updated: Time, messages: seq<string>, count: int)
  {
    predicate Valid() {
      && uuid != NO_UUID && kind != [] && scope.scope != [] && scope.entityType != [] && scope.entity != []
      && status != [] && messages != [] && count != 0
    }

    predicate SameKey(other: Warning) {
      kind == other.kind && scope == other.scope
    }
  }

  type Rows = map<Uuid, Warning>

  /** The messages that are in the set, or those that are not, in order. */
  function Filter(messages: seq<string>, s: set<string>, keep: bool): seq<string>
  {
    if messages == [] then []
    else
      var last := messages[|messages| - 1];
      Filter(messages[..|messages| - 1], s, keep) + if last in s <==> keep then [last] else []
  }

  function Elements(messages: seq<string>): set<string> {
    set m | m in messages
  }

  /** Messages not reported again stay, in front of the reported ones. */
  function MergedMessages(known: seq<string>, reported: seq<string>): seq<string> {
    Filter(known, Elements(reported), false) + reported
  }

  function Merged(known: Warning, w: Warning, now: Time): Warning {
    w.(uuid := known.uuid, count := w.count + known.count, firstSeen := known.firstSeen, lastSeen := known.updated,
       updated := now, messages := MergedMessages(known.messages, w.messages))
  }

  function First(w: Warning, now: Time): Warning {
    w.(firstSeen := now, lastSeen := now, updated := now)
  }

  ghost function Existing(rows: Rows, w: Warning): (r: Option<Warning>)
    ensures r.None? ==> forall u | u in rows :: !rows[u].SameKey(w)
    ensures r.Some? ==> r.value.SameKey(w) && exists u :: u in rows && rows[u] == r.value
  {
    if u :| u in rows && rows[u].SameKey(w) then Some(rows[u]) else None
  }

  /** Inserting a row replaces the rows it conflicts with. */
  function Upserted(rows: Rows, w: Warning): Rows {
    (map u | u in rows && !rows[u].SameKey(w) :: rows[u])[w.uuid := w]
  }

  ghost function Stored(rows: Rows, w: Warning, now: Time): Warning {
    var known := Existing(rows, w);
    if known.Some? then Merged(known.value, w, now) else First(w, now)
  }

  ghost function Emitted(rows: Rows, w: Warning, now: Time): Rows {
    if w.Valid() then Upserted(rows, Stored(rows, w, now)) else rows
  }

  /** The messages that warnings of a kind report in the scope. */
  function Reported(ws: seq<Warning>, scope: Scope, kind: string): set<string> {
    set i, m | 0 <= i < |ws| && scope.Match(ws[i].scope) && ws[i].kind == kind && m in ws[i].messages :: m
  }

  /** A row in the scope keeps the messages that are still reported; a row without any goes. */
  function PrunedRow(w: Warning, scope: Scope, ws: seq<Warning>): Option<Warning> {
    if !scope.Match(w.scope) then Some(w)
    else
      var seen := Filter(w.messages, Reported(ws, scope, w.kind), true);
      if seen == [] then None else Some(w.(messages := seen))
  }

  function Pruned(rows: Rows, scope: Scope, ws: seq<Warning>): Rows {
    map u | u in rows && PrunedRow(rows[u], scope, ws).Some? :: PrunedRow(rows[u], scope, ws).value
  }

  function Marked(w: Warning, status: string, now: Time): Warning {
    w.(status := status, lastSeen := w.updated, updated := now)
  }

  /** Rows are stored under their identifier and keys are unique; times are in order and no row is empty. */
  ghost predicate Inv(rows: Rows, now: Time) {
    && (forall u | u in rows ::
          && rows[u].uuid == u && rows[u].messages != []
          && rows[u].firstSeen <= rows[u].lastSeen <= rows[u].updated <= now)
    && UniqueKeys(rows)
  }

  ghost predicate UniqueKeys(rows: Rows) {
    forall u, v | u in rows && v in rows && rows[u].SameKey(rows[v]) :: u == v
  }

  // ---- The service ---------------------------------------------------------------------------------------

  method FilterMessages(messages: seq<string>, s: set<string>, keep: bool) returns (r: seq<string>)
    ensures r == Filter(messages, s, keep)
  {
    r := [];
    for i := 0 to |messages|
      invariant r == Filter(messages[..i], s, keep)
    {
      assert messages[..i + 1][..i] == messages[..i];
      if messages[i] in s <==> keep {
        r := r + [messages[i]];
      }
    }
    assert messages[..|messages|] == messages;
  }

  class WarningService {
    var rows: Rows

    constructor ()
      ensures rows == map[]
    {
      rows := map[];
    }

    method DeleteByUUID(id: Uuid) returns (reply: Reply<()>)
      modifies this
      ensures rows == old(rows) - {id}
      ensures reply == if id in old(rows) then Ok(()) else Err(NotFound)
    {
      if id !in rows {
        return Err(NotFound);
      }
      rows := rows - {id};
      return Ok(());
    }

    method GetByKey(w: Warning) returns (found: Option<Warning>)
      requires UniqueKeys(rows)
      ensures found == Existing(rows, w)
    {
      var todo := rows.Keys;
      while todo != {}
        invariant forall u | u in rows && u !in todo :: !rows[u].SameKey(w)
        decreases todo
      {
        var u :| u in todo;
        if u in rows && rows[u].SameKey(w) {
          return Some(rows[u]);
        }
        todo := todo - {u};
      }
      return None;
    }

    method Emit(w: Warning, now: Time) returns (reply: Reply<Warning>)
      requires UniqueKeys(rows)
      modifies this
      ensures rows == Emitted(old(rows), w, now)
      ensures reply == if w.Valid() then Ok(Stored(old(rows), w, now)) else Err(Invalid)
    {
      if !w.Valid() {
        return Err(Invalid);
      }
      var warning := w;
      var found := GetByKey(w);
      if found.Some? {
        var known := found.value;
        var messages := FilterMessages(known.messages, Elements(w.messages), false);
        warning := warning.(uuid := known.uuid, count := warning.count + known.count, firstSeen := known.firstSeen,
                            lastSeen := known.updated, updated := now, messages := messages + w.messages);
      } else {
        warning := warning.(firstSeen := now, lastSeen := now, updated := now);
      }
      rows := Upserted(rows, warning);
      return Ok(warning);
    }

    method MessagesByKind(scope: Scope, ws: seq<Warning>) returns (byKind: map<string, set<string>>)
      ensures forall k :: Reported(ws, scope, k) == if k in byKind then byKind[k] else {}
    {
      byKind := map[];
      for i := 0 to |ws|
        invariant forall k :: Reported(ws[..i], scope, k) == if k in byKind then byKind[k] else {}
      {
        if scope.Match(ws[i].scope) {
          var kind := ws[i].kind;
          byKind := byKind[kind := (if kind in byKind then byKind[kind] else {}) + Elements(ws[i].messages)];
        }
        ReportedStep(ws, i, scope);
      }
      assert ws[..|ws|] == ws;
    }

    /** The row with the messages that are still reported, or None if none is left. */
    static method PruneRow(w: Warning, scope: Scope, byKind: map<string, set<string>>, ghost ws: seq<Warning>)
      returns (pruned: Option<Warning>)
      requires forall k :: Reported(ws, scope, k) == if k in byKind then byKind[k] else {}
      ensures pruned == PrunedRow(w, scope, ws)
      ensures pruned.Some? ==> pruned.value == w.(messages := pruned.value.messages)
    {
      if !scope.Match(w.scope) {
        return Some(w);
      }
      var reported := if w.kind in byKind then byKind[w.kind] else {};
      var seen := FilterMessages(w.messages, reported, true);
      if |seen| == 0 {
        return None;
      }
      return Some(w.(messages := seen));
    }

    method RemoveStale(scope: Scope, ws: seq<Warning>)
      requires forall u | u in rows :: rows[u].uuid == u
      modifies this
      ensures rows == Pruned(old(rows), scope, ws)
    {
      hide PrunedRow, Reported;
      var byKind := MessagesByKind(scope, ws);
      var todo := rows.Keys;
      var all := rows;
      while todo != {}
        invariant todo <= all.Keys
        invariant forall u | u in todo :: u in rows && rows[u] == all[u]
        invariant forall u | u !in todo && u in rows :: u in all && Some(rows[u]) == PrunedRow(all[u], scope, ws)
        invariant forall u | u !in todo && u in all && u !in rows :: PrunedRow(all[u], scope, ws).None?
        decreases todo
      {
        var u :| u in todo;
        var w := all[u];
        assert w.uuid == u;
        var pruned := PruneRow(w, scope, byKind, ws);
        if pruned.None? {
          rows := rows - {w.uuid};
        } else if w.messages != pruned.value.messages {
          rows := rows[w.uuid := pruned.value];
        }
        todo := todo - {u};
      }
    }

    method UpdateStatusByUUID(id: Uuid, status: string, now: Time) returns (reply: Reply<Warning>)
      requires forall u | u in rows :: rows[u].uuid == u
      modifies this
      ensures id !in old(rows) ==> reply == Err(NotFound) && rows == old(rows)
      ensures id in old(rows) ==> reply == Ok(Marked(old(rows)[id], status, now))
      ensures id in old(rows) ==> rows == old(rows)[id := Marked(old(rows)[id], status, now)]
    {
      if id !in rows {
        return Err(NotFound);
      }
      var warning := rows[id];
      warning := warning.(status := status, lastSeen := warning.updated, updated := now);
      rows := rows[warning.uuid := warning];
      return Ok(warning);
    }
  }

  lemma ReportedStep(ws: seq<Warning>, i: nat, scope: Scope)
    requires i < |ws|
    ensures forall k :: Reported(ws[..i + 1], scope, k) ==
              Reported(ws[..i], scope, k) + if scope.Match(ws[i].scope) && ws[i].kind == k then Elements(ws[i].messages) else {}
  {
  }

  // ---- Merging -------------------------------------------------------------------------------------------

  lemma ExistingIs(rows: Rows, w: Warning, u: Uuid)
    requires UniqueKeys(rows) && u in rows && rows[u].SameKey(w)
    ensures Existing(rows, w) == Some(rows[u])
  {
  }

  predicate NoDuplicates(messages: seq<string>) {
    forall i, j | 0 <= i < j < |messages| :: messages[i] != messages[j]
  }

  lemma {:induction false} FilterMembers(messages: seq<string>, s: set<string>, keep: bool, m: string)
    ensures m in Filter(messages, s, keep) <==> m in messages && (m in s <==> keep)
  {
    if messages != [] {
      var last := |messages| - 1;
      FilterMembers(messages[..last], s, keep, m);
      assert messages == messages[..last] + [messages[last]];
    }
  }

  /** What is filtered is an in-order subsequence that misses nothing it should keep. */
  lemma {:induction false} FilterKeepsOrder(messages: seq<string>, s: set<string>, keep: bool) returns (at: seq<nat>)
    ensures |at| == |Filter(messages, s, keep)|
    ensures forall i | 0 <= i < |at| :: at[i] < |messages| && Filter(messages, s, keep)[i] == messages[at[i]]
    ensures forall i, j | 0 <= i < j < |at| :: at[i] < at[j]
    ensures forall k | 0 <= k < |messages| && (messages[k] in s <==> keep) :: k in at
  {
    if messages == [] {
      at := [];
    } else {
      var last := |messages| - 1;
      at := FilterKeepsOrder(messages[..last], s, keep);
      if messages[last] in s <==> keep {
        assert (at + [last])[|at|] == last;
        at := at + [last];
      }
    }
  }

  lemma {:induction false} FilterAll(messages: seq<string>, s: set<string>, keep: bool)
    requires forall i | 0 <= i < |messages| :: messages[i] in s <==> keep
    ensures Filter(messages, s, keep) == messages
  {
    if messages != [] {
      FilterAll(messages[..|messages| - 1], s, keep);
    }
  }

  lemma {:induction false} FilterNone(messages: seq<string>, s: set<string>, keep: bool)
    requires forall i | 0 <= i < |messages| :: messages[i] in s <==> !keep
    ensures Filter(messages, s, keep) == []
  {
    if messages != [] {
      FilterNone(messages[..|messages| - 1], s, keep);
    }
  }

  lemma {:induction false} FilterConcat(a: seq<string>, b: seq<string>, s: set<string>, keep: bool)
    ensures Filter(a + b, s, keep) == Filter(a, s, keep) + Filter(b, s, keep)
  {
    if b == [] {
      assert a + b == a;
    } else {
      assert (a + b)[..|a + b| - 1] == a + b[..|b| - 1];
      FilterConcat(a, b[..|b| - 1], s, keep);
    }
  }

  /** Merging loses no message and invents none. */
  lemma MergeIsUnion(known: seq<string>, reported: seq<string>, m: string)
    ensures m in MergedMessages(known, reported) <==> m in known || m in reported
  {
    FilterMembers(known, Elements(reported), false, m);
  }

  /** Reporting the same messages again changes nothing. */
  lemma MergeSettles(known: seq<string>, reported: seq<string>)
    ensures MergedMessages(MergedMessages(known, reported), reported) == MergedMessages(known, reported)
  {
    var s := Elements(reported);
    var kept := Filter(known, s, false);
    FilterConcat(kept, reported, s, false);
    forall i | 0 <= i < |kept|
      ensures kept[i] !in s
    {
      FilterMembers(known, s, false, kept[i]);
    }
    FilterAll(kept, s, false);
    FilterNone(reported, s, false);
  }

  lemma MergeRepeatsNone(known: seq<string>, reported: seq<string>)
    requires NoDuplicates(known) && NoDuplicates(reported)
    ensures NoDuplicates(MergedMessages(known, reported))
  {
    var s := Elements(reported);
    var kept, merged := Filter(known, s, false), MergedMessages(known, reported);
    var at := FilterKeepsOrder(known, s, false);
    forall i, j | 0 <= i < j < |merged|
      ensures merged[i] != merged[j]
    {
      if i < |kept| <= j {
        FilterMembers(known, s, false, kept[i]);
        assert merged[j] == reported[j - |kept|];
      }
    }
  }

  // ---- Runs ----------------------------------------------------------------------------------------------

  datatype Op =
    | Emit(w: Warning)
    | RemoveStale(scope: Scope, ws: seq<Warning>)
    | UpdateStatus(id: Uuid, status: string)
    | Delete(id: Uuid)

  ghost function Step(rows: Rows, op: Op, now: Time): Rows {
    match op
    case Emit(w) => Emitted(rows, w, now)
    case RemoveStale(scope, ws) => Pruned(rows, scope, ws)
    case UpdateStatus(id, status) => if id in rows then rows[id := Marked(rows[id], status, now)] else rows
    case Delete(id) => rows - {id}
  }

  ghost function Run(ops: seq<(Op, Time)>): Rows {
    if ops == [] then map[]
    else Step(Run(ops[..|ops| - 1]), ops[|ops| - 1].0, ops[|ops| - 1].1)
  }

  predicate ClockAdvances(ops: seq<(Op, Time)>) {
    forall i, j | 0 <= i < j < |ops| :: ops[i].1 <= ops[j].1
  }

  lemma EmitKeepsInv(rows: Rows, w: Warning, now: Time)
    requires Inv(rows, now)
    ensures Inv(Emitted(rows, w, now), now)
  {
  }

  lemma StepKeepsInv(rows: Rows, op: Op, before: Time, now: Time)
    requires Inv(rows, before) && before <= now
    ensures Inv(Step(rows, op, now), now)
  {
    match op
    case Emit(w) => EmitKeepsInv(rows, w, now);
    case RemoveStale(scope, ws) =>
    case UpdateStatus(id, status) =>
    case Delete(id) =>
  }

  /** In every run there is at most one row for a kind and scope, no row without messages, and a warning was
      first seen no later than last seen, and last seen no later than updated. */
  lemma {:induction false} RowsStayValid(ops: seq<(Op, Time)>)
    requires ClockAdvances(ops)
    ensures Inv(Run(ops), if ops == [] then 0 else ops[|ops| - 1].1)
  {
    if ops != [] {
      var last := |ops| - 1;
      RowsStayValid(ops[..last]);
      StepKeepsInv(Run(ops[..last]), ops[last].0, if last == 0 then 0 else ops[last - 1].1, ops[last].1);
    }
  }

  // ---- Pruning -------------------------------------------------------------------------------------------

  /** Pruning a second time changes nothing, and rows outside the scope are left alone. */
  lemma PruneIsIdempotent(rows: Rows, scope: Scope, ws: seq<Warning>)
    ensures Pruned(Pruned(rows, scope, ws), scope, ws) == Pruned(rows, scope, ws)
    ensures forall u | u in rows && !scope.Match(rows[u].scope) :: u in Pruned(rows, scope, ws) && Pruned(rows, scope, ws)[u] == rows[u]
  {
    var once := Pruned(rows, scope, ws);
    forall u | u in once
      ensures PrunedRow(once[u], scope, ws) == Some(once[u])
    {
      if scope.Match(rows[u].scope) {
        var reported := Reported(ws, scope, rows[u].kind);
        forall i | 0 <= i < |once[u].messages|
          ensures once[u].messages[i] in reported
        {
          FilterMembers(rows[u].messages, reported, true, once[u].messages[i]);
        }
        FilterAll(once[u].messages, reported, true);
      }
    }
  }

  /** An empty entity type or entity in the scope stands for all of them. */
  predicate InScopeOf(scope: Scope, other: Scope) {
    && other.scope == scope.scope
    && (|scope.entityType| > 0 ==> other.entityType == scope.entityType)
    && (|scope.entity| > 0 ==> other.entity == scope.entity)
  }

  /** One of the warnings is in the scope, is of the kind and has the message. */
  ghost predicate IsReported(ws: seq<Warning>, scope: Scope, kind: string, m: string) {
    exists j | 0 <= j < |ws| :: InScopeOf(scope, ws[j].scope) && ws[j].kind == kind && m in ws[j].messages
  }

  lemma ReportedMeans(ws: seq<Warning>, scope: Scope, kind: string, m: string)
    ensures m in Reported(ws, scope, kind) <==> IsReported(ws, scope, kind, m)
  {
  }

  lemma RowMeans(w: Warning, scope: Scope, ws: seq<Warning>)
    requires InScopeOf(scope, w.scope)
    ensures var r := PrunedRow(w, scope, ws);
            && (r.Some? <==> exists m | m in w.messages :: IsReported(ws, scope, w.kind, m))
            && (r.Some? ==>
                  && r.value == w.(messages := r.value.messages)
                  && (forall m :: m in r.value.messages <==> m in w.messages && IsReported(ws, scope, w.kind, m))
                  && InOrder(r.value.messages, w.messages))
  {
    hide IsReported, Reported, Filter, InOrder;
    var reported := Reported(ws, scope, w.kind);
    var seen := Filter(w.messages, reported, true);
    forall m
      ensures m in seen <==> m in w.messages && IsReported(ws, scope, w.kind, m)
    {
      ReportedMeans(ws, scope, w.kind, m);
      FilterMembers(w.messages, reported, true, m);
    }
    FilterIsInOrder(w.messages, reported, true);
    if seen != [] {
      assert seen[0] in seen;
    }
  }

  lemma FilterIsInOrder(messages: seq<string>, s: set<string>, keep: bool)
    ensures InOrder(Filter(messages, s, keep), messages)
  {
    var at := FilterKeepsOrder(messages, s, keep);
  }

  /** What pruning a scope does to a row: nothing, if the row is of another scope name, or of another entity type or
      entity than the scope asks for. Otherwise the row keeps exactly the messages that are reported for its kind, in
      order, and goes if there is none. */
  lemma PruneMeans(rows: Rows, scope: Scope, ws: seq<Warning>, u: Uuid)
    requires u in rows
    ensures var w, rows' := rows[u], Pruned(rows, scope, ws);
            && (!InScopeOf(scope, w.scope) ==> u in rows' && rows'[u] == w)
            && (InScopeOf(scope, w.scope) ==>
                  && (u in rows' <==> exists m | m in w.messages :: IsReported(ws, scope, w.kind, m))
                  && (u in rows' ==>
                        && rows'[u] == w.(messages := rows'[u].messages)
                        && (forall m :: m in rows'[u].messages <==> m in w.messages && IsReported(ws, scope, w.kind, m))
                        && InOrder(rows'[u].messages, w.messages)))
    ensures Pruned(rows, scope, ws).Keys <= rows.Keys
  {
    hide IsReported, Reported, Filter, InOrder;
    if InScopeOf(scope, rows[u].scope) {
      RowMeans(rows[u], scope, ws);
      hide PrunedRow;
    }
  }

  /** The first list is what is left of the second when some of its elements are taken out. */
  ghost predicate InOrder(some: seq<string>, all: seq<string>) {
    exists at: seq<nat> ::
      && |at| == |some|
      && (forall i | 0 <= i < |at| :: at[i] < |all| && some[i] == all[at[i]])
      && forall i, j | 0 <= i < j < |at| :: at[i] < at[j]
  }

  /** What emitting a valid warning stores: for a kind and scope not seen before the warning as it is, now; else its
      row with the new status, both counts, the first time kept, the last update as last seen, and now as update. A
      row with the same identifier but another key is replaced; all other rows stay. */
  lemma EmitMeans(rows: Rows, w: Warning, now: Time)
    requires UniqueKeys(rows) && forall u | u in rows :: rows[u].uuid == u
    ensures (w.uuid == 0 || |w.kind| == 0 || |w.scope.scope| == 0 || |w.scope.entityType| == 0 || |w.scope.entity| == 0
             || |w.status| == 0 || |w.messages| == 0 || w.count == 0) <==> !w.Valid()
    ensures !w.Valid() ==> Emitted(rows, w, now) == rows
    ensures w.Valid() && (forall u | u in rows :: rows[u].kind != w.kind || rows[u].scope != w.scope) ==>
              Emitted(rows, w, now) == rows[w.uuid := w.(firstSeen := now, lastSeen := now, updated := now)]
    ensures forall u | w.Valid() && u in rows && rows[u].kind == w.kind && rows[u].scope == w.scope ::
              Emitted(rows, w, now) ==
                rows[u := Warning(u, w.kind, w.scope, w.status, rows[u].firstSeen, rows[u].updated, now,
                                  MergedMessages(rows[u].messages, w.messages), w.count + rows[u].count)]
  {
    hide MergedMessages;
    forall u | w.Valid() && u in rows && rows[u].kind == w.kind && rows[u].scope == w.scope
      ensures Emitted(rows, w, now) ==
                rows[u := Warning(u, w.kind, w.scope, w.status, rows[u].firstSeen, rows[u].updated, now,
                                  MergedMessages(rows[u].messages, w.messages), w.count + rows[u].count)]
    {
      EmitMerges(rows, w, now, u);
    }
  }

  lemma EmitMerges(rows: Rows, w: Warning, now: Time, u: Uuid)
    requires UniqueKeys(rows) && (forall v | v in rows :: rows[v].uuid == v)
    requires w.Valid() && u in rows && rows[u].kind == w.kind && rows[u].scope == w.scope
    ensures Emitted(rows, w, now) ==
              rows[u := Warning(u, w.kind, w.scope, w.status, rows[u].firstSeen, rows[u].updated, now,
                                MergedMessages(rows[u].messages, w.messages), w.count + rows[u].count)]
  {
    hide MergedMessages;
    ExistingIs(rows, w, u);
    assert forall v | v in rows && rows[v].SameKey(w) :: rows[u].SameKey(rows[v]);
  }

  /** Setting the status keeps everything else of the row but the times: the last update becomes last seen. */
  lemma MarkMeans(w: Warning, status: string, now: Time)
    ensures Marked(w, status, now) ==
            Warning(w.uuid, w.kind, w.scope, status, w.firstSeen, w.updated, now, w.messages, w.count)
  {
  }

  /** The reported messages come last, in their order; before them the others, in theirs. */
  lemma MergeKeepsOrder(known: seq<string>, reported: seq<string>)
    ensures var r := MergedMessages(known, reported);
            && |r| >= |reported| && r[|r| - |reported|..] == reported
            && InOrder(r[..|r| - |reported|], known)
            && forall m :: m in r[..|r| - |reported|] <==> m in known && m !in reported
  {
    var kept := Filter(known, Elements(reported), false);
    FilterIsInOrder(known, Elements(reported), false);
    assert (kept + reported)[..|kept|] == kept;
    forall m
      ensures m in kept <==> m in known && m !in reported
    {
      FilterMembers(known, Elements(reported), false, m);
    }
    hide Filter, InOrder;
  }

  // ---- A synchronisation: prune, then report -------------------------------------------------------------

  ghost function EmitAll(rows: Rows, ws: seq<Warning>, now: Time): Rows {
    if ws == [] then rows else Emitted(EmitAll(rows, ws[..|ws| - 1], now), ws[|ws| - 1], now)
  }

  /** New warnings have new identifiers. */
  ghost predicate NewIds(rows: Rows, ws: seq<Warning>) {
    && (forall i | 0 <= i < |ws| :: ws[i].uuid !in rows)
    && (forall i, j | 0 <= i < j < |ws| :: ws[i].uuid != ws[j].uuid)
  }

  ghost predicate InScope(scope: Scope, ws: seq<Warning>) {
    forall i | 0 <= i < |ws| :: scope.Match(ws[i].scope)
  }

  /** No row loses a message to a warning with a new identifier. */
  ghost predicate Grown(rows: Rows, rows': Rows) {
    forall u | u in rows :: u in rows' && rows'[u].SameKey(rows[u]) && forall m | m in rows[u].messages :: m in rows'[u].messages
  }

  lemma EmitGrows(rows: Rows, w: Warning, now: Time)
    requires UniqueKeys(rows) && (forall u | u in rows :: rows[u].uuid == u) && w.uuid !in rows
    ensures Grown(rows, Emitted(rows, w, now))
    ensures Emitted(rows, w, now).Keys <= rows.Keys + {w.uuid}
  {
    hide Filter;
    var rows' := Emitted(rows, w, now);
    forall u | u in rows
      ensures u in rows' && rows'[u].SameKey(rows[u])
      ensures forall m | m in rows[u].messages :: m in rows'[u].messages
    {
      if w.Valid() && rows[u].SameKey(w) {
        ExistingIs(rows, w, u);
        forall m | m in rows[u].messages
          ensures m in rows'[u].messages
        {
          MergeIsUnion(rows[u].messages, w.messages, m);
        }
      }
    }
  }

  lemma EmitStores(rows: Rows, w: Warning, now: Time)
    requires w.Valid()
    ensures var u := Stored(rows, w, now).uuid;
            && u in Emitted(rows, w, now) && Emitted(rows, w, now)[u].SameKey(w)
            && forall m | m in w.messages :: m in Emitted(rows, w, now)[u].messages
  {
  }

  /** Emitting the warnings one by one keeps the rows valid and every row that was there. */
  lemma {:induction false} EmitAllGrows(rows: Rows, ws: seq<Warning>, now: Time)
    requires Inv(rows, now) && NewIds(rows, ws)
    ensures Inv(EmitAll(rows, ws, now), now) && Grown(rows, EmitAll(rows, ws, now))
    ensures forall u | u in EmitAll(rows, ws, now) && u !in rows :: exists i :: 0 <= i < |ws| && ws[i].uuid == u
  {
    if ws != [] {
      var last := |ws| - 1;
      var before := EmitAll(rows, ws[..last], now);
      EmitAllGrows(rows, ws[..last], now);
      assert ws[last].uuid !in before;
      hide Emitted;
      EmitKeepsInv(before, ws[last], now);
      EmitGrows(before, ws[last], now);
      GrownTwice(rows, before, Emitted(before, ws[last], now));
      forall u | u in Emitted(before, ws[last], now) && u !in rows
        ensures exists i :: 0 <= i < |ws| && ws[i].uuid == u
      {
        if u in before {
          var i :| 0 <= i < last && ws[..last][i].uuid == u;
          assert ws[i].uuid == u;
        } else {
          assert ws[last].uuid == u;
        }
      }
    }
  }

  lemma GrownTwice(a: Rows, b: Rows, c: Rows)
    requires Grown(a, b) && Grown(b, c)
    ensures Grown(a, c)
  {
  }

  /** After the warnings of a synchronisation are emitted, each of them has a row with all its messages. */
  lemma {:induction false} EveryReportIsStored(rows: Rows, ws: seq<Warning>, now: Time, i: nat) returns (u: Uuid)
    requires Inv(rows, now) && NewIds(rows, ws) && i < |ws| && ws[i].Valid()
    ensures u in EmitAll(rows, ws, now) && EmitAll(rows, ws, now)[u].SameKey(ws[i])
    ensures forall m | m in ws[i].messages :: m in EmitAll(rows, ws, now)[u].messages
  {
    var last := |ws| - 1;
    var before := EmitAll(rows, ws[..last], now);
    if i == last {
      u := Stored(before, ws[i], now).uuid;
      EmitStores(before, ws[i], now);
    } else {
      u := EveryReportIsStored(rows, ws[..last], now, i);
      EmitAllGrows(rows, ws[..last], now);
      assert ws[last].uuid !in before;
      hide Emitted;
      EmitGrows(before, ws[last], now);
      assert ws[..last][i] == ws[i];
      assert EmitAll(rows, ws, now)[u].SameKey(before[u]) && before[u].SameKey(ws[i]);
      assert EmitAll(rows, ws, now)[u].kind == ws[i].kind;
    }
  }

  ghost predicate HoldsReport(rows: Rows, w: Warning) {
    exists u | u in rows :: rows[u].SameKey(w) && forall m | m in w.messages :: m in rows[u].messages
  }

  /** Every message in the scope is one that was reported for the kind. */
  ghost predicate NothingStale(rows: Rows, scope: Scope, ws: seq<Warning>) {
    forall u, m | u in rows && scope.Match(rows[u].scope) && m in rows[u].messages :: m in Reported(ws, scope, rows[u].kind)
  }

  lemma PruneLeavesNothingStale(rows: Rows, scope: Scope, ws: seq<Warning>)
    ensures NothingStale(Pruned(rows, scope, ws), scope, ws)
  {
    var once := Pruned(rows, scope, ws);
    forall u, m | u in once && scope.Match(once[u].scope) && m in once[u].messages
      ensures m in Reported(ws, scope, once[u].kind)
    {
      FilterMembers(rows[u].messages, Reported(ws, scope, rows[u].kind), true, m);
    }
  }

  lemma EmitLeavesNothingStale(rows: Rows, scope: Scope, ws: seq<Warning>, i: nat, now: Time)
    requires NothingStale(rows, scope, ws) && i < |ws|
    ensures NothingStale(Emitted(rows, ws[i], now), scope, ws)
  {
    hide Filter;
    var rows', w := Emitted(rows, ws[i], now), ws[i];
    forall u, m | u in rows' && scope.Match(rows'[u].scope) && m in rows'[u].messages
      ensures m in Reported(ws, scope, rows'[u].kind)
    {
      if w.Valid() && rows'[u] == Stored(rows, w, now) {
        var known := Existing(rows, w);
        if known.Some? {
          MergeIsUnion(known.value.messages, w.messages, m);
        }
      }
    }
  }

  lemma {:induction false} EmitAllLeavesNothingStale(rows: Rows, scope: Scope, ws: seq<Warning>, n: nat, now: Time)
    requires NothingStale(rows, scope, ws) && n <= |ws|
    ensures NothingStale(EmitAll(rows, ws[..n], now), scope, ws)
  {
    if n > 0 {
      EmitAllLeavesNothingStale(rows, scope, ws, n - 1, now);
      EmitLeavesNothingStale(EmitAll(rows, ws[..n - 1], now), scope, ws, n - 1, now);
      assert ws[..n][..n - 1] == ws[..n - 1];
    }
  }

  lemma EmitKeepsOther(rows: Rows, scope: Scope, w: Warning, now: Time, u: Uuid)
    requires scope.Match(w.scope) && w.uuid != u
    requires u in rows && !scope.Match(rows[u].scope) && forall v | v in rows :: rows[v].uuid == v
    ensures u in Emitted(rows, w, now) && Emitted(rows, w, now)[u] == rows[u]
    ensures forall v | v in Emitted(rows, w, now) :: Emitted(rows, w, now)[v].uuid == v
  {
    hide Filter;
    assert rows[u].scope != w.scope;
    assert !rows[u].SameKey(w);
    var known := Existing(rows, w);
    assert known.Some? ==> known.value.scope == w.scope;
    assert Stored(rows, w, now).uuid != u;
  }

  lemma {:induction false} EmitAllKeepsOthers(rows: Rows, scope: Scope, ws: seq<Warning>, now: Time, u: Uuid)
    requires InScope(scope, ws) && (forall i | 0 <= i < |ws| :: ws[i].uuid != u)
    requires u in rows && !scope.Match(rows[u].scope) && forall v | v in rows :: rows[v].uuid == v
    ensures u in EmitAll(rows, ws, now) && EmitAll(rows, ws, now)[u] == rows[u]
    ensures forall v | v in EmitAll(rows, ws, now) :: EmitAll(rows, ws, now)[v].uuid == v
  {
    hide Emitted;
    if ws != [] {
      var last := |ws| - 1;
      EmitAllKeepsOthers(rows, scope, ws[..last], now, u);
      EmitKeepsOther(EmitAll(rows, ws[..last], now), scope, ws[last], now, u);
    }
  }

  /** A synchronisation prunes its scope and then emits what it found. Afterwards the rows of the scope hold
      every message found and no message that was not found for its kind, and the other rows are as they were. */
  lemma SynchronisationIsExact(rows: Rows, scope: Scope, ws: seq<Warning>, now: Time)
    requires Inv(rows, now) && NewIds(rows, ws) && InScope(scope, ws)
    ensures var rows' := EmitAll(Pruned(rows, scope, ws), ws, now);
            && Inv(rows', now)
            && NothingStale(rows', scope, ws)
            && (forall i | 0 <= i < |ws| && ws[i].Valid() :: HoldsReport(rows', ws[i]))
            && (forall u | u in rows && !scope.Match(rows[u].scope) :: u in rows' && rows'[u] == rows[u])
  {
    hide Emitted;
    var pruned := Pruned(rows, scope, ws);
    var rows' := EmitAll(pruned, ws, now);
    PruneIsIdempotent(rows, scope, ws);
    StepKeepsInv(rows, RemoveStale(scope, ws), now, now);
    EmitAllGrows(pruned, ws, now);
    PruneLeavesNothingStale(rows, scope, ws);
    EmitAllLeavesNothingStale(pruned, scope, ws, |ws|, now);
    assert ws[..|ws|] == ws;
    forall i | 0 <= i < |ws| && ws[i].Valid()
      ensures HoldsReport(rows', ws[i])
    {
      var u := EveryReportIsStored(pruned, ws, now, i);
    }
    forall u | u in rows && !scope.Match(rows[u].scope)
      ensures u in rows' && rows'[u] == rows[u]
    {
      EmitAllKeepsOthers(pruned, scope, ws, now, u);
    }
  }

  // ---- Repeated reports ----------------------------------------------------------------------------------

  function Total(es: seq<(Warning, Time)>): int {
    if es == [] then 0 else Total(es[..|es| - 1]) + es[|es| - 1].0.count
  }

  ghost function EmitEach(rows: Rows, es: seq<(Warning, Time)>): Rows {
    if es == [] then rows else Emitted(EmitEach(rows, es[..|es| - 1]), es[|es| - 1].0, es[|es| - 1].1)
  }

  /** However often a warning is reported, it has one row: the first report's identifier and first-seen time,
      the last report's time as update, and the sum of all counts. */
  lemma {:induction false} CountsAddUp(rows: Rows, es: seq<(Warning, Time)>)
    requires es != [] && forall i | 0 <= i < |es| :: es[i].0.Valid() && es[i].0.SameKey(es[0].0)
    requires UniqueKeys(rows) && (forall u | u in rows :: rows[u].uuid == u) && Existing(rows, es[0].0).None?
    ensures var u := es[0].0.uuid;
            var rows' := EmitEach(rows, es);
            && UniqueKeys(rows') && (forall v | v in rows' :: rows'[v].uuid == v)
            && u in rows' && rows'[u].SameKey(es[0].0)
            && rows'[u].firstSeen == es[0].1 && rows'[u].updated == es[|es| - 1].1 && rows'[u].count == Total(es)
  {
    var last := |es| - 1;
    var w := es[0].0;
    if last == 0 {
      assert es[..0] == [];
    } else {
      CountsAddUp(rows, es[..last]);
      var before := EmitEach(rows, es[..last]);
      assert before[w.uuid].kind == w.kind && es[last].0.kind == w.kind;
      ExistingIs(before, es[last].0, w.uuid);
    }
  }
}
