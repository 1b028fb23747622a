/** Counting queue entries: how many satisfy a query, and how one change moves the count. */
module Counting {
  import opened Common
  import opened Queue

  /** The kinds of entries that limits speak about. */
  datatype Query =
    | Holding(batch: string, window: string)
    | Syncing(batch: string)
    | FromSource(source: string)
    | ToTarget(target: string)
    | FinalUnder(batch: string, constraints: seq<Constraint>, criteria: map<(InstanceId, string), bool>, c: Constraint)

  ghost predicate Selects(q: Query, i: InstanceId, e: Entry) {
    match q
    case Holding(b, w) => e.batch == b && e.window == Some(w)
    case Syncing(b) => e.batch == b && e.status == BackgroundImport
    case FromSource(src) => e.source == src && e.IsImporting()
    case ToTarget(t) => e.target == t && e.IsImporting()
    case FinalUnder(b, cs, criteria, c) =>
      e.batch == b && e.status == FinalImport && Select(criteria, cs, i) == Some(Some(c))
  }

  ghost function Picked(entries: map<InstanceId, Entry>, q: Query): set<InstanceId> {
    set i | i in entries && Selects(q, i, entries[i])
  }

  ghost function Count(entries: map<InstanceId, Entry>, q: Query): nat {
    |Picked(entries, q)|
  }

  ghost function Weight(b: bool): nat {
    if b then 1 else 0
  }

  ghost predicate SelectsAt(q: Query, entries: map<InstanceId, Entry>, i: InstanceId) {
    i in entries && Selects(q, i, entries[i])
  }

  lemma CountAfterUpdate(entries: map<InstanceId, Entry>, i: InstanceId, e: Entry, q: Query)
    ensures Count(entries[i := e], q) + Weight(SelectsAt(q, entries, i)) == Count(entries, q) + Weight(Selects(q, i, e))
  {
    hide Selects;
    var before, after := Picked(entries, q), Picked(entries[i := e], q);
    assert before - {i} == after - {i};
    assert |before - {i}| + Weight(i in before) == |before|;
    assert |after - {i}| + Weight(i in after) == |after|;
  }

  lemma CountAfterRemoval(entries: map<InstanceId, Entry>, gone: set<InstanceId>, q: Query)
    ensures Count(entries - gone, q) == Count(entries, q) - |Picked(entries, q) * gone|
  {
    var before, after := Picked(entries, q), Picked(entries - gone, q);
    assert after == before - before * gone;
  }

  lemma CountAfterAddition(entries: map<InstanceId, Entry>, added: map<InstanceId, Entry>, q: Query)
    requires entries.Keys !! added.Keys
    requires forall i | i in added :: !Selects(q, i, added[i])
    ensures Count(entries + added, q) == Count(entries, q)
  {
    assert Picked(entries + added, q) == Picked(entries, q);
  }

  lemma SubsetIsSmaller<T>(a: set<T>, b: set<T>)
    requires a <= b
    ensures |a| <= |b|
  {
    assert b == a + (b - a);
  }
}
