/** Schema upgrades: numbered updates are applied in order, once each, in one transaction. */
module Schema {
  import opened Common

  /** The rows of every table but the version table. */
  type Data = map<string, seq<string>>

  /** An update of the data; None is a failing update. */
  type Update = Data -> Option<Data>

  /** A flattened schema for empty databases and the version it records. */
  datatype Dump = Dump(create: Update, version: int)

  /** `hook` runs before each update with the version it starts from and may fail. */
  datatype Schema = Schema(updates: seq<Update>, hook: int -> bool, dump: Option<Dump>)

  /** The data and the recorded versions, in order; `table` is None until the version table exists. */
  datatype Content = Content(data: Data, table: Option<seq<int>>) {
    function Versions(): seq<int> {
      if table.Some? then table.value else []
    }
  }

  ghost predicate NoHoles(versions: seq<int>) {
    forall i | 0 <= i < |versions| - 1 :: versions[i + 1] == versions[i] + 1
  }

  function Current(versions: seq<int>): int {
    if |versions| == 0 then 0 else versions[|versions| - 1]
  }

  /** Runs and records one update. */
  function Updated(s: Schema, version: int, c: Content): (r: Option<Content>)
    requires 0 <= version < |s.updates|
    ensures r.Some? ==> r.value.table == Some(c.Versions() + [version + 1])
  {
    if !s.hook(version) then None
    else
      match s.updates[version](c.data)
      case None => None
      case Some(data) => Some(Content(data, Some(c.Versions() + [version + 1])))
  }

  /** The updates from version `from` up to version `end`, in order, each recorded once. */
  function Upgraded(s: Schema, from: int, end: int, c: Content): Option<Content>
    requires 0 <= from <= end <= |s.updates|
    decreases end - from
  {
    if from == end then Some(c)
    else
      match Updated(s, from, c)
      case None => None
      case Some(next) => Upgraded(s, from + 1, end, next)
  }

  /** What ensuring the schema makes of a database; None is an error. */
  ghost function Ensured(s: Schema, c: Content): Option<Content> {
    var c := c.(table := Some(c.Versions()));
    var current := Current(c.Versions());
    if !NoHoles(c.Versions()) then None
    else if current == 0 && s.dump.Some? then
      match s.dump.value.create(c.data)
      case None => None
      case Some(data) => Some(Content(data, Some(c.Versions() + [s.dump.value.version])))
    else if current > |s.updates| || current < 0 then None
    else Upgraded(s, current, |s.updates|, c)
  }

  // ---- The implementation ------------------------------------------------------------------------------

  class Database {
    var content: Content
    var foreignKeys: bool

    constructor (data: Data)
      ensures content == Content(data, None) && foreignKeys
    {
      content, foreignKeys := Content(data, None), true;
    }
  }

  method CheckNoHoles(versions: seq<int>) returns (ok: bool)
    requires |versions| > 0
    ensures ok <==> NoHoles(versions)
  {
    for i := 0 to |versions| - 1
      invariant forall j | 0 <= j < i :: versions[j + 1] == versions[j] + 1
    {
      if versions[i + 1] != versions[i] + 1 {
        return false;
      }
    }
    return true;
  }

  method ApplyUpdates(s: Schema, tx: Content, start: nat) returns (r: Option<Content>, changed: bool)
    requires start <= |s.updates|
    ensures r == Upgraded(s, start, |s.updates|, tx)
    ensures r.Some? ==> (changed <==> start < |s.updates|)
  {
    var c := tx;
    var current := start;
    changed := false;
    while current < |s.updates|
      invariant start <= current <= |s.updates|
      invariant Upgraded(s, start, |s.updates|, tx) == Upgraded(s, current, |s.updates|, c)
      invariant changed <==> start < current
    {
      changed := true;
      if !s.hook(current) {
        return None, false;
      }
      var updated := s.updates[current](c.data);
      if updated.None? {
        return None, false;
      }
      assert Updated(s, current, c) == Some(Content(updated.value, Some(c.Versions() + [current + 1])));
      current := current + 1;
      c := Content(updated.value, Some(c.Versions() + [current]));
    }
    return Some(c), changed;
  }

  /** Brings the database up to date in one transaction. After an error the content is what it was, but
      the enforcement of foreign keys has been switched off. Recorded versions are never negative. */
  method Ensure(s: Schema, db: Database) returns (ok: bool, initial: int, changed: bool)
    requires forall v | v in db.content.Versions() :: v >= 0
    modifies db
    ensures ok <==> Ensured(s, old(db.content)).Some?
    ensures ok ==> Some(db.content) == Ensured(s, old(db.content)) && db.foreignKeys
    ensures ok ==> initial == Current(old(db.content).Versions())
    ensures !ok ==> db.content == old(db.content) && !db.foreignKeys
  {
    db.foreignKeys := false;
    var tx := db.content;
    if tx.table.None? {
      tx := tx.(table := Some([]));
    }
    var current := 0;
    changed := false;
    if |tx.table.value| > 0 {
      var whole := CheckNoHoles(tx.table.value);
      if !whole {
        return false, -1, false;
      }
      current := tx.table.value[|tx.table.value| - 1];
      assert current in db.content.Versions();
    }

    if current == 0 && s.dump.Some? {
      var created := s.dump.value.create(tx.data);
      if created.None? {
        return false, -1, false;
      }
      tx := Content(created.value, Some(tx.table.value + [s.dump.value.version]));
    } else {
      if current > |s.updates| {
        return false, -1, false;
      }
      var r;
      r, changed := ApplyUpdates(s, tx, current);
      if r.None? {
        return false, -1, false;
      }
      tx := r.value;
    }
    db.content := tx;
    db.foreignKeys := true;
    return true, current, changed;
  }

  /** The numbers after `from` up to `end`. */
  function Numbers(from: int, end: int): (r: seq<int>)
    requires from <= end
    ensures |r| == end - from
    ensures forall i | 0 <= i < |r| :: r[i] == from + 1 + i
    decreases end - from
  {
    if from == end then [] else [from + 1] + Numbers(from + 1, end)
  }

  // ---- Properties ----------------------------------------------------------------------------------------

  /** Upgrading can be interrupted anywhere: the updates up to `mid` followed by the rest are the updates. */
  lemma {:induction false} UpgradeComposes(s: Schema, from: int, mid: int, end: int, c: Content)
    requires 0 <= from <= mid <= end <= |s.updates|
    ensures var first := Upgraded(s, from, mid, c);
            Upgraded(s, from, end, c) == if first.None? then None else Upgraded(s, mid, end, first.value)
    decreases mid - from
  {
    if from < mid && Updated(s, from, c).Some? {
      UpgradeComposes(s, from + 1, mid, end, Updated(s, from, c).value);
    }
  }

  /** An upgrade records exactly the versions it passes, in order, and keeps the record without holes. */
  lemma {:induction false} UpgradeRecords(s: Schema, from: int, end: int, c: Content)
    requires 0 <= from <= end <= |s.updates| && Upgraded(s, from, end, c).Some?
    ensures Upgraded(s, from, end, c).value.Versions() == c.Versions() + Numbers(from, end)
    ensures c.table.Some? || from < end ==> Upgraded(s, from, end, c).value.table.Some?
    ensures NoHoles(c.Versions()) && Current(c.Versions()) == from ==>
              NoHoles(Upgraded(s, from, end, c).value.Versions()) && Current(Upgraded(s, from, end, c).value.Versions()) == end
    decreases end - from
  {
    hide Updated;
    if from < end {
      var next := Updated(s, from, c).value;
      UpgradeRecords(s, from + 1, end, next);
      assert c.Versions() + Numbers(from, end) == next.Versions() + Numbers(from + 1, end);
    }
  }

  /** Only the updates that are run matter. */
  lemma {:induction false} UpgradeOfPrefix(s: Schema, p: Schema, from: int, end: int, c: Content)
    requires p.updates <= s.updates && p.hook == s.hook && 0 <= from <= end <= |p.updates|
    ensures Upgraded(p, from, end, c) == Upgraded(s, from, end, c)
    decreases end - from
  {
    if from < end && Updated(s, from, c).Some? {
      UpgradeOfPrefix(s, p, from + 1, end, Updated(s, from, c).value);
    }
  }

  /** Upgrading an existing database with any prefix of the updates and then with all of them ends where
      upgrading it once with all of them does, whatever dumps the two schemas have. */
  lemma PrefixThenAll(s: Schema, p: Schema, c: Content)
    requires p.updates <= s.updates && p.hook == s.hook
    requires Current(c.Versions()) > 0 || (s.dump.None? && p.dump.None?)
    requires Ensured(p, c).Some?
    ensures Ensured(s, Ensured(p, c).value) == Ensured(s, c)
  {
    var c0 := c.(table := Some(c.Versions()));
    var current := Current(c.Versions());
    UpgradeOfPrefix(s, p, current, |p.updates|, c0);
    UpgradeRecords(s, current, |p.updates|, c0);
    UpgradeComposes(s, current, |p.updates|, |s.updates|, c0);
  }

  // ---- Fresh databases and dumps -------------------------------------------------------------------------

  /** The data after the updates from version `from` on, whatever is recorded about them. */
  function DataAfter(s: Schema, from: int, data: Data): Option<Data>
    requires 0 <= from <= |s.updates|
    decreases |s.updates| - from
  {
    if from == |s.updates| then Some(data)
    else if !s.hook(from) then None
    else
      match s.updates[from](data)
      case None => None
      case Some(next) => DataAfter(s, from + 1, next)
  }

  lemma {:induction false} UpgradeData(s: Schema, from: int, c: Content)
    requires 0 <= from <= |s.updates|
    ensures Upgraded(s, from, |s.updates|, c).Some? <==> DataAfter(s, from, c.data).Some?
    ensures DataAfter(s, from, c.data).Some? ==> Upgraded(s, from, |s.updates|, c).value.data == DataAfter(s, from, c.data).value
    decreases |s.updates| - from
  {
    if from < |s.updates| && Updated(s, from, c).Some? {
      UpgradeData(s, from + 1, Updated(s, from, c).value);
    }
  }

  /** What a database is like apart from the rows of the version table: its data and current version. */
  function Essence(c: Option<Content>): Option<(Data, int)> {
    if c.None? then None else Some((c.value.data, Current(c.value.Versions())))
  }

  /** The old dump followed by the remaining updates gives the new dump, for the data there is. */
  predicate DumpsAgree(s: Schema, p: Schema, data: Data)
    requires s.dump.Some? && p.dump.Some? && 0 <= p.dump.value.version <= |s.updates|
    requires p.dump.value.create(data).Some?
  {
    var fromOld := DataAfter(s, p.dump.value.version, p.dump.value.create(data).value);
    var fromNew := s.dump.value.create(data);
    fromOld == fromNew && (fromNew.Some? ==> s.dump.value.version == |s.updates|)
  }

  /** A fresh database that was created from an old dump and then upgraded equals one created from the new
      dump, if and only if the dumps agree. The version tables are the same, too, if and only if moreover no
      update was left to run: a dump records one version, updates record each. */
  lemma FreshThenAll(s: Schema, p: Schema, c: Content)
    requires s.dump.Some? && p.dump.Some? && 0 < p.dump.value.version <= |s.updates|
    requires c.Versions() == [] && Ensured(p, c).Some?
    ensures Essence(Ensured(s, Ensured(p, c).value)) == Essence(Ensured(s, c)) <==> DumpsAgree(s, p, c.data)
    ensures Ensured(s, Ensured(p, c).value) == Ensured(s, c) <==>
              DumpsAgree(s, p, c.data) && (p.dump.value.version == |s.updates| || Ensured(s, c).None?)
  {
    var v := p.dump.value.version;
    var old' := Ensured(p, c).value;
    assert c.Versions() + [v] == [v];
    assert old' == Content(p.dump.value.create(c.data).value, Some([v]));
    UpgradeData(s, v, old');
    if Upgraded(s, v, |s.updates|, old').Some? {
      UpgradeRecords(s, v, |s.updates|, old');
      assert |Upgraded(s, v, |s.updates|, old').value.Versions()| == 1 + |s.updates| - v;
    }
    hide Upgraded, DataAfter, Numbers;
  }

  /** Repeating an upgrade that succeeded changes nothing, if and only if no dump is used, or the dump is as
      new as the updates and its version fits what is recorded: an older one leaves the rest for the next time. */
  lemma RepeatIsNoOp(s: Schema, c: Content)
    requires Ensured(s, c).Some?
    ensures Ensured(s, Ensured(s, c).value) == Ensured(s, c) <==>
              (Current(c.Versions()) == 0 && s.dump.Some? ==>
                 0 < s.dump.value.version == |s.updates| && NoHoles(c.Versions() + [s.dump.value.version]))
  {
    var c0 := c.(table := Some(c.Versions()));
    var done, current := Ensured(s, c).value, Current(c.Versions());
    if !(current == 0 && s.dump.Some?) {
      UpgradeRecords(s, current, |s.updates|, c0);
    }
    var now := Current(done.Versions());
    if Ensured(s, done).Some? && !(now == 0 && s.dump.Some?) {
      UpgradeRecords(s, now, |s.updates|, done);
      if now < |s.updates| {
        assert |Ensured(s, done).value.Versions()| > |done.Versions()|;
      }
    }
  }

  lemma NoHolesMeans(vs: seq<int>)
    ensures NoHoles(vs) <==> forall i | 0 < i < |vs| :: vs[i] - vs[i - 1] == 1
  {
    if NoHoles(vs) {
      forall i | 0 < i < |vs|
        ensures vs[i] - vs[i - 1] == 1
      {
        assert vs[(i - 1) + 1] == vs[i - 1] + 1;
      }
    } else {
      var i :| 0 <= i < |vs| - 1 && vs[i + 1] != vs[i] + 1;
      assert !(vs[i + 1] - vs[(i + 1) - 1] == 1);
    }
  }

  /** When ensuring the schema succeeds, and what it leaves. The recorded versions have to grow by one. On a database
      without versions a dump is created and its version recorded; any other must not be newer than the updates, and
      then those that are missing run, each recorded. */
  lemma EnsureMeans(s: Schema, c: Content)
    ensures var vs := if c.table.Some? then c.table.value else [];
            var current := if |vs| == 0 then 0 else vs[|vs| - 1];
            var whole := forall i | 0 < i < |vs| :: vs[i] - vs[i - 1] == 1;
            var r := Ensured(s, c);
            if current == 0 && s.dump.Some? then
              && (r.Some? <==> whole && s.dump.value.create(c.data).Some?)
              && (r.Some? ==> r.value == Content(s.dump.value.create(c.data).value, Some(vs + [s.dump.value.version])))
            else
              && (r.Some? <==> whole && 0 <= current <= |s.updates| && DataAfter(s, current, c.data).Some?)
              && (r.Some? ==>
                    && r.value.data == DataAfter(s, current, c.data).value
                    && r.value.table == Some(vs + Numbers(current, |s.updates|)))
  {
    var vs := c.Versions();
    NoHolesMeans(vs);
    var current, c0 := Current(vs), c.(table := Some(vs));
    if !(current == 0 && s.dump.Some?) && 0 <= current <= |s.updates| {
      UpgradeData(s, current, c0);
      if Upgraded(s, current, |s.updates|, c0).Some? {
        UpgradeRecords(s, current, |s.updates|, c0);
      }
    }
    hide Upgraded, DataAfter, Numbers, NoHoles;
  }
}
