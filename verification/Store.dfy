/** The mutable state of the server: keyed caches and the tables of the database. */
module Store {
  import opened Common
  import opened Windows
  import InstanceSync
  import Queue

  /** A map guarded by a lock; every method is one critical section. */
  class Cache<K(==), V> {
    var cache: map<K, V>

    constructor ()
      ensures cache == map[]
    {
      cache := map[];
    }

    /** Refuses a missing map. */
    method Replace(initial: Option<map<K, V>>) returns (ok: bool)
      modifies this
      ensures ok <==> initial.Some?
      ensures cache == if ok then initial.value else old(cache)
    {
      ok := initial.Some?;
      if ok {
        cache := initial.value;
      }
    }

    method Read(key: K) returns (r: Option<V>)
      ensures r == if key in cache then Some(cache[key]) else None
    {
      r := if key in cache then Some(cache[key]) else None;
    }

    /** With `f`, merges the new value into the one there is, or into `zero`. */
    method Write(key: K, zero: V, val: V, f: Option<(V, V) -> V>)
      modifies this
      ensures cache == old(cache)[key := if f.Some? then f.value(if key in old(cache) then old(cache)[key] else zero, val) else val]
    {
      if f.Some? {
        cache := cache[key := f.value(if key in cache then cache[key] else zero, val)];
      } else {
        cache := cache[key := val];
      }
    }

    method Delete(key: K)
      modifies this
      ensures cache == old(cache) - {key}
    {
      cache := cache - {key};
    }
  }

  method CachedImports(counter: Cache<string, int>, name: string) returns (n: int)
    ensures n == Queue.Get(counter.cache, name)
  {
    var r := counter.Read(name);
    n := if r.Some? then r.value else 0;
  }

  method RecordActiveImport(counter: Cache<string, int>, name: string)
    modifies counter
    ensures counter.cache == Queue.Record(old(counter.cache), name)
  {
    counter.Write(name, 0, 1, Some((existing, added) => existing + added));
  }

  method RemoveActiveImport(counter: Cache<string, int>, name: string)
    modifies counter
    ensures counter.cache == Queue.Release(old(counter.cache), name)
  {
    counter.Write(name, 0, 1, Some((existing, added) => if existing > 0 then existing - added else existing));
  }

  class Database {
    const setup: Queue.Setup
    var entries: map<Queue.InstanceId, Queue.Entry>
    var windows: map<(string, string), Window>
    var batches: map<string, Queue.Batch>
    var instances: map<Queue.InstanceId, InstanceSync.Devices>
    const sourceImports: Cache<string, int>
    const targetImports: Cache<string, int>
    const batchImports: Cache<string, int>

    /** The counters are three different caches. */
    ghost predicate Valid() {
      sourceImports != targetImports && targetImports != batchImports && batchImports != sourceImports
    }

    function State(): Queue.State
      reads this, sourceImports, targetImports, batchImports
    {
      Queue.State(setup, entries, windows, batches, instances,
                  sourceImports.cache, targetImports.cache, batchImports.cache)
    }

    constructor (setup: Queue.Setup)
      ensures Valid() && Queue.Initial(State()) && this.setup == setup
      ensures fresh(sourceImports) && fresh(targetImports) && fresh(batchImports)
    {
      this.setup := setup;
      entries, windows, batches, instances := map[], map[], map[], map[];
      sourceImports := new Cache();
      targetImports := new Cache();
      batchImports := new Cache();
    }
  }
}
