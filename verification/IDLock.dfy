/** A map of reference-counted mutexes keyed by ID, as a transition system over any number of threads.
    Every step is what one thread does without another being able to come in between: registering for a
    mutex and waiting for it are separate, and so are unlocking a mutex and dropping its last use. */
module IDLock {
  import opened Common

  type Thread = nat
  type Key = string
  type MutexId = nat

  /** `holder` is who locked the mutex. Steps only ask whether there is a holder, as a mutex does not know it. */
  datatype Mutex = Mutex(holder: Option<Thread>, uses: int) {
    predicate Locked() {
      holder.Some?
    }
  }

  /** Where a thread is in its calls. `m` is the mutex it registered for. */
  datatype Pc =
    | Outside
    | WantsLock(key: Key)                     // in Lock, waiting for the access lock
    | Registering(key: Key)                   // in Lock, holding the access lock
    | Awaiting(key: Key, m: MutexId)          // in Lock, waiting for the mutex
    | Holding(key: Key, m: MutexId)           // between Lock and Unlock
    | WantsUnlock(key: Key, m: MutexId)       // in Unlock, waiting for the access lock
    | Unlocking(key: Key, m: MutexId)         // in Unlock, holding the access lock
    | Dropping(key: Key, m: MutexId)          // in Unlock, the mutex is unlocked, its use still counted
  {
    predicate HasAccess() {
      Registering? || Unlocking? || Dropping?
    }

    predicate Registered() {
      Awaiting? || Holding? || WantsUnlock? || Unlocking? || Dropping?
    }

    /** From the moment the mutex is locked until it is unlocked. */
    predicate Owns() {
      Holding? || WantsUnlock? || Unlocking?
    }
  }

  /** `crashed` records the fatal error of unlocking a mutex that is not locked. */
  datatype State = State(
    access: Option<Thread>, lockMap: map<Key, MutexId>, mutexes: map<MutexId, Mutex>, pcs: map<Thread, Pc>, crashed: bool)
  {
    function At(t: Thread): Pc {
      if t in pcs then pcs[t] else Outside
    }
  }

  datatype Step =
    | CallLock(t: Thread, key: Key)
    | TakeAccess(t: Thread)
    | Register(t: Thread, new_: MutexId)
    | Acquire(t: Thread)
    | CallUnlock(t: Thread)
    | UnlockMutex(t: Thread)
    | Drop(t: Thread)

  ghost predicate Enabled(s: State, step: Step) {
    var pc := s.At(step.t);
    match step
    case CallLock(_, _) => pc.Outside?
    case TakeAccess(_) => (pc.WantsLock? || pc.WantsUnlock?) && s.access.None?
    case Register(_, n) => pc.Registering? && n !in s.mutexes
    case Acquire(_) => pc.Awaiting? && pc.m in s.mutexes && !s.mutexes[pc.m].Locked()
    case CallUnlock(_) => pc.Holding?
    case UnlockMutex(_) => pc.Unlocking?
    case Drop(_) => pc.Dropping? && pc.m in s.mutexes
  }

  function Apply(s: State, step: Step): State {
    var t, pc := step.t, s.At(step.t);
    match step
    case CallLock(_, key) => s.(pcs := s.pcs[t := WantsLock(key)])
    case TakeAccess(_) =>
      if pc.WantsLock? then s.(access := Some(t), pcs := s.pcs[t := Registering(pc.key)])
      else if pc.WantsUnlock? then s.(access := Some(t), pcs := s.pcs[t := Unlocking(pc.key, pc.m)])
      else s
    case Register(_, n) =>
      if !pc.Registering? then s
      else if pc.key in s.lockMap && s.lockMap[pc.key] in s.mutexes then
        var m := s.lockMap[pc.key];
        s.(access := None, mutexes := s.mutexes[m := s.mutexes[m].(uses := s.mutexes[m].uses + 1)],
           pcs := s.pcs[t := Awaiting(pc.key, m)])
      else
        s.(access := None, lockMap := s.lockMap[pc.key := n], mutexes := s.mutexes[n := Mutex(None, 1)],
           pcs := s.pcs[t := Awaiting(pc.key, n)])
    case Acquire(_) =>
      if pc.Awaiting? && pc.m in s.mutexes then
        s.(mutexes := s.mutexes[pc.m := s.mutexes[pc.m].(holder := Some(t))], pcs := s.pcs[t := Holding(pc.key, pc.m)])
      else s
    case CallUnlock(_) => if pc.Holding? then s.(pcs := s.pcs[t := WantsUnlock(pc.key, pc.m)]) else s
    case UnlockMutex(_) =>
      if !pc.Unlocking? then s
      else if pc.key !in s.lockMap then s.(access := None, pcs := s.pcs[t := Outside])
      else
        var m := s.lockMap[pc.key];
        if m !in s.mutexes || !s.mutexes[m].Locked() then s.(crashed := true)
        else s.(mutexes := s.mutexes[m := s.mutexes[m].(holder := None)], pcs := s.pcs[t := Dropping(pc.key, m)])
    case Drop(_) =>
      if pc.Dropping? && pc.m in s.mutexes then
        var uses := s.mutexes[pc.m].uses - 1;
        s.(access := None, mutexes := s.mutexes[pc.m := s.mutexes[pc.m].(uses := uses)],
           lockMap := if uses == 0 then s.lockMap - {pc.key} else s.lockMap,
           pcs := s.pcs[t := Outside])
      else s
  }

  // ---- The invariant -----------------------------------------------------------------------------------

  /** The threads that wait for the mutex or hold it, until they have dropped their use. */
  ghost function Users(s: State, m: MutexId): set<Thread> {
    set t | t in s.pcs && s.pcs[t].Registered() && s.pcs[t].m == m
  }

  /** Only the thread named by the access lock is in a section it guards. */
  ghost predicate AccessIsExclusive(s: State) {
    && (forall t: Thread :: s.At(t).HasAccess() <==> s.access == Some(t))
  }

  /** Every registered thread's mutex is the one in the map for its key. */
  ghost predicate WaitersAreMapped(s: State) {
    forall t | t in s.pcs && s.pcs[t].Registered() ::
      s.pcs[t].key in s.lockMap && s.lockMap[s.pcs[t].key] == s.pcs[t].m
  }

  /** The map holds existing mutexes, one for each key, with as many uses as users, and no unused one. */
  ghost predicate MapIsCounted(s: State) {
    && (forall k, l | k in s.lockMap && l in s.lockMap && s.lockMap[k] == s.lockMap[l] :: k == l)
    && (forall k | k in s.lockMap :: s.lockMap[k] in s.mutexes && s.mutexes[s.lockMap[k]].uses == |Users(s, s.lockMap[k])| > 0)
  }

  /** A mutex is locked exactly while one thread owns it. */
  ghost predicate LocksAreOwned(s: State) {
    && (forall t | t in s.pcs && s.pcs[t].Owns() :: s.pcs[t].m in s.mutexes && s.mutexes[s.pcs[t].m].holder == Some(t))
    && (forall m | m in s.mutexes && s.mutexes[m].Locked() ::
          var t := s.mutexes[m].holder.value; t in s.pcs && s.pcs[t].Owns() && s.pcs[t].m == m)
  }

  ghost predicate Inv(s: State) {
    && !s.crashed && AccessIsExclusive(s) && WaitersAreMapped(s) && MapIsCounted(s) && LocksAreOwned(s)
  }

  lemma UsersAfter(s: State, s': State, t: Thread, pc: Pc, m: MutexId)
    requires s'.pcs == s.pcs[t := pc]
    ensures |Users(s', m)| == |Users(s, m)|
              - (if s.At(t).Registered() && s.At(t).m == m then 1 else 0)
              + (if pc.Registered() && pc.m == m then 1 else 0)
  {
    assert Users(s, m) - {t} == Users(s', m) - {t};
    SizeWithout(Users(s, m), t);
    SizeWithout(Users(s', m), t);
    assert t in Users(s, m) <==> s.At(t).Registered() && s.At(t).m == m;
    assert t in Users(s', m) <==> pc.Registered() && pc.m == m;
    hide Users;
  }

  lemma SizeWithout(threads: set<Thread>, t: Thread)
    ensures |threads - {t}| == |threads| - if t in threads then 1 else 0
  {
  }

  /** A mutex with one use has one user. */
  lemma LastUser(s: State, t: Thread, u: Thread, m: MutexId)
    requires t in Users(s, m) && u in Users(s, m) && |Users(s, m)| == 1
    ensures t == u
  {
    assert |Users(s, m) - {t}| == 0;
  }

  /** Whoever drops the last use of a mutex is the only one left with its key. */
  lemma LastUseOfKey(s: State, t: Thread, u: Thread)
    requires WaitersAreMapped(s) && MapIsCounted(s)
    requires t in s.pcs && s.pcs[t].Registered() && u in s.pcs && s.pcs[u].Registered()
    requires s.pcs[t].key == s.pcs[u].key && s.mutexes[s.pcs[t].m].uses == 1
    ensures t == u
  {
    var m := s.pcs[t].m;
    assert t in Users(s, m) && u in Users(s, m);
    LastUser(s, t, u, m);
  }

  lemma LocksStayOwned(s: State, step: Step)
    requires WaitersAreMapped(s) && LocksAreOwned(s) && Enabled(s, step)
    ensures LocksAreOwned(Apply(s, step)) && Apply(s, step).crashed == s.crashed
  {
    if step.Acquire? {
      LocksOwnedAfterAcquire(s, step);
    } else if step.UnlockMutex? {
      LocksOwnedAfterUnlock(s, step);
    }
  }

  lemma LocksOwnedAfterAcquire(s: State, step: Step)
    requires LocksAreOwned(s) && step.Acquire? && Enabled(s, step)
    ensures LocksAreOwned(Apply(s, step))
  {
  }

  lemma LocksOwnedAfterUnlock(s: State, step: Step)
    requires WaitersAreMapped(s) && LocksAreOwned(s) && step.UnlockMutex? && Enabled(s, step)
    ensures LocksAreOwned(Apply(s, step)) && Apply(s, step).crashed == s.crashed
  {
  }

  lemma AccessStaysExclusive(s: State, step: Step)
    requires WaitersAreMapped(s) && LocksAreOwned(s) && AccessIsExclusive(s) && Enabled(s, step)
    ensures AccessIsExclusive(Apply(s, step))
  {
  }

  lemma WaitersStayMapped(s: State, step: Step)
    requires WaitersAreMapped(s) && LocksAreOwned(s) && MapIsCounted(s) && Enabled(s, step)
    ensures WaitersAreMapped(Apply(s, step))
  {
    hide Users;
    if step.Drop? {
      var t, pc := step.t, s.At(step.t);
      forall u | u in s.pcs && s.pcs[u].Registered() && s.pcs[u].key == pc.key && s.mutexes[pc.m].uses == 1 ensures t == u {
        LastUseOfKey(s, t, u);
      }
    }
  }

  lemma MapCountedAfterRegister(s: State, step: Step)
    requires WaitersAreMapped(s) && MapIsCounted(s) && step.Register? && Enabled(s, step)
    ensures MapIsCounted(Apply(s, step))
  {
    var s', pc := Apply(s, step), s.At(step.t);
    var m := if pc.key in s.lockMap then s.lockMap[pc.key] else step.new_;
    if pc.key !in s.lockMap {
      assert Users(s, m) == {};
    }
    hide Users;
    forall k | k in s'.lockMap
      ensures s'.lockMap[k] in s'.mutexes && s'.mutexes[s'.lockMap[k]].uses == |Users(s', s'.lockMap[k])| > 0
    {
      UsersAfter(s, s', step.t, Awaiting(pc.key, m), s'.lockMap[k]);
    }
  }

  lemma MapCountedAfterDrop(s: State, step: Step)
    requires WaitersAreMapped(s) && MapIsCounted(s) && step.Drop? && Enabled(s, step)
    ensures MapIsCounted(Apply(s, step))
  {
    var s', pc := Apply(s, step), s.At(step.t);
    hide Users;
    forall k | k in s'.lockMap
      ensures s'.lockMap[k] in s'.mutexes && s'.mutexes[s'.lockMap[k]].uses == |Users(s', s'.lockMap[k])| > 0
    {
      UsersAfter(s, s', step.t, Outside, s'.lockMap[k]);
    }
  }

  lemma MapStaysCounted(s: State, step: Step)
    requires WaitersAreMapped(s) && LocksAreOwned(s) && MapIsCounted(s) && Enabled(s, step)
    ensures MapIsCounted(Apply(s, step))
  {
    var s' := Apply(s, step);
    if step.Register? {
      MapCountedAfterRegister(s, step);
    } else if step.Drop? {
      MapCountedAfterDrop(s, step);
    } else {
      SameUsers(s, step);
      hide Users;
    }
  }

  lemma SameUsers(s: State, step: Step)
    requires WaitersAreMapped(s) && LocksAreOwned(s) && !step.Register? && !step.Drop? && Enabled(s, step)
    ensures forall m :: Users(Apply(s, step), m) == Users(s, m)
  {
  }

  // ---- Runs ------------------------------------------------------------------------------------------

  datatype Run = Run(states: seq<State>, steps: seq<Step>) {
    ghost predicate Legal() {
      && |states| == |steps| + 1
      && states[0] == State(None, map[], map[], map[], false)
      && forall k | 0 <= k < |steps| :: Enabled(states[k], steps[k]) && states[k + 1] == Apply(states[k], steps[k])
    }
  }

  /** The invariant holds throughout every interleaving of any number of threads. */
  lemma {:induction false} AlwaysInv(r: Run, k: nat)
    requires r.Legal() && k < |r.states|
    ensures Inv(r.states[k])
  {
    hide Apply, Enabled, WaitersAreMapped, MapIsCounted, AccessIsExclusive, LocksAreOwned;
    if k == 0 {
      InitialInv();
    } else {
      AlwaysInv(r, k - 1);
      var s, step := r.states[k - 1], r.steps[k - 1];
      LocksStayOwned(s, step);
      AccessStaysExclusive(s, step);
      WaitersStayMapped(s, step);
      MapStaysCounted(s, step);
    }
  }

  lemma InitialInv()
    ensures Inv(State(None, map[], map[], map[], false))
  {
  }

  /** At most one thread at a time is between Lock and Unlock of a key, although mutexes come and go. */
  lemma MutualExclusion(r: Run, k: nat, t: Thread, u: Thread)
    requires r.Legal() && k < |r.states|
    requires var s := r.states[k]; s.At(t).Owns() && s.At(u).Owns() && s.At(t).key == s.At(u).key
    ensures t == u
  {
    AlwaysInv(r, k);
  }

  /** The counter of a mapped mutex is the number of threads waiting for it or holding it; every such thread's
      mutex is the one in the map for its key; unlocking never meets an unlocked mutex. */
  lemma UsesAreExact(r: Run, k: nat)
    requires r.Legal() && k < |r.states|
    ensures var s := r.states[k];
            && !s.crashed
            && (forall key | key in s.lockMap ::
                  s.lockMap[key] in s.mutexes && s.mutexes[s.lockMap[key]].uses == |Users(s, s.lockMap[key])| > 0)
            && (forall t | s.At(t).Registered() :: s.At(t).key in s.lockMap && s.lockMap[s.At(t).key] == s.At(t).m)
            && (forall t | s.At(t).Unlocking? ::
                  && s.At(t).key in s.lockMap && s.lockMap[s.At(t).key] in s.mutexes
                  && s.mutexes[s.lockMap[s.At(t).key]].Locked())
  {
    AlwaysInv(r, k);
  }

  /** A waiting thread is never stranded: it can lock its mutex now, or another thread owns that very mutex
      under the same key and can take its next step or waits for the access lock, whose owner can. */
  lemma NoWaiterIsStranded(r: Run, k: nat, t: Thread)
    requires r.Legal() && k < |r.states| && r.states[k].At(t).Awaiting?
    ensures var s := r.states[k];
            || Enabled(s, Acquire(t))
            || exists u :: s.At(u).Owns() && s.At(u).m == s.At(t).m && s.At(u).key == s.At(t).key && u != t
  {
    AlwaysInv(r, k);
    var s := r.states[k];
    var m := s.At(t).m;
    if s.mutexes[m].Locked() {
      var u := s.mutexes[m].holder.value;
      assert s.At(u).Owns() && s.At(u).m == m;
      assert s.lockMap[s.At(u).key] == s.lockMap[s.At(t).key];
    }
  }

  /** There is no deadlock: while a thread is inside Lock, Unlock or a critical section, one of those threads
      can take a step. */
  lemma SomeThreadCanStep(r: Run, k: nat, t: Thread, new_: MutexId)
    requires r.Legal() && k < |r.states| && !r.states[k].At(t).Outside? && new_ !in r.states[k].mutexes
    ensures exists step: Step :: !step.CallLock? && Enabled(r.states[k], step)
  {
    AlwaysInv(r, k);
    var s := r.states[k];
    var mover := if s.access.Some? then s.access.value
                 else if s.At(t).Awaiting? && s.mutexes[s.At(t).m].Locked() then s.mutexes[s.At(t).m].holder.value
                 else t;
    var pc := s.At(mover);
    var step :=
      if pc.Registering? then Register(mover, new_)
      else if pc.Awaiting? then Acquire(mover)
      else if pc.Holding? then CallUnlock(mover)
      else if pc.Unlocking? then UnlockMutex(mover)
      else if pc.Dropping? then Drop(mover)
      else TakeAccess(mover);
    assert Enabled(s, step);
  }

  /** When every thread has left, the map is empty again: no mutex is leaked. */
  lemma NothingLeaks(r: Run, k: nat)
    requires r.Legal() && k < |r.states| && forall t: Thread :: r.states[k].At(t).Outside?
    ensures r.states[k].lockMap == map[] && r.states[k].access == None
  {
    AlwaysInv(r, k);
    var s := r.states[k];
    forall m ensures Users(s, m) == {} {
      assert forall t | t in s.pcs :: s.At(t).Outside?;
    }
    assert forall t: Thread :: !s.At(t).HasAccess();
    assert s.lockMap.Keys == {};
  }

  function KeyOf(pc: Pc): Option<Key> {
    match pc
    case Outside => None
    case WantsLock(key) => Some(key)
    case Registering(key) => Some(key)
    case Awaiting(key, _) => Some(key)
    case Holding(key, _) => Some(key)
    case WantsUnlock(key, _) => Some(key)
    case Unlocking(key, _) => Some(key)
    case Dropping(key, _) => Some(key)
  }

  /** The key of a thread's last call of Lock, if it has not returned from Unlock since. */
  function Asked(steps: seq<Step>, t: Thread): Option<Key> {
    if steps == [] then None
    else
      var last, before := steps[|steps| - 1], Asked(steps[..|steps| - 1], t);
      if last.t != t then before
      else if last.CallLock? then Some(last.key)
      else if last.Drop? then None
      else before
  }

  lemma StepKeepsKey(s: State, step: Step)
    requires Inv(s) && Enabled(s, step)
    ensures forall t | t != step.t :: Apply(s, step).At(t) == s.At(t)
    ensures KeyOf(Apply(s, step).At(step.t)) ==
            match step
            case CallLock(_, key) => Some(key)
            case Drop(_) => None
            case _ => KeyOf(s.At(step.t))
  {
    hide Users;
  }

  /** A thread waits for, holds and releases exactly the key it asked for, from its call of Lock to the end of its
      call of Unlock. */
  lemma {:induction false} ThreadsHaveTheirKeys(r: Run, k: nat, t: Thread)
    requires r.Legal() && k < |r.states|
    ensures KeyOf(r.states[k].At(t)) == Asked(r.steps[..k], t)
  {
    if k > 0 {
      ThreadsHaveTheirKeys(r, k - 1, t);
      AlwaysInv(r, k - 1);
      StepKeepsKey(r.states[k - 1], r.steps[k - 1]);
      assert r.steps[..k][..k - 1] == r.steps[..k - 1];
    }
    hide Inv;
  }
}
