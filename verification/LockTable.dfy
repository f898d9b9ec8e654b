/**
 The reference-counted table of per-key locks in blockstore/arc_cache.go.  Taking a lock is two
 steps (count a reference under the table's own mutex, then take the key's mutex) and so is
 giving it back, where the entry may be deleted from the table before the mutex is released.
 Threads interleave between any two steps.
 */
module LockTable {
  import opened Cardinality
  import opened Options

  /** Keys are compared only for order and equality. */
  type Key = nat

  type Tid = nat

  type Id = nat

  /** A lock object on the heap; `key` is the key it was created for (history only). */
  datatype Lock = Lock(key: Key, refcnt: int, writer: Option<Tid>, readers: set<Tid>)

  /** What a thread is going to lock, in this order: one key, or the sorted keys of PutMany. */
  datatype Task = Task(keys: seq<Key>, write: bool)

  datatype Pc =
    | Idle
    | Entering(i: nat)
    | Waiting(i: nat, id: Id)
    | Holding
    | Leaving(i: nat)
    | Unlocking(i: nat, id: Id)

  /** `held` records the mutex the thread took for each key (history only: unlock looks the
      lock up in the table again). */
  datatype Thread = Thread(pc: Pc, task: Task, held: map<Key, Id>)

  datatype State = State(threads: map<Tid, Thread>, lks: map<Key, Id>, locks: map<Id, Lock>)

  datatype Step =
    | Begin(t: Tid, task: Task)
    | Ref(t: Tid, newId: Id)
    | Grab(t: Tid)
    | Finish(t: Tid)
    | Deref(t: Tid)
    | Unlock(t: Tid)

  ghost predicate Increasing(ks: seq<Key>) {
    forall i, j :: 0 <= i < j < |ks| ==> ks[i] < ks[j]
  }

  predicate GoodTask(task: Task) {
    task.keys != [] && (!task.write ==> |task.keys| == 1)
  }

  /** The mutex of lock `id` can be taken. */
  predicate Free(l: Lock, write: bool) {
    l.writer.None? && (write ==> l.readers == {})
  }

  ghost predicate Enabled(s: State, step: Step) {
    && step.t in s.threads
    && var th := s.threads[step.t];
       match step
       case Begin(_, task) => th.pc.Idle? && GoodTask(task) && Increasing(task.keys)
       case Ref(_, id) => th.pc.Entering? && th.pc.i < |th.task.keys| && id !in s.locks
       case Grab(_) => th.pc.Waiting? && th.pc.id in s.locks && Free(s.locks[th.pc.id], th.task.write)
       case Finish(_) => th.pc.Holding?
       case Deref(_) =>
         th.pc.Leaving? && th.pc.i < |th.task.keys| && th.task.keys[th.pc.i] in s.lks && s.lks[th.task.keys[th.pc.i]] in s.locks
       case Unlock(_) => th.pc.Unlocking? && th.pc.id in s.locks
  }

  function SetThread(s: State, t: Tid, th: Thread): (r: State) {
    s.(threads := s.threads[t := th])
  }

  ghost function ApplyRef(s: State, t: Tid, id: Id): State
    requires Enabled(s, Ref(t, id))
  {
    var th := s.threads[t];
    var k := th.task.keys[th.pc.i];
    if k in s.lks && s.lks[k] in s.locks then
      var l := s.locks[s.lks[k]];
      SetThread(s, t, th.(pc := Waiting(th.pc.i, s.lks[k])))
        .(locks := s.locks[s.lks[k] := l.(refcnt := l.refcnt + 1)])
    else
      SetThread(s, t, th.(pc := Waiting(th.pc.i, id)))
        .(lks := s.lks[k := id], locks := s.locks[id := Lock(k, 1, None, {})])
  }

  ghost function ApplyGrab(s: State, t: Tid): State
    requires Enabled(s, Grab(t))
  {
    var th := s.threads[t];
    var Waiting(i, id) := th.pc;
    var l := s.locks[id];
    var l' := if th.task.write then l.(writer := Some(t)) else l.(readers := l.readers + {t});
    var k := if i < |th.task.keys| then th.task.keys[i] else 0;
    SetThread(s, t, Thread(if i + 1 < |th.task.keys| then Entering(i + 1) else Holding, th.task, th.held[k := id]))
      .(locks := s.locks[id := l'])
  }

  ghost function ApplyDeref(s: State, t: Tid): State
    requires Enabled(s, Deref(t))
  {
    var th := s.threads[t];
    var k := th.task.keys[th.pc.i];
    var id := s.lks[k];
    var l := s.locks[id].(refcnt := s.locks[id].refcnt - 1);
    SetThread(s, t, th.(pc := Unlocking(th.pc.i, id)))
      .(locks := s.locks[id := l], lks := if l.refcnt == 0 then s.lks - {k} else s.lks)
  }

  ghost function ApplyUnlock(s: State, t: Tid): State
    requires Enabled(s, Unlock(t))
  {
    var th := s.threads[t];
    var Unlocking(i, id) := th.pc;
    var l := s.locks[id];
    var l' := if th.task.write then l.(writer := None) else l.(readers := l.readers - {t});
    var k := if i < |th.task.keys| then th.task.keys[i] else 0;
    SetThread(s, t, Thread(if i + 1 < |th.task.keys| then Leaving(i + 1) else Idle, th.task, th.held - {k}))
      .(locks := s.locks[id := l'])
  }

  ghost function Apply(s: State, step: Step): State
    requires Enabled(s, step)
  {
    match step
    case Begin(t, task) => SetThread(s, t, Thread(Entering(0), task, map[]))
    case Ref(t, id) => ApplyRef(s, t, id)
    case Grab(t) => ApplyGrab(s, t)
    case Finish(t) => SetThread(s, t, s.threads[t].(pc := Leaving(0)))
    case Deref(t) => ApplyDeref(s, t)
    case Unlock(t) => ApplyUnlock(s, t)
  }

  // ---------- the invariant ----------

  /** The keys whose table entry the thread counts on: a reference is held from the moment it
      is counted until it is given back. */
  ghost function Uses(th: Thread): set<Key> {
    match th.pc
    case Idle => {}
    case Entering(i) => KeySet(th.task.keys, 0, i)
    case Waiting(i, _) => KeySet(th.task.keys, 0, i + 1)
    case Holding => KeySet(th.task.keys, 0, |th.task.keys|)
    case Leaving(i) => KeySet(th.task.keys, i, |th.task.keys|)
    case Unlocking(i, _) => KeySet(th.task.keys, i + 1, |th.task.keys|)
  }

  /** The keys whose mutex the thread has taken and not released. */
  ghost function Has(th: Thread): set<Key> {
    match th.pc
    case Idle => {}
    case Entering(i) => KeySet(th.task.keys, 0, i)
    case Waiting(i, _) => KeySet(th.task.keys, 0, i)
    case Holding => KeySet(th.task.keys, 0, |th.task.keys|)
    case Leaving(i) => KeySet(th.task.keys, i, |th.task.keys|)
    case Unlocking(i, _) => KeySet(th.task.keys, i, |th.task.keys|)
  }

  ghost function KeySet(ks: seq<Key>, lo: nat, hi: nat): set<Key> {
    set j | 0 <= lo <= j < hi && j < |ks| :: ks[j]
  }

  ghost predicate PcOk(th: Thread) {
    && (!th.pc.Idle? ==> GoodTask(th.task) && Increasing(th.task.keys))
    && (th.pc.Entering? || th.pc.Waiting? || th.pc.Leaving? || th.pc.Unlocking? ==> th.pc.i < |th.task.keys|)
    && th.held.Keys == Has(th)
  }

  /** The thread's mutex for key `k`, and the table entry while the thread counts on it. */
  ghost predicate HeldOk(s: State, t: Tid, k: Key) {
    t in s.threads && k in s.threads[t].held ==>
      var th := s.threads[t];
      var id := th.held[k];
      && id in s.locks && s.locks[id].key == k
      && (if th.task.write then s.locks[id].writer == Some(t) else t in s.locks[id].readers)
      && (k in Uses(th) ==> k in s.lks && s.lks[k] == id)
  }

  ghost predicate WaitOk(s: State, t: Tid) {
    t in s.threads ==>
      var th := s.threads[t];
      && PcOk(th)
      && (th.pc.Waiting? ==> th.task.keys[th.pc.i] in s.lks && s.lks[th.task.keys[th.pc.i]] == th.pc.id)
      && (th.pc.Unlocking? ==> th.task.keys[th.pc.i] in th.held && th.held[th.task.keys[th.pc.i]] == th.pc.id)
  }

  /** Whoever the mutex names really holds it, for its key. */
  ghost predicate OwnerOk(s: State, id: Id, t: Tid) {
    id in s.locks && (s.locks[id].writer == Some(t) || t in s.locks[id].readers) ==>
      && t in s.threads
      && s.locks[id].key in s.threads[t].held && s.threads[t].held[s.locks[id].key] == id
      && (s.locks[id].writer == Some(t) <==> s.threads[t].task.write)
  }

  ghost predicate ModeOk(s: State, id: Id) {
    id in s.locks && s.locks[id].writer.Some? ==> s.locks[id].readers == {}
  }

  ghost function Users(threads: map<Tid, Thread>, k: Key): set<Tid> {
    set t | t in threads && k in Uses(threads[t])
  }

  /** An entry is in the table exactly while somebody counts on it, with the right count. */
  ghost predicate EntryOk(s: State, k: Key) {
    if k in s.lks then
      && s.lks[k] in s.locks && s.locks[s.lks[k]].key == k
      && s.locks[s.lks[k]].refcnt == |Users(s.threads, k)| && Users(s.threads, k) != {}
    else Users(s.threads, k) == {}
  }

  ghost predicate Inv(s: State) {
    match s
    case State(_, _, _) =>
      && (forall t :: WaitOk(s, t))
      && (forall t, k :: HeldOk(s, t, k))
      && (forall id, t :: OwnerOk(s, id, t))
      && (forall id :: ModeOk(s, id))
      && (forall k :: EntryOk(s, k))
  }

  // ---------- sets of keys and of users ----------

  lemma KeySetUp(ks: seq<Key>, i: nat)
    requires i < |ks| && Increasing(ks)
    ensures KeySet(ks, 0, i + 1) == KeySet(ks, 0, i) + {ks[i]} && ks[i] !in KeySet(ks, 0, i)
  {
  }

  lemma KeySetDown(ks: seq<Key>, i: nat)
    requires i < |ks| && Increasing(ks)
    ensures KeySet(ks, i, |ks|) == KeySet(ks, i + 1, |ks|) + {ks[i]} && ks[i] !in KeySet(ks, i + 1, |ks|)
    ensures i + 1 == |ks| ==> KeySet(ks, i + 1, |ks|) == {}
  {
  }

  lemma UsersUpdate(threads: map<Tid, Thread>, t: Tid, th: Thread, k: Key)
    ensures Users(threads[t := th], k) ==
              if k in Uses(th) then Users(threads, k) + {t} else Users(threads, k) - {t}
    ensures t in threads ==> (t in Users(threads, k) <==> k in Uses(threads[t]))
  {
  }

  /** A thread that changes neither what it counts on nor the table leaves the entries right. */
  lemma EntriesKept(s: State, s': State, t: Tid)
    requires t in s.threads && t in s'.threads && s'.threads == s.threads[t := s'.threads[t]]
    requires Uses(s'.threads[t]) == Uses(s.threads[t]) && s'.lks == s.lks
    requires forall id :: id in s.locks ==> id in s'.locks && s'.locks[id].key == s.locks[id].key && s'.locks[id].refcnt == s.locks[id].refcnt
    requires forall k :: EntryOk(s, k)
    ensures forall k :: EntryOk(s', k)
  {
    forall k ensures EntryOk(s', k) {
      assert EntryOk(s, k);
      UsersUpdate(s.threads, t, s'.threads[t], k);
      assert Users(s'.threads, k) == Users(s.threads, k);
    }
  }

  // ---------- every step keeps the invariant ----------

  lemma BeginKeeps(s: State, t: Tid, task: Task)
    requires Inv(s) && Enabled(s, Begin(t, task))
    ensures Inv(Apply(s, Begin(t, task)))
  {
    var s' := Apply(s, Begin(t, task));
    assert WaitOk(s, t);
    EntriesKept(s, s', t);
    forall u ensures WaitOk(s', u) { assert WaitOk(s, u); }
    forall u, k ensures HeldOk(s', u, k) { assert HeldOk(s, u, k); }
    forall id, u ensures OwnerOk(s', id, u) { assert OwnerOk(s, id, u); }
    forall id ensures ModeOk(s', id) { assert ModeOk(s, id); }
  }

  lemma FinishKeeps(s: State, t: Tid)
    requires Inv(s) && Enabled(s, Finish(t))
    ensures Inv(Apply(s, Finish(t)))
  {
    var s' := Apply(s, Finish(t));
    assert WaitOk(s, t);
    EntriesKept(s, s', t);
    forall u ensures WaitOk(s', u) { assert WaitOk(s, u); }
    forall u, k ensures HeldOk(s', u, k) { assert HeldOk(s, u, k); }
    forall id, u ensures OwnerOk(s', id, u) { assert OwnerOk(s, id, u); }
    forall id ensures ModeOk(s', id) { assert ModeOk(s, id); }
  }

  // Counting a reference.

  lemma RefShape(s: State, t: Tid, id: Id)
    requires Inv(s) && Enabled(s, Ref(t, id))
    ensures var s' := ApplyRef(s, t, id);
            var th := s.threads[t];
            var k := th.task.keys[th.pc.i];
            && PcOk(th) && k in s'.lks && (k in s.lks ==> s.lks[k] in s.locks)
            && s'.threads == s.threads[t := th.(pc := Waiting(th.pc.i, s'.lks[k]))]
            && Uses(s'.threads[t]) == Uses(th) + {k} && k !in Uses(th) && Has(s'.threads[t]) == Has(th)
            && (forall x :: x in s.lks ==> x in s'.lks && s'.lks[x] == s.lks[x])
            && (forall x :: x in s'.lks && x != k ==> x in s.lks)
            && (forall i :: i in s.locks ==> i in s'.locks && s'.locks[i].(refcnt := s.locks[i].refcnt) == s.locks[i])
            && (forall i :: i in s'.locks && i !in s.locks ==> s'.locks[i] == Lock(k, 1, None, {}))
            && (forall i :: i in s.locks && s.locks[i].key != k ==> s'.locks[i] == s.locks[i])
            && s'.lks[k] in s'.locks && s'.locks[s'.lks[k]].key == k
            && s'.locks[s'.lks[k]].refcnt == (if k in s.lks then s.locks[s.lks[k]].refcnt + 1 else 1)
  {
    var th := s.threads[t];
    assert WaitOk(s, t);
    assert EntryOk(s, th.task.keys[th.pc.i]);
    KeySetUp(th.task.keys, th.pc.i);
  }

  lemma RefEntry(s: State, s': State, t: Tid, th: Thread, k: Key, x: Key)
    requires EntryOk(s, x) && t in s.threads && s'.threads == s.threads[t := th]
    requires Uses(th) == Uses(s.threads[t]) + {k} && k !in Uses(s.threads[t])
    requires k in s'.lks && s'.lks[k] in s'.locks && s'.locks[s'.lks[k]].key == k
    requires x == k ==> s'.locks[s'.lks[k]].refcnt == (if k in s.lks then s.locks[s.lks[k]].refcnt + 1 else 1)
    requires x != k ==> (x in s'.lks <==> x in s.lks)
    requires x != k && x in s.lks ==> s'.lks[x] == s.lks[x] && s.lks[x] in s'.locks && s'.locks[s.lks[x]] == s.locks[s.lks[x]]
    ensures EntryOk(s', x)
  {
    UsersUpdate(s.threads, t, th, x);
    if x == k {
      assert t !in Users(s.threads, k);
    } else {
      assert Users(s'.threads, x) == Users(s.threads, x);
    }
  }

  lemma RefKeeps(s: State, t: Tid, id: Id)
    requires Inv(s) && Enabled(s, Ref(t, id))
    ensures Inv(Apply(s, Ref(t, id)))
  {
    var s' := ApplyRef(s, t, id);
    RefShape(s, t, id);
    var k := s.threads[t].task.keys[s.threads[t].pc.i];
    forall x ensures EntryOk(s', x) {
      assert EntryOk(s, x);
      RefEntry(s, s', t, s'.threads[t], k, x);
    }
    forall u ensures WaitOk(s', u) { assert WaitOk(s, u); }
    forall u, x ensures HeldOk(s', u, x) { assert HeldOk(s, u, x); }
    forall i, u ensures OwnerOk(s', i, u) { assert OwnerOk(s, i, u); }
    forall i ensures ModeOk(s', i) { assert ModeOk(s, i); }
  }

  // Taking the mutex.

  lemma GrabShape(s: State, t: Tid)
    requires Inv(s) && Enabled(s, Grab(t))
    ensures var s' := ApplyGrab(s, t);
            var th := s.threads[t];
            && PcOk(th) && PcOk(s'.threads[t])
            && var k := th.task.keys[th.pc.i];
            var id := th.pc.id;
            && k in s.lks && s.lks[k] == id && s'.lks == s.lks && s.locks[id].key == k
            && s'.threads == s.threads[t := s'.threads[t]] && k !in th.held
            && s'.threads[t].task == th.task && s'.threads[t].held == th.held[k := id]
            && !s'.threads[t].pc.Waiting? && !s'.threads[t].pc.Unlocking?
            && Uses(s'.threads[t]) == Uses(th)
            && s'.locks == s.locks[id := if th.task.write then s.locks[id].(writer := Some(t)) else s.locks[id].(readers := s.locks[id].readers + {t})]
  {
    var th := s.threads[t];
    assert WaitOk(s, t);
    assert EntryOk(s, th.task.keys[th.pc.i]);
    KeySetUp(th.task.keys, th.pc.i);
  }

  lemma GrabKeeps(s: State, t: Tid)
    requires Inv(s) && Enabled(s, Grab(t))
    ensures Inv(Apply(s, Grab(t)))
  {
    var s' := ApplyGrab(s, t);
    GrabShape(s, t);
    EntriesKept(s, s', t);
    forall u ensures WaitOk(s', u) { assert WaitOk(s, u); }
    forall u, x ensures HeldOk(s', u, x) { assert HeldOk(s, u, x); }
    forall i, u ensures OwnerOk(s', i, u) { assert OwnerOk(s, i, u); }
    forall i ensures ModeOk(s', i) { assert ModeOk(s, i); }
  }

  // Giving the reference back.

  /** The lookup in unlock finds the very lock the thread took; and if the last reference
      goes, no other thread counts on the entry. */
  lemma DerefShape(s: State, t: Tid)
    requires Inv(s) && Enabled(s, Deref(t))
    ensures var s' := ApplyDeref(s, t);
            var th := s.threads[t];
            && PcOk(th) && PcOk(s'.threads[t])
            && var k := th.task.keys[th.pc.i];
            var id := s.lks[k];
            && k in th.held && th.held[k] == id && s.locks[id].key == k
            && s'.threads == s.threads[t := th.(pc := Unlocking(th.pc.i, id))]
            && Uses(th) == Uses(s'.threads[t]) + {k} && k !in Uses(s'.threads[t])
            && s'.locks == s.locks[id := s.locks[id].(refcnt := s.locks[id].refcnt - 1)]
            && s'.lks == (if s.locks[id].refcnt == 1 then s.lks - {k} else s.lks)
  {
    var th := s.threads[t];
    var k := th.task.keys[th.pc.i];
    assert WaitOk(s, t);
    KeySetDown(th.task.keys, th.pc.i);
    assert HeldOk(s, t, k);
  }

  lemma DerefEntry(s: State, t: Tid, x: Key)
    requires Inv(s) && Enabled(s, Deref(t))
    ensures EntryOk(ApplyDeref(s, t), x)
  {
    var th := s.threads[t];
    var k := th.task.keys[th.pc.i];
    DerefShape(s, t);
    assert EntryOk(s, x) && EntryOk(s, k);
    UsersUpdate(s.threads, t, th.(pc := Unlocking(th.pc.i, s.lks[k])), x);
  }

  lemma StillUsed(s: State, t: Tid, u: Tid)
    requires Inv(s) && Enabled(s, Deref(t)) && u != t && u in s.threads
    ensures var k := s.threads[t].task.keys[s.threads[t].pc.i];
            k in Uses(s.threads[u]) ==> s.locks[s.lks[k]].refcnt > 1
  {
    var k := s.threads[t].task.keys[s.threads[t].pc.i];
    DerefShape(s, t);
    assert EntryOk(s, k);
    if k in Uses(s.threads[u]) {
      assert t in Users(s.threads, k) && u in Users(s.threads, k);
      SubsetCard({t, u}, Users(s.threads, k));
    }
  }

  /** A waiting thread counts on the entry it waits for. */
  lemma WaitingUses(th: Thread)
    requires PcOk(th) && th.pc.Waiting?
    ensures th.task.keys[th.pc.i] in Uses(th)
  {
    KeySetUp(th.task.keys, th.pc.i);
  }

  lemma DerefWait(s: State, t: Tid, u: Tid)
    requires Inv(s) && Enabled(s, Deref(t))
    ensures WaitOk(ApplyDeref(s, t), u)
  {
    DerefShape(s, t);
    assert WaitOk(s, u);
    if u != t && u in s.threads {
      StillUsed(s, t, u);
      if s.threads[u].pc.Waiting? { WaitingUses(s.threads[u]); }
    }
  }

  lemma DerefHeld(s: State, t: Tid, u: Tid, x: Key)
    requires Inv(s) && Enabled(s, Deref(t))
    ensures HeldOk(ApplyDeref(s, t), u, x)
  {
    DerefShape(s, t);
    assert HeldOk(s, u, x);
    if u != t && u in s.threads { StillUsed(s, t, u); }
  }

  lemma DerefKeeps(s: State, t: Tid)
    requires Inv(s) && Enabled(s, Deref(t))
    ensures Inv(Apply(s, Deref(t)))
  {
    var s' := ApplyDeref(s, t);
    DerefShape(s, t);
    forall x ensures EntryOk(s', x) { DerefEntry(s, t, x); }
    forall u ensures WaitOk(s', u) { DerefWait(s, t, u); }
    forall u, x ensures HeldOk(s', u, x) { DerefHeld(s, t, u, x); }
    forall i, u ensures OwnerOk(s', i, u) { assert OwnerOk(s, i, u); }
    forall i ensures ModeOk(s', i) { assert ModeOk(s, i); }
  }

  // Releasing the mutex.

  lemma UnlockShape(s: State, t: Tid)
    requires Inv(s) && Enabled(s, Unlock(t))
    ensures var s' := ApplyUnlock(s, t);
            var th := s.threads[t];
            && PcOk(th) && PcOk(s'.threads[t])
            && var k := th.task.keys[th.pc.i];
            var id := th.pc.id;
            && k in th.held && th.held[k] == id && s.locks[id].key == k && k !in Uses(th)
            && s'.threads == s.threads[t := s'.threads[t]] && s'.lks == s.lks
            && s'.threads[t].task == th.task && s'.threads[t].held == th.held - {k}
            && !s'.threads[t].pc.Waiting? && !s'.threads[t].pc.Unlocking?
            && Uses(s'.threads[t]) == Uses(th)
            && (if th.task.write then s.locks[id].writer == Some(t) else t in s.locks[id].readers)
            && s'.locks == s.locks[id := if th.task.write then s.locks[id].(writer := None) else s.locks[id].(readers := s.locks[id].readers - {t})]
  {
    var th := s.threads[t];
    assert WaitOk(s, t);
    KeySetDown(th.task.keys, th.pc.i);
    assert HeldOk(s, t, th.task.keys[th.pc.i]);
  }

  lemma UnlockOwner(s: State, t: Tid, id: Id, u: Tid)
    requires Inv(s) && Enabled(s, Unlock(t))
    ensures OwnerOk(ApplyUnlock(s, t), id, u)
  {
    UnlockShape(s, t);
    assert OwnerOk(s, id, u);
    assert OwnerOk(s, id, t);
    assert ModeOk(s, id);
  }

  lemma UnlockHeld(s: State, t: Tid, u: Tid, x: Key)
    requires Inv(s) && Enabled(s, Unlock(t))
    ensures HeldOk(ApplyUnlock(s, t), u, x)
  {
    UnlockShape(s, t);
    assert HeldOk(s, u, x);
    assert HeldOk(s, t, x);
    assert ModeOk(s, s.threads[t].pc.id);
  }

  lemma UnlockKeeps(s: State, t: Tid)
    requires Inv(s) && Enabled(s, Unlock(t))
    ensures Inv(Apply(s, Unlock(t)))
  {
    var s' := ApplyUnlock(s, t);
    UnlockShape(s, t);
    EntriesKept(s, s', t);
    forall u ensures WaitOk(s', u) { assert WaitOk(s, u); }
    forall u, x ensures HeldOk(s', u, x) { UnlockHeld(s, t, u, x); }
    forall i, u ensures OwnerOk(s', i, u) { UnlockOwner(s, t, i, u); }
    forall i ensures ModeOk(s', i) { assert ModeOk(s, i); }
  }

  lemma StepKeeps(s: State, step: Step)
    requires Inv(s) && Enabled(s, step)
    ensures Inv(Apply(s, step))
  {
    match step
    case Begin(t, task) => BeginKeeps(s, t, task);
    case Ref(t, id) => RefKeeps(s, t, id);
    case Grab(t) => GrabKeeps(s, t);
    case Finish(t) => FinishKeeps(s, t);
    case Deref(t) => DerefKeeps(s, t);
    case Unlock(t) => UnlockKeeps(s, t);
  }

  function Start(tids: set<Tid>): (s: State) {
    State(map t | t in tids :: Thread(Idle, Task([], false), map[]), map[], map[])
  }

  lemma StartInv(tids: set<Tid>)
    ensures Inv(Start(tids))
  {
    var s := Start(tids);
    forall k ensures EntryOk(s, k) { assert Users(s.threads, k) == {}; }
  }

  ghost predicate Run(s: State, steps: seq<Step>, s': State)
    decreases |steps|
  {
    if steps == [] then s' == s
    else Enabled(s, steps[0]) && Run(Apply(s, steps[0]), steps[1..], s')
  }

  lemma {:induction false} RunKeeps(s: State, steps: seq<Step>, s': State)
    requires Inv(s) && Run(s, steps, s')
    ensures Inv(s')
    decreases |steps|
  {
    if steps != [] {
      StepKeeps(s, steps[0]);
      RunKeeps(Apply(s, steps[0]), steps[1..], s');
    }
  }

  // ---------- the promises ----------

  /** The keys a thread has locked while it is in its section. */
  ghost predicate InSection(s: State, t: Tid, k: Key) {
    t in s.threads && s.threads[t].pc.Holding? && k in s.threads[t].task.keys
  }

  lemma SectionHolds(s: State, t: Tid, k: Key)
    requires Inv(s) && InSection(s, t, k)
    ensures k in s.lks && s.lks[k] in s.locks && k in s.threads[t].held && s.threads[t].held[k] == s.lks[k]
    ensures if s.threads[t].task.write then s.locks[s.lks[k]].writer == Some(t) else t in s.locks[s.lks[k]].readers
  {
    assert WaitOk(s, t);
    assert HeldOk(s, t, k);
    var j :| 0 <= j < |s.threads[t].task.keys| && s.threads[t].task.keys[j] == k;
    assert k in Has(s.threads[t]) && k in Uses(s.threads[t]);
  }

  /** Two threads are in their sections for the same key only if both are readers, although an
      entry may have been deleted and made anew while the old mutex was still being released. */
  lemma SectionsExclude(s: State, t: Tid, u: Tid, k: Key)
    requires Inv(s) && InSection(s, t, k) && InSection(s, u, k) && t != u
    ensures !s.threads[t].task.write && !s.threads[u].task.write
  {
    SectionHolds(s, t, k);
    SectionHolds(s, u, k);
    assert ModeOk(s, s.lks[k]);
  }

  /** Exclusion in every state of every run. */
  lemma ExclusionInEveryRun(tids: set<Tid>, steps: seq<Step>, s: State, t: Tid, u: Tid, k: Key)
    requires Run(Start(tids), steps, s) && InSection(s, t, k) && InSection(s, u, k) && t != u
    ensures !s.threads[t].task.write && !s.threads[u].task.write
  {
    StartInv(tids);
    RunKeeps(Start(tids), steps, s);
    SectionsExclude(s, t, u, k);
  }

  /** Unlocking never meets a missing entry, and releases the mutex that was taken. */
  lemma UnlockFindsItsLock(tids: set<Tid>, steps: seq<Step>, s: State, t: Tid)
    requires Run(Start(tids), steps, s) && t in s.threads && s.threads[t].pc.Leaving?
    ensures Enabled(s, Deref(t))
    ensures var th := s.threads[t];
            var k := th.task.keys[th.pc.i];
            k in th.held && s.lks[k] == th.held[k]
  {
    StartInv(tids);
    RunKeeps(Start(tids), steps, s);
    LeavingFindsLock(s, t);
  }

  lemma LeavingFindsLock(s: State, t: Tid)
    requires Inv(s) && t in s.threads && s.threads[t].pc.Leaving?
    ensures Enabled(s, Deref(t))
    ensures var th := s.threads[t];
            var k := th.task.keys[th.pc.i];
            k in th.held && s.lks[k] == th.held[k]
  {
    var th := s.threads[t];
    assert WaitOk(s, t);
    KeySetDown(th.task.keys, th.pc.i);
    assert HeldOk(s, t, th.task.keys[th.pc.i]);
  }

  // ---------- no deadlock ----------

  ghost predicate WaitsFor(s: State, t: Tid, id: Id, write: bool) {
    t in s.threads && s.threads[t].pc.Waiting? && s.threads[t].pc.id == id && s.threads[t].task.write == write
  }

  /** The thread can go on now, even if a mutex lets no reader in while a writer is waiting. */
  ghost predicate Ready(s: State, t: Tid) {
    && t in s.threads && !s.threads[t].pc.Idle?
    && (s.threads[t].pc.Waiting? ==>
          var th := s.threads[t];
          && th.pc.id in s.locks && Free(s.locks[th.pc.id], th.task.write)
          && (!th.task.write ==> forall u :: !WaitsFor(s, u, th.pc.id, true)))
  }

  lemma {:induction false} FreshId(ids: set<Id>) returns (id: Id)
    ensures id !in ids && forall x :: x in ids ==> x < id
  {
    id := 0;
    if ids != {} {
      var x :| x in ids;
      var rest := FreshId(ids - {x});
      assert forall y :: y in ids ==> y == x || y in ids - {x};
      id := if x < rest then rest else x + 1;
    }
  }

  lemma ReadyCanStep(s: State, t: Tid) returns (step: Step)
    requires Inv(s) && Ready(s, t)
    ensures step.t == t && Enabled(s, step)
  {
    assert WaitOk(s, t);
    match s.threads[t].pc
    case Entering(_) =>
      var id := FreshId(s.locks.Keys);
      step := Ref(t, id);
    case Waiting(_, _) => step := Grab(t);
    case Holding => step := Finish(t);
    case Leaving(_) =>
      LeavingFindsLock(s, t);
      step := Deref(t);
    case Unlocking(i, id) =>
      assert HeldOk(s, t, s.threads[t].task.keys[i]);
      step := Unlock(t);
  }

  ghost function WaitKey(th: Thread): Key {
    if th.pc.Waiting? && th.pc.i < |th.task.keys| then th.task.keys[th.pc.i] else 0
  }

  lemma {:induction false} MaxWaiter(s: State, ts: set<Tid>) returns (t: Tid)
    requires ts != {} && ts <= s.threads.Keys
    ensures t in ts && forall u :: u in ts ==> WaitKey(s.threads[u]) <= WaitKey(s.threads[t])
    decreases |ts|
  {
    t :| t in ts;
    if ts != {t} {
      var u := MaxWaiter(s, ts - {t});
      if WaitKey(s.threads[u]) > WaitKey(s.threads[t]) { t := u; }
    }
  }

  /** Whoever holds a mutex is past its key: if it waits, it waits for a larger key. */
  lemma HolderWaitsHigher(s: State, id: Id, h: Tid)
    requires Inv(s) && id in s.locks && (s.locks[id].writer == Some(h) || h in s.locks[id].readers)
    ensures h in s.threads && !s.threads[h].pc.Idle?
    ensures s.threads[h].pc.Waiting? ==> s.locks[id].key < WaitKey(s.threads[h])
  {
    assert OwnerOk(s, id, h);
    assert WaitOk(s, h);
    var th := s.threads[h];
    assert s.locks[id].key in Has(th);
  }

  /** In every reachable state where some thread is busy, some thread can go on. */
  lemma NeverDeadlocked(s: State, busy: Tid) returns (t: Tid)
    requires Inv(s) && busy in s.threads && !s.threads[busy].pc.Idle?
    ensures Ready(s, t)
  {
    if u :| u in s.threads && !s.threads[u].pc.Idle? && !s.threads[u].pc.Waiting? {
      return u;
    }
    var waiting := set u | u in s.threads && s.threads[u].pc.Waiting?;
    assert busy in waiting;
    t := MaxWaiter(s, waiting);
    var id := s.threads[t].pc.id;
    assert WaitOk(s, t);
    assert EntryOk(s, WaitKey(s.threads[t]));
    var l := s.locks[id];
    if l.writer.Some? { HolderWaitsHigher(s, id, l.writer.value); }
    if h :| h in l.readers { HolderWaitsHigher(s, id, h); }
    if !s.threads[t].task.write {
      if w :| WaitsFor(s, w, id, true) { t := w; }
    }
  }

  /** The same for runs: no reachable state with a busy thread is stuck. */
  lemma NoReachableDeadlock(tids: set<Tid>, steps: seq<Step>, s: State, busy: Tid) returns (step: Step)
    requires Run(Start(tids), steps, s) && busy in s.threads && !s.threads[busy].pc.Idle?
    ensures Ready(s, step.t) && Enabled(s, step)
  {
    StartInv(tids);
    RunKeeps(Start(tids), steps, s);
    var t := NeverDeadlocked(s, busy);
    step := ReadyCanStep(s, t);
  }

  // ---------- nobody waits without cause, and nothing is left behind ----------

  /** The mutex that a thread waits for is kept from it only by a thread that has taken a mutex
      for the same key, and only if one of the two writes. */
  lemma WaitsOnlyForConflict(tids: set<Tid>, steps: seq<Step>, s: State, t: Tid) returns (u: Tid)
    requires Run(Start(tids), steps, s) && t in s.threads && s.threads[t].pc.Waiting? && !Enabled(s, Grab(t))
    ensures u in s.threads && WaitKey(s.threads[t]) in Has(s.threads[u])
    ensures s.threads[t].task.write || s.threads[u].task.write
  {
    StartInv(tids);
    RunKeeps(Start(tids), steps, s);
    assert WaitOk(s, t);
    var id := s.threads[t].pc.id;
    assert EntryOk(s, WaitKey(s.threads[t]));
    var l := s.locks[id];
    if l.writer.Some? { u := l.writer.value; } else { u :| u in l.readers; }
    assert OwnerOk(s, id, u);
    assert WaitOk(s, u);
  }

  /** A key is in the table exactly while some thread counts on its entry: when all are idle the
      table is empty. */
  lemma TableHoldsUsedKeys(tids: set<Tid>, steps: seq<Step>, s: State, k: Key)
    requires Run(Start(tids), steps, s)
    ensures k in s.lks <==> exists t :: t in s.threads && k in Uses(s.threads[t])
    ensures (forall t :: t in s.threads ==> s.threads[t].pc.Idle?) ==> k !in s.lks
  {
    StartInv(tids);
    RunKeeps(Start(tids), steps, s);
    assert EntryOk(s, k);
    if k in s.lks {
      var t :| t in Users(s.threads, k);
      assert t in s.threads && k in Uses(s.threads[t]);
    } else {
      forall t | t in s.threads ensures k !in Uses(s.threads[t]) { assert t !in Users(s.threads, k); }
    }
  }
}
