/**
 The existence-and-size cache of blockstore/arc_cache.go in front of a block store, with any
 number of threads.  Every operation asks the cache without a lock; if that does not settle it,
 it takes its keys' locks, works on the store, and then brings the cache up to date.
 Blocks with the same key have the same data, so the store is a set of keys and each key has
 a size.  The cache may forget any entry at any time.
 */
module ArcCache {
  import opened Options
  import L = LockTable

  type Key = L.Key
  type Tid = L.Tid

  datatype CacheEntry = CachedHave(have: bool) | CachedSize(size: nat)

  datatype Op =
    | HasOp(k: Key)
    | SizeOp(k: Key)
    | GetOp(k: Key)
    | PutOp(k: Key)
    | DeleteOp(k: Key)
    | PutManyOp(ks: seq<Key>)

  function Keys(op: Op): (r: seq<Key>) {
    if op.PutManyOp? then op.ks else [op.k]
  }

  predicate Writes(op: Op) {
    op.PutOp? || op.DeleteOp? || op.PutManyOp?
  }

  function TaskOf(op: Op): (r: L.Task) {
    L.Task(Keys(op), Writes(op))
  }

  /** Where a thread is in its operation: nothing begun; getting or having its locks; having
      read the store; having written the store (with or without success) but not the cache;
      having written a batch and cached its first `i` keys; or done with both. */
  datatype Phase =
    | NoOp
    | Locking(op: Op)
    | Found(op: Op, has: bool)
    | Changed(op: Op, ok: bool)
    | Caching(ks: seq<Key>, i: nat)
    | Over

  /** `present` is the store.  The last two are history, read by no step.  `view` is the store as
      the calls see it: a write that is under way takes effect there when it updates the cache.
      `lost` is where the cache says "missing" about a key that a failed batch has stored. */
  datatype State = State(
    table: L.State, phases: map<Tid, Phase>, present: set<Key>, cache: map<Key, CacheEntry>, view: set<Key>, lost: set<Key>
  )

  datatype Step =
    | Begin(t: Tid, op: Op)
    | Locks(step: L.Step)
    | Store(t: Tid, ok: bool, landed: set<Key>)
    | Update(t: Tid)
    | Evict(k: Key)

  /** queryCache: None is "not cached"; otherwise whether the key exists, and its size or -1. */
  function QueryCache(cache: map<Key, CacheEntry>, k: Key): (r: Option<(bool, int)>) {
    if k !in cache then None
    else match cache[k]
         case CachedHave(have) => Some((have, -1))
         case CachedSize(size) => Some((true, size as int))
  }

  /** The unlocked look at the cache does not settle the operation. */
  predicate Undecided(cache: map<Key, CacheEntry>, op: Op) {
    match op
    case HasOp(k) => QueryCache(cache, k).None?
    case SizeOp(k) => var q := QueryCache(cache, k); q.None? || (q.value.0 && q.value.1 < 0)
    case GetOp(k) => var q := QueryCache(cache, k); q.None? || q.value.0
    case PutOp(k) => var q := QueryCache(cache, k); q.None? || !q.value.0
    case DeleteOp(k) => var q := QueryCache(cache, k); q.None? || q.value.0
    case PutManyOp(ks) => ks != []
  }

  /** In its section, with the operation still to do. */
  ghost predicate AtStore(s: State, t: Tid) {
    && t in s.table.threads && s.table.threads[t].pc.Holding?
    && t in s.phases && s.phases[t].Locking?
  }

  ghost predicate Enabled(s: State, step: Step) {
    match step
    case Begin(t, op) =>
      && t in s.phases && t in s.table.threads && s.table.threads[t].pc.Idle?
      && Undecided(s.cache, op) && L.Increasing(Keys(op))
    case Locks(lstep) =>
      // A thread leaves its section only when store and cache are done.
      L.Enabled(s.table, lstep) && !lstep.Begin? && (lstep.Finish? ==> lstep.t in s.phases && s.phases[lstep.t].Over?)
    case Store(t, _, _) => AtStore(s, t)
    case Update(t) =>
      t in s.phases && (s.phases[t].Found? || s.phases[t].Changed? || s.phases[t].Caching?)
    case Evict(_) => true
  }

  function SetPhase(s: State, t: Tid, p: Phase): (r: State) {
    s.(phases := s.phases[t := p])
  }

  function SeqSet(ks: seq<Key>): (r: set<Key>) {
    set k | k in ks
  }

  /** The store after an operation.  A failed write may have taken effect all the same: `landed`
      says for which keys. */
  function StoreAfter(op: Op, ok: bool, landed: set<Key>, present: set<Key>): (r: set<Key>) {
    match op
    case PutOp(k) => if ok || k in landed then present + {k} else present
    case DeleteOp(k) => if ok || k in landed then present - {k} else present
    case PutManyOp(ks) => present + if ok then SeqSet(ks) else SeqSet(ks) * landed
    case _ => present
  }

  /** Where a thread is after its call of the store. */
  function PhaseAfter(op: Op, ok: bool, present: set<Key>): (r: Phase) {
    match op
    case PutOp(_) => Changed(op, ok)
    case DeleteOp(_) => Changed(op, ok)
    case PutManyOp(ks) => if ok then Caching(ks, 0) else Over
    case _ => if ok then Found(op, op.k in present) else Over
  }

  function ApplyStore(s: State, t: Tid, op: Op, ok: bool, landed: set<Key>): (r: State) {
    var stored := StoreAfter(op, ok, landed, s.present);
    var s' := SetPhase(s, t, PhaseAfter(op, ok, s.present)).(present := stored);
    // A failed batch is over at once, and leaves the cache alone.
    if op.PutManyOp? && !ok then s'.(view := s.view + (stored - s.present), lost := s.lost + (stored - s.present) * s.cache.Keys)
    else s'
  }

  /** The entry an operation leaves in the cache; None removes it. */
  function NewEntry(op: Op, ok: bool, has: bool, size: nat): (r: Option<CacheEntry>) {
    match op
    case HasOp(_) => Some(CachedHave(has))
    case PutOp(_) => if ok then Some(CachedSize(size)) else None
    case DeleteOp(_) => if ok then Some(CachedHave(false)) else None
    case _ => Some(if has then CachedSize(size) else CachedHave(false))
  }

  function SetEntry(cache: map<Key, CacheEntry>, k: Key, e: Option<CacheEntry>): (r: map<Key, CacheEntry>) {
    if e.None? then cache - {k} else cache[k := e.value]
  }

  /** The entry for `k` is written, which is when the state of `k` in the store is seen. */
  function WriteEntry(s: State, k: Key, e: Option<CacheEntry>): (r: State) {
    s.(cache := SetEntry(s.cache, k, e), lost := s.lost - {k}, view := if k in s.present then s.view + {k} else s.view - {k})
  }

  function ApplyUpdate(size: Key -> nat, s: State, t: Tid): (r: State)
    requires t in s.phases
  {
    match s.phases[t]
    case Found(op, has) =>
      if op.PutManyOp? then s else WriteEntry(SetPhase(s, t, Over), op.k, NewEntry(op, true, has, size(op.k)))
    case Changed(op, ok) =>
      if op.PutManyOp? then s else WriteEntry(SetPhase(s, t, Over), op.k, NewEntry(op, ok, ok, size(op.k)))
    case Caching(ks, i) =>
      if i >= |ks| then SetPhase(s, t, Over)
      else WriteEntry(SetPhase(s, t, Caching(ks, i + 1)), ks[i], Some(CachedSize(size(ks[i]))))
    case _ => s
  }

  ghost function Apply(size: Key -> nat, s: State, step: Step): State
    requires Enabled(s, step)
  {
    match step
    case Begin(t, op) => SetPhase(s, t, Locking(op)).(table := L.Apply(s.table, L.Begin(t, TaskOf(op))))
    case Locks(lstep) => s.(table := L.Apply(s.table, lstep))
    case Store(t, ok, landed) => ApplyStore(s, t, s.phases[t].op, ok, landed)
    case Update(t) => ApplyUpdate(size, s, t)
    case Evict(k) => s.(cache := s.cache - {k}, lost := s.lost - {k})
  }

  // ---------- the invariant ----------

  /** A cache entry tells the truth about the store. */
  ghost predicate Agrees(size: Key -> nat, present: set<Key>, k: Key, e: CacheEntry) {
    match e
    case CachedHave(have) => have <==> k in present
    case CachedSize(n) => k in present && n == size(k)
  }

  /** Thread `t` has changed `k` in the store and not yet in the cache. */
  ghost predicate Dirty(s: State, t: Tid, k: Key) {
    t in s.phases &&
    match s.phases[t]
    case Changed(op, _) => k in Keys(op)
    case Caching(ks, i) => exists j :: i <= j < |ks| && ks[j] == k
    case _ => false
  }

  ghost predicate Clean(s: State, k: Key) {
    forall t :: !Dirty(s, t, k)
  }

  /** What is cached about `k` is true of the view, unless `k` is lost; and the view is the store,
      unless a write of `k` is under way. */
  ghost predicate KeyOk(size: Key -> nat, s: State, k: Key) {
    && (k in s.lost ==> k in s.cache && k in s.view && s.cache[k] == CachedHave(false))
    && (k in s.cache && k !in s.lost ==> Agrees(size, s.view, k, s.cache[k]))
    && (Clean(s, k) ==> (k in s.view <==> k in s.present))
  }

  ghost predicate Inside(s: State, t: Tid, op: Op) {
    && t in s.table.threads && s.table.threads[t].pc.Holding? && s.table.threads[t].task == TaskOf(op)
  }

  ghost predicate PhaseOk(s: State, t: Tid) {
    t in s.phases ==>
      && t in s.table.threads
      && match s.phases[t]
         case NoOp => s.table.threads[t].pc.Idle?
         case Locking(op) =>
           var th := s.table.threads[t];
           (th.pc.Entering? || th.pc.Waiting? || th.pc.Holding?) && th.task == TaskOf(op) && L.GoodTask(TaskOf(op))
         case Found(op, has) => Inside(s, t, op) && !Writes(op) && (has <==> op.k in s.present)
         case Changed(op, ok) =>
           Inside(s, t, op) && (op.PutOp? || op.DeleteOp?) && (ok ==> (op.k in s.present <==> op.PutOp?))
         case Caching(ks, i) =>
           Inside(s, t, PutManyOp(ks)) && i <= |ks| && forall k :: k in ks ==> k in s.present
         case Over => !s.table.threads[t].pc.Entering? && !s.table.threads[t].pc.Waiting?
  }

  ghost predicate Inv(size: Key -> nat, s: State) {
    match s
    case State(table, phases, present, cache, view, lost) =>
      && L.Inv(table) && table.threads.Keys == phases.Keys
      && (forall t :: PhaseOk(s, t))
      && (forall k :: KeyOk(size, s, k))
  }

  // ---------- every step keeps it ----------

  /** A step of the lock table moves one thread and keeps its task. */
  lemma LockStepShape(s: L.State, step: L.Step)
    requires L.Enabled(s, step) && !step.Begin?
    ensures var s' := L.Apply(s, step);
            && s'.threads.Keys == s.threads.Keys
            && (forall u :: u in s.threads && u != step.t ==> s'.threads[u] == s.threads[u])
            && s'.threads[step.t].task == s.threads[step.t].task
            && (s.threads[step.t].pc.Holding? ==> step.Finish?)
            && (step.Finish? || step.Deref? || step.Unlock? ==>
                  !s'.threads[step.t].pc.Entering? && !s'.threads[step.t].pc.Waiting?)
            && (step.Ref? || step.Grab? ==>
                  s'.threads[step.t].pc.Entering? || s'.threads[step.t].pc.Waiting? || s'.threads[step.t].pc.Holding?)
  {
  }

  /** A key is as clean after a step as before if no thread's work on it has changed. */
  lemma CleanKept(s: State, s': State, k: Key)
    requires Clean(s', k) && forall t :: Dirty(s, t, k) ==> Dirty(s', t, k)
    ensures Clean(s, k)
  {
  }

  lemma LocksKeep(size: Key -> nat, s: State, step: L.Step)
    requires Inv(size, s) && Enabled(s, Locks(step))
    ensures Inv(size, Apply(size, s, Locks(step)))
  {
    var s' := Apply(size, s, Locks(step));
    L.StepKeeps(s.table, step);
    LockStepShape(s.table, step);
    forall t ensures PhaseOk(s', t) { assert PhaseOk(s, t); }
    forall k ensures KeyOk(size, s', k) { SameKeyOk(size, s, s', k); }
  }

  /** Steps that move no thread's work on a key, nor what is known of it. */
  lemma SameKeyOk(size: Key -> nat, s: State, s': State, k: Key)
    requires KeyOk(size, s, k) && forall t :: Dirty(s, t, k) ==> Dirty(s', t, k)
    requires (k in s'.present <==> k in s.present) && (k in s'.view <==> k in s.view) && (k in s'.lost <==> k in s.lost)
    requires (k in s'.cache <==> k in s.cache) && (k in s.cache ==> s'.cache[k] == s.cache[k])
    ensures KeyOk(size, s', k)
  {
    if Clean(s', k) { CleanKept(s, s', k); }
  }

  lemma BeginKeeps(size: Key -> nat, s: State, t: Tid, op: Op)
    requires Inv(size, s) && Enabled(s, Begin(t, op))
    ensures L.Enabled(s.table, L.Begin(t, TaskOf(op))) && Inv(size, Apply(size, s, Begin(t, op)))
  {
    var s' := Apply(size, s, Begin(t, op));
    L.StepKeeps(s.table, L.Begin(t, TaskOf(op)));
    assert PhaseOk(s, t);
    forall u ensures PhaseOk(s', u) { assert PhaseOk(s, u); }
    forall k ensures KeyOk(size, s', k) { SameKeyOk(size, s, s', k); }
  }

  /** Two threads inside their sections share no key if one of them writes. */
  lemma Isolated(s: State, t: Tid, op: Op, u: Tid, op': Op, k: Key)
    requires L.Inv(s.table) && Inside(s, t, op) && Inside(s, u, op') && t != u && Writes(op)
    ensures !(k in Keys(op) && k in Keys(op'))
  {
    if k in Keys(op) && k in Keys(op') {
      assert L.InSection(s.table, t, k) && L.InSection(s.table, u, k);
      L.SectionsExclude(s.table, t, u, k);
    }
  }

  /** Whoever has changed `k` in the store and not in the cache is in the write section for it. */
  lemma DirtyInside(s: State, u: Tid, k: Key)
    requires PhaseOk(s, u) && Dirty(s, u, k)
    ensures Inside(s, u, OpOf(s.phases[u])) && Writes(OpOf(s.phases[u])) && k in Keys(OpOf(s.phases[u]))
  {
  }

  /** A thread in its section for `k` that has changed nothing there finds `k` clean. */
  lemma CleanInside(size: Key -> nat, s: State, t: Tid, op: Op, k: Key)
    requires Inv(size, s) && Inside(s, t, op) && k in Keys(op) && !Dirty(s, t, k)
    ensures Clean(s, k)
  {
    forall u ensures !Dirty(s, u, k) {
      if u != t && Dirty(s, u, k) {
        assert PhaseOk(s, u);
        DirtyInside(s, u, k);
        Isolated(s, u, OpOf(s.phases[u]), t, op, k);
      }
    }
  }

  ghost function OpOf(p: Phase): Op
    requires p.Found? || p.Changed? || p.Caching?
  {
    match p
    case Found(op, _) => op
    case Changed(op, _) => op
    case Caching(ks, _) => PutManyOp(ks)
  }

  /** A change of the store at keys that thread `t` has locked for writing does not touch what
      another thread knows. */
  lemma OtherPhaseKept(s: State, s': State, t: Tid, op: Op, u: Tid)
    requires L.Inv(s.table) && PhaseOk(s, u) && u != t && Inside(s, t, op)
    requires s'.table == s.table && (u in s'.phases <==> u in s.phases) && (u in s.phases ==> s'.phases[u] == s.phases[u])
    requires forall k :: k !in Keys(op) ==> (k in s'.present <==> k in s.present)
    requires !Writes(op) ==> s'.present == s.present
    ensures PhaseOk(s', u)
  {
    if Writes(op) && u in s.phases && (s.phases[u].Found? || s.phases[u].Changed? || s.phases[u].Caching?) {
      var op' := OpOf(s.phases[u]);
      forall k | k in Keys(op') ensures k in s'.present <==> k in s.present { Isolated(s, t, op, u, op', k); }
    }
  }

  /** A successful batch, a put or a delete makes its keys dirty and touches no others. */
  lemma StoredKeyOk(size: Key -> nat, s: State, t: Tid, op: Op, ok: bool, landed: set<Key>, k: Key)
    requires KeyOk(size, s, k) && t in s.phases && s.phases[t] == Locking(op) && (op.PutManyOp? ==> ok)
    ensures KeyOk(size, ApplyStore(s, t, op, ok, landed), k)
  {
    var s' := ApplyStore(s, t, op, ok, landed);
    if Writes(op) && k in Keys(op) {
      assert Dirty(s', t, k);
    } else {
      SameKeyOk(size, s, s', k);
    }
  }

  /** A failed batch stores what it stores at once; what was cached about a key it newly stored
      is lost. */
  lemma FailedBatchKeyOk(size: Key -> nat, s: State, t: Tid, ks: seq<Key>, landed: set<Key>, k: Key)
    requires Inv(size, s) && AtStore(s, t) && s.phases[t] == Locking(PutManyOp(ks))
    ensures KeyOk(size, ApplyStore(s, t, PutManyOp(ks), false, landed), k)
  {
    var op := PutManyOp(ks);
    var s' := ApplyStore(s, t, op, false, landed);
    assert KeyOk(size, s, k);
    if k in ks && k in landed {
      assert PhaseOk(s, t);
      CleanInside(size, s, t, op, k);
    } else {
      SameKeyOk(size, s, s', k);
    }
  }

  lemma StoredPhaseOk(s: State, t: Tid, op: Op, ok: bool, landed: set<Key>)
    requires AtStore(s, t) && s.phases[t] == Locking(op) && PhaseOk(s, t)
    ensures PhaseOk(ApplyStore(s, t, op, ok, landed), t)
  {
  }

  lemma StoreKeeps(size: Key -> nat, s: State, t: Tid, ok: bool, landed: set<Key>)
    requires Inv(size, s) && Enabled(s, Store(t, ok, landed))
    ensures Inv(size, Apply(size, s, Store(t, ok, landed)))
  {
    var op := s.phases[t].op;
    var s' := ApplyStore(s, t, op, ok, landed);
    assert PhaseOk(s, t);
    StoredPhaseOk(s, t, op, ok, landed);
    forall u ensures PhaseOk(s', u) {
      assert PhaseOk(s, u);
      if u != t { OtherPhaseKept(s, s', t, op, u); }
    }
    forall k: Key ensures KeyOk(size, s', k) {
      assert KeyOk(size, s, k);
      if op.PutManyOp? && !ok {
        FailedBatchKeyOk(size, s, t, op.ks, landed, k);
      } else {
        StoredKeyOk(size, s, t, op, ok, landed, k);
      }
    }
  }

  /** Writing a true entry for `k` settles `k`, and leaves the other keys as they were. */
  lemma WrittenKeyOk(size: Key -> nat, s: State, s1: State, t: Tid, k: Key, e: Option<CacheEntry>, x: Key)
    requires KeyOk(size, s, x) && s1 == s.(phases := s1.phases)
    requires forall u :: u != t ==> (u in s1.phases <==> u in s.phases) && (u in s.phases ==> s1.phases[u] == s.phases[u])
    requires x != k && Dirty(s, t, x) ==> Dirty(s1, t, x)
    requires e.Some? ==> Agrees(size, s.present, k, e.value)
    ensures KeyOk(size, WriteEntry(s1, k, e), x)
  {
    var s' := WriteEntry(s1, k, e);
    if x != k {
      forall u | Dirty(s, u, x) ensures Dirty(s', u, x) {}
      SameKeyOk(size, s, s', x);
    }
  }

  lemma SingleUpdateKeeps(size: Key -> nat, s: State, t: Tid, x: Key)
    requires Inv(size, s) && t in s.phases && (s.phases[t].Found? || s.phases[t].Changed?) && PhaseOk(s, t)
    ensures KeyOk(size, ApplyUpdate(size, s, t), x)
  {
    var op := s.phases[t].op;
    assert KeyOk(size, s, x);
    assert Keys(op) == [op.k];
    var has := if s.phases[t].Found? then s.phases[t].has else s.phases[t].ok;
    var e := NewEntry(op, s.phases[t].Found? || s.phases[t].ok, has, size(op.k));
    WrittenKeyOk(size, s, SetPhase(s, t, Over), t, op.k, e, x);
  }

  lemma BatchUpdateKeeps(size: Key -> nat, s: State, t: Tid, x: Key)
    requires Inv(size, s) && t in s.phases && s.phases[t].Caching? && PhaseOk(s, t)
    ensures KeyOk(size, ApplyUpdate(size, s, t), x)
  {
    var Caching(ks, i) := s.phases[t];
    assert KeyOk(size, s, x);
    if i < |ks| {
      WrittenKeyOk(size, s, SetPhase(s, t, Caching(ks, i + 1)), t, ks[i], Some(CachedSize(size(ks[i]))), x);
    } else {
      SameKeyOk(size, s, SetPhase(s, t, Over), x);
    }
  }

  lemma UpdatedPhaseOk(size: Key -> nat, s: State, t: Tid)
    requires Enabled(s, Update(t)) && PhaseOk(s, t)
    ensures PhaseOk(ApplyUpdate(size, s, t), t)
  {
  }

  lemma UpdateKeeps(size: Key -> nat, s: State, t: Tid)
    requires Inv(size, s) && Enabled(s, Update(t))
    ensures Inv(size, Apply(size, s, Update(t)))
  {
    var s' := Apply(size, s, Update(t));
    assert PhaseOk(s, t);
    forall u ensures PhaseOk(s', u) {
      assert PhaseOk(s, u);
      if u == t { UpdatedPhaseOk(size, s, t); }
    }
    forall x ensures KeyOk(size, s', x) {
      if s.phases[t].Caching? { BatchUpdateKeeps(size, s, t, x); } else { SingleUpdateKeeps(size, s, t, x); }
    }
  }

  lemma EvictKeeps(size: Key -> nat, s: State, k: Key)
    requires Inv(size, s)
    ensures Inv(size, Apply(size, s, Evict(k)))
  {
    var s' := Apply(size, s, Evict(k));
    forall u ensures PhaseOk(s', u) { assert PhaseOk(s, u); }
    forall x ensures KeyOk(size, s', x) {
      assert KeyOk(size, s, x);
      if Clean(s', x) { CleanKept(s, s', x); }
    }
  }

  lemma StepKeeps(size: Key -> nat, s: State, step: Step)
    requires Inv(size, s) && Enabled(s, step)
    ensures Inv(size, Apply(size, s, step))
  {
    match step
    case Begin(t, op) => BeginKeeps(size, s, t, op);
    case Locks(lstep) => LocksKeep(size, s, lstep);
    case Store(t, ok, landed) => StoreKeeps(size, s, t, ok, landed);
    case Update(t) => UpdateKeeps(size, s, t);
    case Evict(k) => EvictKeeps(size, s, k);
  }

  // ---------- the promises ----------

  function Start(tids: set<Tid>, present: set<Key>): (s: State) {
    State(L.Start(tids), map t | t in tids :: NoOp, present, map[], present, {})
  }

  lemma StartInv(size: Key -> nat, tids: set<Tid>, present: set<Key>)
    ensures Inv(size, Start(tids, present))
  {
    L.StartInv(tids);
  }

  ghost predicate Run(size: Key -> nat, s: State, steps: seq<Step>, s': State)
    decreases |steps|
  {
    if steps == [] then s' == s
    else Enabled(s, steps[0]) && Run(size, Apply(size, s, steps[0]), steps[1..], s')
  }

  lemma {:induction false} RunKeeps(size: Key -> nat, s: State, steps: seq<Step>, s': State)
    requires Inv(size, s) && Run(size, s, steps, s')
    ensures Inv(size, s')
    decreases |steps|
  {
    if steps != [] {
      StepKeeps(size, s, steps[0]);
      RunKeeps(size, Apply(size, s, steps[0]), steps[1..], s');
    }
  }

  lemma ReachableInv(size: Key -> nat, tids: set<Tid>, present: set<Key>, steps: seq<Step>, s: State)
    requires Run(size, Start(tids, present), steps, s)
    ensures Inv(size, s)
  {
    StartInv(size, tids, present);
    RunKeeps(size, Start(tids, present), steps, s);
  }

  /** In every run, whenever no thread is inside the write section for a key, what is cached about
      the key is what the store holds, if and only if the key is not lost: a failed batch has not
      stored it while it was cached as missing. */
  lemma CacheTellsTheTruth(size: Key -> nat, tids: set<Tid>, present: set<Key>, steps: seq<Step>, s: State, k: Key)
    requires Run(size, Start(tids, present), steps, s) && k in s.cache
    requires forall t :: L.InSection(s.table, t, k) ==> !s.table.threads[t].task.write
    ensures Agrees(size, s.present, k, s.cache[k]) <==> k !in s.lost
  {
    ReachableInv(size, tids, present, steps, s);
    assert KeyOk(size, s, k);
    forall t ensures !Dirty(s, t, k) {
      assert PhaseOk(s, t);
      if Dirty(s, t, k) {
        DirtyInside(s, t, k);
        assert L.InSection(s.table, t, k);
      }
    }
  }

  /** A key is lost only by a failed batch that newly stores it while it is cached. */
  lemma LostByFailedBatch(size: Key -> nat, s: State, step: Step, k: Key)
    requires Enabled(s, step)
    ensures k in Apply(size, s, step).lost && k !in s.lost <==>
              && step.Store? && !step.ok && s.phases[step.t].op.PutManyOp? && k in s.phases[step.t].op.ks
              && k in step.landed && k !in s.present && k in s.cache && k !in s.lost
  {
  }

  /** The operation is settled by an unlocked look at the cache exactly as the view says, except
      about a lost key: no matter which writes are under way, a call that answers from the cache
      answers for the view at that moment. */
  lemma CachedAnswersAreTimely(size: Key -> nat, tids: set<Tid>, present: set<Key>, steps: seq<Step>, s: State, k: Key)
    requires Run(size, Start(tids, present), steps, s) && QueryCache(s.cache, k).Some? && k !in s.lost
    ensures var (exists_, n) := QueryCache(s.cache, k).value; (exists_ <==> k in s.view) && (n >= 0 ==> n == size(k))
  {
    ReachableInv(size, tids, present, steps, s);
    assert KeyOk(size, s, k);
  }

  /** And a call that reads the store in its section answers for the view at that moment too. */
  lemma StoredAnswersAreTimely(size: Key -> nat, tids: set<Tid>, present: set<Key>, steps: seq<Step>, s: State, t: Tid)
    requires Run(size, Start(tids, present), steps, s) && AtStore(s, t) && !Writes(s.phases[t].op)
    ensures var k := s.phases[t].op.k; k in s.present <==> k in s.view
  {
    ReachableInv(size, tids, present, steps, s);
    assert PhaseOk(s, t);
    var op := s.phases[t].op;
    CleanInside(size, s, t, op, op.k);
    assert KeyOk(size, s, op.k);
  }

  /** The view of a key changes only in a step of a call that writes the key, inside its section,
      and then it becomes what the store holds. */
  lemma ViewChangesInWrites(size: Key -> nat, tids: set<Tid>, present: set<Key>, steps: seq<Step>, s: State, step: Step, k: Key)
    requires Run(size, Start(tids, present), steps, s) && Enabled(s, step)
    ensures var s' := Apply(size, s, step);
            !(k in s'.view <==> k in s.view) ==>
              && (step.Update? || step.Store?) && L.InSection(s.table, step.t, k) && s.table.threads[step.t].task.write
              && (k in s'.view <==> k in s'.present)
  {
    ReachableInv(size, tids, present, steps, s);
    assert KeyOk(size, s, k);
    if step.Update? {
      UpdateChangesView(size, s, step.t, k);
    } else if step.Store? {
      assert PhaseOk(s, step.t);
    }
  }

  lemma UpdateChangesView(size: Key -> nat, s: State, t: Tid, k: Key)
    requires Inv(size, s) && Enabled(s, Update(t))
    ensures var s' := ApplyUpdate(size, s, t);
            !(k in s'.view <==> k in s.view) ==>
              L.InSection(s.table, t, k) && s.table.threads[t].task.write && (k in s'.view <==> k in s'.present)
  {
    assert PhaseOk(s, t);
    if s.phases[t].Found? {
      var op := s.phases[t].op;
      CleanInside(size, s, t, op, op.k);
      assert KeyOk(size, s, op.k);
    }
  }

  // ---------- a failed batch, step by step ----------

  lemma {:induction false} RunThen(size: Key -> nat, s: State, steps: seq<Step>, s1: State, step: Step)
    requires Run(size, s, steps, s1) && Enabled(s1, step)
    ensures Run(size, s, steps + [step], Apply(size, s1, step))
    decreases |steps|
  {
    if steps == [] {
      assert [step][1..] == [];
    } else {
      assert (steps + [step])[1..] == steps[1..] + [step];
      RunThen(size, Apply(size, s, steps[0]), steps[1..], s1, step);
    }
  }

  lemma {:induction false} RunJoin(size: Key -> nat, s: State, a: seq<Step>, s1: State, b: seq<Step>, s2: State)
    requires Run(size, s, a, s1) && Run(size, s1, b, s2)
    ensures Run(size, s, a + b, s2)
    decreases |a|
  {
    if a == [] {
      assert a + b == b;
    } else {
      assert (a + b)[1..] == a[1..] + b;
      RunJoin(size, Apply(size, s, a[0]), a[1..], s1, b, s2);
    }
  }

  /** How far a thread is from holding its locks, and from being idle again. */
  ghost function ToGo(th: L.Thread): nat {
    var n := |th.task.keys|;
    match th.pc
    case Entering(i) => if i < n then 2 * (n - i) else 0
    case Waiting(i, _) => if i < n then 2 * (n - i) - 1 else 0
    case Holding => 2 * n + 1
    case Leaving(i) => if i < n then 2 * (n - i) else 0
    case Unlocking(i, _) => if i < n then 2 * (n - i) - 1 else 0
    case Idle => 0
  }

  /** A thread that is alone finds its next lock step enabled. */
  lemma AloneMoves(s: L.State) returns (step: L.Step)
    requires L.Inv(s) && s.threads.Keys == {0} && !s.threads[0].pc.Idle?
    ensures L.Enabled(s, step) && step.t == 0 && !step.Begin?
    ensures ToGo(s.threads[0]) > 0
    ensures var th := L.Apply(s, step).threads[0]; th.pc.Holding? || ToGo(th) < ToGo(s.threads[0])
  {
    var t := L.NeverDeadlocked(s, 0);
    step := L.ReadyCanStep(s, t);
    assert L.WaitOk(s, 0) && L.WaitOk(L.Apply(s, step), 0) by { L.StepKeeps(s, step); }
  }

  /** A call that is alone gets all its locks, and nothing else changes... */
  lemma {:induction false} GetsItsLocks(size: Key -> nat, s: State) returns (steps: seq<Step>, s': State)
    requires Inv(size, s) && s.phases.Keys == {0} && s.phases[0].Locking?
    ensures Run(size, s, steps, s') && Inv(size, s') && AtStore(s', 0) && s' == s.(table := s'.table)
    decreases if s.table.threads[0].pc.Holding? then 0 else ToGo(s.table.threads[0])
  {
    assert PhaseOk(s, 0);
    if s.table.threads[0].pc.Holding? {
      steps, s' := [], s;
    } else {
      var step := AloneMoves(s.table);
      StepKeeps(size, s, Locks(step));
      var rest;
      rest, s' := GetsItsLocks(size, Apply(size, s, Locks(step)));
      steps := [Locks(step)] + rest;
      assert steps[1..] == rest;
    }
  }

  /** ...and gives them back when it is done. */
  lemma {:induction false} GivesItsLocksBack(size: Key -> nat, s: State) returns (steps: seq<Step>, s': State)
    requires Inv(size, s) && s.phases.Keys == {0} && s.phases[0] == Over
    ensures Run(size, s, steps, s') && Inv(size, s') && s'.table.threads.Keys == {0} && s'.table.threads[0].pc.Idle?
    ensures s' == s.(table := s'.table)
    decreases ToGo(s.table.threads[0])
  {
    assert PhaseOk(s, 0);
    if s.table.threads[0].pc.Idle? {
      steps, s' := [], s;
    } else {
      var step := AloneMoves(s.table);
      StepKeeps(size, s, Locks(step));
      var rest;
      rest, s' := GivesItsLocksBack(size, Apply(size, s, Locks(step)));
      steps := [Locks(step)] + rest;
      assert steps[1..] == rest;
    }
  }

  /** An operation that the cache does not settle, up to its call of the store. */
  lemma ReachesStore(size: Key -> nat, s: State, op: Op) returns (steps: seq<Step>, s': State)
    requires Inv(size, s) && s.phases.Keys == {0} && s.table.threads[0].pc.Idle? && Undecided(s.cache, op) && L.Increasing(Keys(op))
    ensures Run(size, s, steps, s') && Inv(size, s') && AtStore(s', 0)
    ensures s' == s.(table := s'.table, phases := map[0 := Locking(op)])
  {
    StepKeeps(size, s, Begin(0, op));
    var s1 := Apply(size, s, Begin(0, op));
    var rest;
    rest, s' := GetsItsLocks(size, s1);
    steps := [Begin(0, op)] + rest;
    assert steps[1..] == rest;
  }

  /** A whole Has of a key that is neither cached nor stored: it is cached as missing. */
  lemma CachesMissing(size: Key -> nat, k: Key) returns (steps: seq<Step>, s: State)
    ensures Run(size, Start({0}, {}), steps, s) && Inv(size, s) && s.phases.Keys == {0} && s.table.threads[0].pc.Idle?
    ensures s == State(s.table, map[0 := Over], {}, map[k := CachedHave(false)], {}, {})
  {
    StartInv(size, {0}, {});
    var s0 := Start({0}, {});
    var op := HasOp(k);
    var a, s1 := ReachesStore(size, s0, op);
    StepKeeps(size, s1, Store(0, true, {}));
    RunThen(size, s0, a, s1, Store(0, true, {}));
    var s2 := Apply(size, s1, Store(0, true, {}));
    StepKeeps(size, s2, Update(0));
    RunThen(size, s0, a + [Store(0, true, {})], s2, Update(0));
    var s3 := Apply(size, s2, Update(0));
    assert s3 == State(s1.table, map[0 := Over], {}, map[k := CachedHave(false)], {}, {});
    var b, s4 := GivesItsLocksBack(size, s3);
    RunJoin(size, s0, a + [Store(0, true, {})] + [Update(0)], s3, b, s4);
    steps, s := a + [Store(0, true, {})] + [Update(0)] + b, s4;
  }

  /** Has(7) caches that 7 is missing; then PutMany of 7 and 8 stores 7 and fails.  The block is
      stored, the call is over, and the cache answers that the block is missing. */
  lemma PartialBatchFailureExample(size: Key -> nat) returns (steps: seq<Step>, s: State)
    ensures Run(size, Start({0}, {}), steps, s)
    ensures 0 in s.phases && s.phases[0] == Over && 7 in s.present && QueryCache(s.cache, 7) == Some((false, -1))
    ensures s.lost == {7} && !Agrees(size, s.present, 7, s.cache[7])
  {
    var s0 := Start({0}, {});
    var a, s1 := CachesMissing(size, 7);
    var op := PutManyOp([7, 8]);
    var b, s2 := ReachesStore(size, s1, op);
    RunJoin(size, s0, a, s1, b, s2);
    var step := Store(0, false, {7});
    RunThen(size, s0, a + b, s2, step);
    steps, s := a + b + [step], Apply(size, s2, step);
    assert 7 in op.ks;
  }

  // ---------- one call alone ----------

  /** The keys of a batch that the cache does not know to be present, in order. */
  function NotKnown(cache: map<Key, CacheEntry>, ks: seq<Key>): (r: seq<Key>) {
    if ks == [] then []
    else
      var q := QueryCache(cache, ks[|ks| - 1]);
      NotKnown(cache, ks[..|ks| - 1]) + (if q.None? || !q.value.0 then [ks[|ks| - 1]] else [])
  }

  lemma {:induction false} NotKnownAre(cache: map<Key, CacheEntry>, ks: seq<Key>, k: Key)
    ensures k in NotKnown(cache, ks) <==> k in ks && Undecided(cache, PutOp(k))
  {
    if ks != [] {
      var n := |ks| - 1;
      NotKnownAre(cache, ks[..n], k);
      assert ks == ks[..n] + [ks[n]];
    }
  }

  /** The sizes of the first `n` keys of a batch, put into the cache one by one. */
  function WithSizes(size: Key -> nat, cache: map<Key, CacheEntry>, ks: seq<Key>, n: nat): (r: map<Key, CacheEntry>)
    requires n <= |ks|
  {
    if n == 0 then cache else WithSizes(size, cache, ks, n - 1)[ks[n - 1] := CachedSize(size(ks[n - 1]))]
  }

  /** The cache after an operation that was not settled by it and found the store at `present`. */
  function CacheAfter(size: Key -> nat, op: Op, ok: bool, present: set<Key>, cache: map<Key, CacheEntry>): (r: map<Key, CacheEntry>) {
    if op.PutManyOp? then if ok then WithSizes(size, cache, op.ks, |op.ks|) else cache
    else if Writes(op) then SetEntry(cache, op.k, NewEntry(op, ok, ok, size(op.k)))
    else if ok then SetEntry(cache, op.k, NewEntry(op, true, op.k in present, size(op.k)))
    else cache
  }

  /** The updates of a thread until it is over. */
  ghost function Updates(size: Key -> nat, s: State, t: Tid, n: nat): State
    requires t in s.phases
    decreases n
  {
    if n == 0 then s else var s1 := ApplyUpdate(size, s, t); if t in s1.phases then Updates(size, s1, t, n - 1) else s1
  }

  lemma {:induction false} BatchUpdates(size: Key -> nat, s: State, t: Tid, ks: seq<Key>, i: nat, cache: map<Key, CacheEntry>)
    requires t in s.phases && s.phases[t] == Caching(ks, i) && i <= |ks| && s.cache == WithSizes(size, cache, ks, i)
    ensures var s' := Updates(size, s, t, |ks| - i + 1);
            s'.phases == s.phases[t := Over] && s'.present == s.present && s'.cache == WithSizes(size, cache, ks, |ks|)
    decreases |ks| - i
  {
    if i < |ks| {
      var s1 := ApplyUpdate(size, s, t);
      BatchUpdates(size, s1, t, ks, i + 1, cache);
      assert s1.phases[t := Over] == s.phases[t := Over];
    } else {
      var s1 := ApplyUpdate(size, s, t);
      assert Updates(size, s1, t, 0) == s1;
    }
  }

  /** A call of the store and the updates that follow, with nothing in between, leave the store
      and the cache as the two functions say. */
  lemma AloneIsStoreAndCacheAfter(size: Key -> nat, s: State, t: Tid, op: Op, ok: bool, landed: set<Key>)
    requires t in s.phases && s.phases[t] == Locking(op)
    ensures var s' := Updates(size, ApplyStore(s, t, op, ok, landed), t, |Keys(op)| + 1);
            && s'.phases == s.phases[t := Over]
            && s'.present == StoreAfter(op, ok, landed, s.present) && s'.cache == CacheAfter(size, op, ok, s.present, s.cache)
  {
    var s1 := ApplyStore(s, t, op, ok, landed);
    if op.PutManyOp? && ok {
      BatchUpdates(size, s1, t, op.ks, 0, s.cache);
    } else if op.PutManyOp? || (!ok && !Writes(op)) {
      NoUpdates(size, s1, t, |Keys(op)| + 1);
    } else {
      assert |Keys(op)| + 1 == 2;
      var s2 := ApplyUpdate(size, s1, t);
      assert Updates(size, s2, t, 1) == ApplyUpdate(size, s2, t) == s2;
    }
  }

  lemma {:induction false} NoUpdates(size: Key -> nat, s: State, t: Tid, n: nat)
    requires t in s.phases && s.phases[t] == Over
    ensures Updates(size, s, t, n) == s
    decreases n
  {
    if n > 0 { NoUpdates(size, s, t, n - 1); }
  }

  // ---------- what the cache learns ----------

  lemma {:induction false} SizesLearnt(size: Key -> nat, cache: map<Key, CacheEntry>, ks: seq<Key>, n: nat, k: Key)
    requires n <= |ks|
    ensures var c := WithSizes(size, cache, ks, n);
            QueryCache(c, k) == if k in ks[..n] then Some((true, size(k) as int)) else QueryCache(cache, k)
  {
    if n > 0 {
      SizesLearnt(size, cache, ks, n - 1, k);
      assert ks[..n] == ks[..n - 1] + [ks[n - 1]];
    }
  }

  /** What the cache answers about `k` after a successful operation on it that found the store at
      `present`. */
  function Learnt(size: Key -> nat, op: Op, present: set<Key>, k: Key): (r: (bool, int)) {
    if op.DeleteOp? || (!Writes(op) && k !in present) then (false, -1)
    else if op.HasOp? then (true, -1)
    else (true, size(k) as int)
  }

  /** Once an operation is over, the cache answers for its keys what the operation has found out; if
      it failed, a single write has made the cache forget its key, and nothing else has changed. */
  lemma CacheLearns(size: Key -> nat, s: State, t: Tid, op: Op, ok: bool, landed: set<Key>, k: Key)
    requires t in s.phases && s.phases[t] == Locking(op)
    ensures var cache := Updates(size, ApplyStore(s, t, op, ok, landed), t, |Keys(op)| + 1).cache;
            QueryCache(cache, k) ==
              if k !in Keys(op) then QueryCache(s.cache, k)
              else if ok then Some(Learnt(size, op, s.present, k))
              else if op.PutOp? || op.DeleteOp? then None
              else QueryCache(s.cache, k)
  {
    AloneIsStoreAndCacheAfter(size, s, t, op, ok, landed);
    if op.PutManyOp? {
      SizesLearnt(size, s.cache, op.ks, |op.ks|, k);
      assert op.ks[..|op.ks|] == op.ks;
    }
  }

  /** What the cache has learnt settles later calls without the store: whether the block is there,
      after any success; its size, if it is not there or its size has come up; a put of a block that
      is there; and a get or a delete of one that is not. */
  lemma LearntSettles(size: Key -> nat, cache: map<Key, CacheEntry>, k: Key, has: bool, n: int)
    requires QueryCache(cache, k) == Some((has, n))
    ensures !Undecided(cache, HasOp(k))
    ensures Undecided(cache, SizeOp(k)) <==> has && n < 0
    ensures Undecided(cache, PutOp(k)) <==> !has
    ensures Undecided(cache, GetOp(k)) <==> has
    ensures Undecided(cache, DeleteOp(k)) <==> has
  {
  }

  // ---------- no call is stuck ----------

  /** In every run, while some call is under way, some call can make its next step: take or give
      back a lock, use the store, or update the cache. */
  lemma NoCallIsStuck(size: Key -> nat, tids: set<Tid>, present: set<Key>, steps: seq<Step>, s: State, busy: Tid) returns (step: Step)
    requires Run(size, Start(tids, present), steps, s) && busy in s.table.threads && !s.table.threads[busy].pc.Idle?
    ensures Enabled(s, step) && (step.Locks? || step.Store? || step.Update?)
  {
    ReachableInv(size, tids, present, steps, s);
    var t := L.NeverDeadlocked(s.table, busy);
    assert PhaseOk(s, t);
    if s.table.threads[t].pc.Holding? && !s.phases[t].Over? {
      step := if s.phases[t].Locking? then Store(t, true, {}) else Update(t);
    } else {
      var lstep := L.ReadyCanStep(s.table, t);
      step := Locks(lstep);
    }
  }

  // ---------- sorting out a batch ----------

  datatype Block = Block(data: string)

  /** The places kept of the first `n` of a batch: of each run of equal keys, the first. */
  function Firsts(ks: seq<Key>, n: nat): (r: seq<nat>)
    requires 0 < n <= |ks|
    ensures 0 < |r| <= n && forall a :: 0 <= a < |r| ==> r[a] < n
  {
    if n == 1 then [0]
    else
      var r := Firsts(ks, n - 1);
      if ks[r[|r| - 1]] == ks[n - 1] then r else r + [n - 1]
  }

  ghost predicate Sorted(ks: seq<Key>) {
    forall i, j :: 0 <= i < j < |ks| ==> ks[i] <= ks[j]
  }

  ghost predicate RisesAt(ks: seq<Key>, r: seq<nat>, a: int, b: int) {
    0 <= a < b < |r| ==> r[a] < |ks| && r[b] < |ks| && ks[r[a]] < ks[r[b]]
  }

  ghost predicate FirstAt(ks: seq<Key>, r: seq<nat>, a: int, y: int) {
    0 <= a < |r| && 0 <= y < r[a] ==> r[a] < |ks| && ks[y] != ks[r[a]]
  }

  /** Of a sorted batch, the kept keys strictly increase, and every key is kept where it first
      occurs. */
  lemma {:induction false} FirstsAreFirst(ks: seq<Key>, n: nat)
    requires 0 < n <= |ks| && Sorted(ks)
    ensures forall a, b :: RisesAt(ks, Firsts(ks, n), a, b)
    ensures forall a, y :: FirstAt(ks, Firsts(ks, n), a, y)
  {
    if n > 1 {
      FirstsAreFirst(ks, n - 1);
      NewFirst(ks, n, Firsts(ks, n - 1));
    }
  }

  lemma NewFirst(ks: seq<Key>, n: nat, r: seq<nat>)
    requires 1 < n <= |ks| && Sorted(ks) && r == Firsts(ks, n - 1)
    requires (forall a, b :: RisesAt(ks, r, a, b)) && (forall a, y :: FirstAt(ks, r, a, y))
    ensures forall a, b :: RisesAt(ks, Firsts(ks, n), a, b)
    ensures forall a, y :: FirstAt(ks, Firsts(ks, n), a, y)
  {
    var all := Firsts(ks, n);
    forall a, b ensures RisesAt(ks, all, a, b) {
      assert RisesAt(ks, r, a, b);
      if 0 <= a < b == |r| < |all| { Smaller(ks, n, r[a]); }
    }
    forall a, y ensures FirstAt(ks, all, a, y) {
      assert FirstAt(ks, r, a, y);
      if 0 <= y && a == |r| < |all| && y < n - 1 { Smaller(ks, n, y); }
    }
  }

  lemma Smaller(ks: seq<Key>, n: nat, y: nat)
    requires y + 1 < n <= |ks| && Sorted(ks) && ks[n - 2] != ks[n - 1]
    ensures ks[y] < ks[n - 1]
  {
    assert ks[y] <= ks[n - 2] <= ks[n - 1];
  }

  /** No key of the batch is lost. */
  lemma {:induction false} FirstsLoseNoKey(ks: seq<Key>, n: nat, b: nat)
    requires b < n <= |ks|
    ensures exists a :: 0 <= a < |Firsts(ks, n)| && ks[Firsts(ks, n)[a]] == ks[b]
    decreases n
  {
    var r := Firsts(ks, n);
    if b < n - 1 {
      FirstsLoseNoKey(ks, n - 1, b);
      var q := Firsts(ks, n - 1);
      var a :| 0 <= a < |q| && ks[q[a]] == ks[b];
      assert r[a] == q[a];
    } else {
      assert ks[r[|r| - 1]] == ks[b];
    }
  }

  /** `xs` holds, from the front, the elements of `ys` at the places `r`. */
  ghost predicate Picks<T>(xs: seq<T>, ys: seq<T>, r: seq<nat>) {
    |r| <= |xs| && forall a :: PickedAt(xs, ys, r, a)
  }

  ghost predicate PickedAt<T>(xs: seq<T>, ys: seq<T>, r: seq<nat>, a: int) {
    0 <= a < |r| && a < |xs| ==> r[a] < |ys| && xs[a] == ys[r[a]]
  }

  /** One more place is kept: its element moves down behind the ones kept before. */
  lemma PicksNext<T>(xs: seq<T>, ys: seq<T>, r: seq<nat>, i: nat)
    requires |r| <= i < |xs| == |ys| && Picks(xs, ys, r) && Tail(xs, ys, i)
    ensures var xs' := xs[|r| := xs[i]]; Picks(xs', ys, r + [i]) && Tail(xs', ys, i + 1)
    ensures Tail(xs, ys, i + 1)
  {
    var xs' := xs[|r| := xs[i]];
    forall a ensures PickedAt(xs', ys, r + [i], a) { assert PickedAt(xs, ys, r, a); }
  }

  ghost predicate Tail<T>(xs: seq<T>, ys: seq<T>, i: nat) {
    |xs| == |ys| && forall a :: i <= a < |xs| ==> xs[a] == ys[a]
  }

  /** The loop's state: the places kept of the first `i`, and the rest untouched. */
  ghost predicate Stage(kb: seq<Key>, bb: seq<Block>, ks: seq<Key>, bs: seq<Block>, r: seq<nat>, i: nat) {
    && 0 < i <= |ks| == |bs| && r == Firsts(ks, i)
    && Picks(kb, ks, r) && Picks(bb, bs, r) && Tail(kb, ks, i) && Tail(bb, bs, i)
  }

  lemma StageNext(kb: seq<Key>, bb: seq<Block>, ks: seq<Key>, bs: seq<Block>, r: seq<nat>, i: nat)
    requires Stage(kb, bb, ks, bs, r, i) && i < |ks|
    ensures if kb[|r| - 1] == kb[i] then Stage(kb, bb, ks, bs, r, i + 1)
            else Stage(kb[|r| := kb[i]], bb[|r| := bb[i]], ks, bs, r + [i], i + 1)
  {
    PicksNext(kb, ks, r, i);
    PicksNext(bb, bs, r, i);
    assert PickedAt(kb, ks, r, |r| - 1);
  }

  method MovePair(keys: array<Key>, blocks: array<Block>, i: nat, j: nat)
    requires keys.Length == blocks.Length && j <= i < keys.Length
    modifies keys, blocks
    ensures keys[..] == old(keys[..])[j := old(keys[..])[i]] && blocks[..] == old(blocks[..])[j := old(blocks[..])[i]]
  {
    keys[j] := keys[i];
    blocks[j] := blocks[i];
  }

  /** The second half of sortAndDedup, in place on the two parallel arrays. */
  method Dedup(keys: array<Key>, blocks: array<Block>) returns (n: nat)
    requires keys.Length == blocks.Length
    modifies keys, blocks
    ensures n <= keys.Length && (n == 0 <==> keys.Length == 0)
    ensures n > 0 ==>
              var r := Firsts(old(keys[..]), keys.Length);
              n == |r| && Picks(keys[..], old(keys[..]), r) && Picks(blocks[..], old(blocks[..]), r)
  {
    if keys.Length == 0 { return 0; }
    ghost var ks, bs := keys[..], blocks[..];
    ghost var r: seq<nat> := [0];
    var j, i := 0, 1;
    while i < keys.Length
      invariant 0 <= j < i <= keys.Length && |r| == j + 1
      invariant Stage(keys[..], blocks[..], ks, bs, r, i)
    {
      StageNext(keys[..], blocks[..], ks, bs, r, i);
      if keys[j] != keys[i] {
        j := j + 1;
        MovePair(keys, blocks, i, j);
        r := r + [i];
      }
      i := i + 1;
    }
    n := j + 1;
  }
}
