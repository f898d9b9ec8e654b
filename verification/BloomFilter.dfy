/**
 The filter of blockstore/bloom_cache.go while it is being built: one goroutine drains a key
 enumeration into the filter and then declares it active, and any number of threads put and
 delete blocks meanwhile.  The filter is a set of bits; a key owns the bits `index(key)`, and
 it tests positive when all of them are set, so a key that was never added may test positive.
 */
module BloomFilter {
  type Key = nat
  type Tid = nat
  type Index = Key -> set<nat>

  /** The building goroutine.  `todo` is what a complete enumeration still has to deliver:
      the keys stored when it began, less those delivered and those deleted since. */
  datatype Build = Waiting | Enumerating(todo: set<Key>) | Active | Stopped

  /** A Put or PutMany: inside the wrapped store, where the keys of `landed` have been written;
      or back from it with success, adding its keys to the filter one by one. */
  datatype Put =
    | Writing(keys: seq<Key>, landed: set<Key>)
    | Adding(keys: seq<Key>, next: nat)

  /** History, read by no step: `returned` collects the keys of puts that returned with success,
      `lost` the keys written by puts that failed all the same. */
  datatype State = State(
    store: set<Key>, bits: set<nat>, build: Build, puts: map<Tid, Put>, returned: set<Key>, lost: set<Key>
  )

  datatype Step =
    | StartBuild
    | Deliver(k: Key)
    | Close
    | Cancel
    | BeginPut(t: Tid, keys: seq<Key>)
    | Land(t: Tid, k: Key)
    | Succeed(t: Tid)
    | Fail(t: Tid)
    | Add(t: Tid)
    | Return(t: Tid)
    | Delete(k: Key)

  predicate Positive(index: Index, bits: set<nat>, k: Key) {
    index(k) <= bits
  }

  /** hasCached: whether the filter settles that the key is absent. */
  predicate SaysAbsent(index: Index, s: State, k: Key) {
    s.build.Active? && !Positive(index, s.bits, k)
  }

  predicate Enabled(s: State, step: Step) {
    match step
    case StartBuild => s.build.Waiting?
    case Deliver(_) => s.build.Enumerating?
    case Close => s.build.Enumerating? && s.build.todo == {}
    case Cancel => s.build.Enumerating? || s.build.Waiting?
    case BeginPut(t, _) => t !in s.puts
    case Land(t, k) => t in s.puts && s.puts[t].Writing? && k in s.puts[t].keys
    case Succeed(t) => t in s.puts && s.puts[t].Writing?
    case Fail(t) => t in s.puts && s.puts[t].Writing?
    case Add(t) => t in s.puts && s.puts[t].Adding? && s.puts[t].next < |s.puts[t].keys|
    case Return(t) => t in s.puts && s.puts[t].Adding? && s.puts[t].next == |s.puts[t].keys|
    case Delete(_) => true
  }

  function SetPut(s: State, t: Tid, p: Put): (r: State) {
    s.(puts := s.puts[t := p])
  }

  /** The keys a build still waits for once `k` needs no delivery. */
  function Delivered(b: Build, k: Key): (r: Build) {
    if b.Enumerating? then Enumerating(b.todo - {k}) else b
  }

  function Apply(index: Index, s: State, step: Step): (r: State)
    requires Enabled(s, step)
  {
    match step
    case StartBuild => s.(build := Enumerating(s.store))
    case Deliver(k) => s.(bits := s.bits + index(k), build := Delivered(s.build, k))
    case Close => s.(build := Active)
    case Cancel => s.(build := Stopped)
    case BeginPut(t, keys) => SetPut(s, t, Writing(keys, {}))
    case Land(t, k) => SetPut(s, t, Writing(s.puts[t].keys, s.puts[t].landed + {k})).(store := s.store + {k})
    case Succeed(t) => SetPut(s, t, Adding(s.puts[t].keys, 0))
    case Fail(t) => s.(puts := s.puts - {t}, lost := s.lost + s.puts[t].landed)
    case Add(t) =>
      var p := s.puts[t];
      SetPut(s, t, Adding(p.keys, p.next + 1)).(bits := s.bits + index(p.keys[p.next]))
    case Return(t) => s.(puts := s.puts - {t}, returned := s.returned + (set k | k in s.puts[t].keys))
    case Delete(k) => s.(store := s.store - {k}, build := Delivered(s.build, k))
  }

  ghost predicate Init(s: State) {
    s.bits == {} && s.build.Waiting? && s.puts == map[] && s.returned == {} && s.lost == {}
  }

  ghost predicate Run(index: Index, s: State, steps: seq<Step>, s': State)
    decreases |steps|
  {
    if steps == [] then s' == s
    else Enabled(s, steps[0]) && Run(index, Apply(index, s, steps[0]), steps[1..], s')
  }

  // ---------- the invariant ----------

  /** Thread `t` is inside a put that has written `k`, or has to add it to the filter. */
  ghost predicate Owes(s: State, t: Tid, k: Key) {
    t in s.puts &&
    match s.puts[t]
    case Writing(_, landed) => k in landed
    case Adding(keys, next) => exists j :: next <= j < |keys| && keys[j] == k
  }

  ghost predicate InFlight(s: State, k: Key) {
    exists t :: Owes(s, t, k)
  }

  /** What a put wrote are keys of its own, and what it added tests positive. */
  ghost predicate PutOk(index: Index, s: State, t: Tid) {
    t in s.puts ==>
      match s.puts[t]
      case Writing(keys, landed) => forall k :: k in landed ==> k in keys
      case Adding(keys, next) => next <= |keys| && forall j :: 0 <= j < next ==> Positive(index, s.bits, keys[j])
  }

  ghost predicate ReturnedOk(index: Index, s: State, k: Key) {
    k in s.returned ==> Positive(index, s.bits, k)
  }

  /** A stored key is in the filter, still to be delivered, owed by a put, or lost. */
  ghost predicate Covered(index: Index, s: State, k: Key) {
    k in s.store && (s.build.Enumerating? || s.build.Active?) ==>
      || Positive(index, s.bits, k)
      || (s.build.Enumerating? && k in s.build.todo)
      || InFlight(s, k)
      || k in s.lost
  }

  ghost predicate Inv(index: Index, s: State) {
    && (forall t :: PutOk(index, s, t))
    && (forall k :: ReturnedOk(index, s, k))
    && (forall k :: Covered(index, s, k))
  }

  // ---------- every step keeps it ----------

  /** What thread `t` owes stays owed while its put does not move. */
  lemma StillOwed(s: State, s': State, t: Tid, k: Key)
    requires Owes(s, t, k) && t in s'.puts && s'.puts[t] == s.puts[t]
    ensures InFlight(s', k)
  {
    assert Owes(s', t, k);
  }

  lemma AddKeepsCovered(index: Index, s: State, t: Tid, k: Key)
    requires Enabled(s, Add(t)) && Covered(index, s, k)
    ensures Covered(index, Apply(index, s, Add(t)), k)
  {
    var s' := Apply(index, s, Add(t));
    var p := s.puts[t];
    if u :| Owes(s, u, k) {
      if u != t {
        StillOwed(s, s', u, k);
      } else {
        var j :| p.next <= j < |p.keys| && p.keys[j] == k;
        assert j > p.next ==> Owes(s', t, k);
      }
    }
  }

  lemma SucceedKeepsCovered(index: Index, s: State, t: Tid, k: Key)
    requires Enabled(s, Succeed(t)) && Covered(index, s, k) && PutOk(index, s, t)
    ensures Covered(index, Apply(index, s, Succeed(t)), k)
  {
    var s' := Apply(index, s, Succeed(t));
    if u :| Owes(s, u, k) {
      if u != t {
        StillOwed(s, s', u, k);
      } else {
        var j :| 0 <= j < |s.puts[t].keys| && s.puts[t].keys[j] == k;
        assert Owes(s', t, k);
      }
    }
  }

  lemma LandKeepsCovered(index: Index, s: State, t: Tid, x: Key, k: Key)
    requires Enabled(s, Land(t, x)) && Covered(index, s, k)
    ensures Covered(index, Apply(index, s, Land(t, x)), k)
  {
    var s' := Apply(index, s, Land(t, x));
    if k == x {
      assert Owes(s', t, k);
    } else if u :| Owes(s, u, k) {
      assert Owes(s', u, k);
    }
  }

  /** A put that ends owes nothing but what it has lost. */
  lemma EndKeepsCovered(index: Index, s: State, step: Step, k: Key)
    requires (step.Fail? || step.Return?) && Enabled(s, step) && Covered(index, s, k)
    ensures Covered(index, Apply(index, s, step), k)
  {
    var s' := Apply(index, s, step);
    if u :| Owes(s, u, k) {
      if u != step.t { StillOwed(s, s', u, k); }
    }
  }

  lemma StepKeepsCovered(index: Index, s: State, step: Step, k: Key)
    requires Enabled(s, step) && Covered(index, s, k) && forall t :: PutOk(index, s, t)
    ensures Covered(index, Apply(index, s, step), k)
  {
    var s' := Apply(index, s, step);
    match step
    case Add(t) => AddKeepsCovered(index, s, t, k);
    case Succeed(t) => SucceedKeepsCovered(index, s, t, k);
    case Land(t, x) => LandKeepsCovered(index, s, t, x, k);
    case Fail(_) => EndKeepsCovered(index, s, step, k);
    case Return(_) => EndKeepsCovered(index, s, step, k);
    case _ =>
      if u :| Owes(s, u, k) { StillOwed(s, s', u, k); }
  }

  lemma StepKeepsReturned(index: Index, s: State, step: Step, k: Key)
    requires Inv(index, s) && Enabled(s, step)
    ensures ReturnedOk(index, Apply(index, s, step), k)
  {
    assert ReturnedOk(index, s, k);
    if step.Return? && k in s.puts[step.t].keys {
      assert PutOk(index, s, step.t);
      var j :| 0 <= j < |s.puts[step.t].keys| && s.puts[step.t].keys[j] == k;
    }
  }

  lemma StepKeeps(index: Index, s: State, step: Step)
    requires Inv(index, s) && Enabled(s, step)
    ensures Inv(index, Apply(index, s, step))
  {
    var s' := Apply(index, s, step);
    forall t ensures PutOk(index, s', t) { assert PutOk(index, s, t); }
    forall k ensures ReturnedOk(index, s', k) { StepKeepsReturned(index, s, step, k); }
    forall k ensures Covered(index, s', k) { StepKeepsCovered(index, s, step, k); }
  }

  lemma {:induction false} RunKeeps(index: Index, s: State, steps: seq<Step>, s': State)
    requires Inv(index, s) && Run(index, s, steps, s')
    ensures Inv(index, s') && s.lost <= s'.lost && s.bits <= s'.bits && s.returned <= s'.returned
    decreases |steps|
  {
    if steps != [] {
      StepKeeps(index, s, steps[0]);
      RunKeeps(index, Apply(index, s, steps[0]), steps[1..], s');
    }
  }

  // ---------- what the filter promises ----------

  /** Once a put has returned with success, every one of its keys tests positive in every later
      state of every run, whatever other puts, failures and deletes come before or after. */
  lemma ReturnedTestsPositive(index: Index, s: State, before: seq<Step>, s1: State, t: Tid, after: seq<Step>, s2: State, k: Key)
    requires Init(s) && Run(index, s, before, s1) && Enabled(s1, Return(t)) && k in s1.puts[t].keys
    requires Run(index, Apply(index, s1, Return(t)), after, s2)
    ensures Positive(index, s2.bits, k) && !SaysAbsent(index, s2, k)
  {
    RunKeeps(index, s, before, s1);
    StepKeeps(index, s1, Return(t));
    RunKeeps(index, Apply(index, s1, Return(t)), after, s2);
    assert ReturnedOk(index, s2, k);
  }

  /** In every run, no put of a key that the active filter calls absent has returned with success;
      and if the key is stored all the same, every put that wrote it is still under way or
      failed. */
  lemma AbsentIsAbsent(index: Index, s: State, steps: seq<Step>, s': State, k: Key)
    requires Init(s) && Run(index, s, steps, s') && SaysAbsent(index, s', k)
    ensures k !in s'.returned
    ensures k !in s'.store || InFlight(s', k) || k in s'.lost
  {
    RunKeeps(index, s, steps, s');
    assert ReturnedOk(index, s', k);
    assert Covered(index, s', k);
  }

  /** In every run, an active filter has every stored key, except one that is owed by a put under
      way or was written by a failed put, and of which no put has returned with success. */
  lemma StoredTestsPositive(index: Index, s: State, steps: seq<Step>, s': State, k: Key)
    requires Init(s) && Run(index, s, steps, s') && s'.build.Active?
    requires k in s'.store && (k in s'.returned || (!InFlight(s', k) && k !in s'.lost))
    ensures Positive(index, s'.bits, k)
  {
    RunKeeps(index, s, steps, s');
    assert ReturnedOk(index, s', k);
    assert Covered(index, s', k);
  }

  /** A put that reports failure keeps the filter right exactly if what it wrote tests positive
      anyway: with the filter active and no other put under way, every stored key tests positive
      afterwards if and only if every key it wrote that is still stored does. */
  lemma FailedPutIff(index: Index, s: State, t: Tid)
    requires Inv(index, s) && s.build.Active? && s.lost == {} && Enabled(s, Fail(t)) && s.puts.Keys == {t}
    ensures var s' := Apply(index, s, Fail(t));
            (forall k :: k in s'.store ==> !SaysAbsent(index, s', k)) <==>
            (forall k :: k in s.puts[t].landed && k in s.store ==> Positive(index, s.bits, k))
  {
    var s' := Apply(index, s, Fail(t));
    if forall k :: k in s.puts[t].landed && k in s.store ==> Positive(index, s.bits, k) {
      forall k | k in s'.store ensures !SaysAbsent(index, s', k) {
        assert Covered(index, s, k);
        if u :| Owes(s, u, k) { assert u in s.puts.Keys; }
      }
    } else {
      var k :| k in s.puts[t].landed && k in s.store && !Positive(index, s.bits, k);
      assert SaysAbsent(index, s', k);
    }
  }

  /** A put that wrote its key and failed: the block is stored and the filter calls it absent. */
  lemma FailedPutExample(index: Index, k: Key) returns (s: State, steps: seq<Step>, s': State)
    requires index(k) != {}
    ensures Init(s) && Run(index, s, steps, s')
    ensures k in s'.store && SaysAbsent(index, s', k) && s'.puts == map[]
  {
    s := State({}, {}, Waiting, map[], {}, {});
    steps := [StartBuild, Close, BeginPut(0, [k]), Land(0, k), Fail(0)];
    var a := Apply(index, s, steps[0]);
    var b := Apply(index, a, Close);
    var c := Apply(index, b, BeginPut(0, [k]));
    var d := Apply(index, c, Land(0, k));
    s' := Apply(index, d, Fail(0));
    assert Run(index, d, [Fail(0)], s');
    assert Run(index, c, [Land(0, k), Fail(0)], s') by { assert [Land(0, k), Fail(0)][1..] == [Fail(0)]; }
    assert Run(index, b, [BeginPut(0, [k]), Land(0, k), Fail(0)], s') by {
      assert [BeginPut(0, [k]), Land(0, k), Fail(0)][1..] == [Land(0, k), Fail(0)];
    }
    assert steps[1..][1..] == [BeginPut(0, [k]), Land(0, k), Fail(0)];
    assert Run(index, a, steps[1..], s');
  }

  // ---------- the build comes to its end ----------

  lemma RunCons(index: Index, s: State, step: Step, rest: seq<Step>, s': State)
    requires Enabled(s, step) && Run(index, Apply(index, s, step), rest, s')
    ensures Run(index, s, [step] + rest, s')
  {
    assert ([step] + rest)[1..] == rest;
  }

  /** A build that is not cancelled makes the filter active, by its own steps, whatever puts are
      under way; the store does not change by it. */
  lemma {:induction false} BuildFinishes(index: Index, s: State) returns (steps: seq<Step>, s': State)
    requires s.build.Waiting? || s.build.Enumerating?
    ensures Run(index, s, steps, s') && s'.build.Active? && s'.store == s.store && s'.puts == s.puts
    ensures forall k :: 0 <= k < |steps| ==> steps[k].StartBuild? || steps[k].Deliver? || steps[k].Close?
    decreases s.build.Waiting?, if s.build.Enumerating? then s.build.todo else {}
  {
    var step := Close;
    if s.build.Waiting? {
      step := StartBuild;
    } else if s.build.todo != {} {
      var k :| k in s.build.todo;
      step := Deliver(k);
    }
    var (rest, s1) := ([], Apply(index, s, step));
    s' := s1;
    if !step.Close? { rest, s' := BuildFinishes(index, s1); }
    RunCons(index, s, step, rest, s');
    steps := [step] + rest;
  }

  // ---------- the filter has no bits of its own ----------

  /** The keys that a step brings up: delivered by the enumeration, or to be put. */
  function KeysOf(step: Step): (r: set<Key>) {
    match step
    case Deliver(k) => {k}
    case BeginPut(_, keys) => set k | k in keys
    case _ => {}
  }

  function KeysOfAll(steps: seq<Step>): (r: set<Key>) {
    if steps == [] then {} else KeysOf(steps[0]) + KeysOfAll(steps[1..])
  }

  /** Every bit that is set, and every key still to be added, belongs to one of `keys`. */
  ghost predicate FromKeys(index: Index, s: State, keys: set<Key>) {
    && (forall b :: b in s.bits ==> BitOf(index, keys, b))
    && (forall t, k :: t in s.puts && k in s.puts[t].keys ==> k in keys)
  }

  ghost predicate BitOf(index: Index, keys: set<Key>, b: nat) {
    exists k :: k in keys && b in index(k)
  }

  lemma StepFromKeys(index: Index, s: State, step: Step, keys: set<Key>)
    requires FromKeys(index, s, keys) && Enabled(s, step)
    ensures FromKeys(index, Apply(index, s, step), keys + KeysOf(step))
  {
    var s' := Apply(index, s, step);
    forall b | b in s'.bits ensures BitOf(index, keys + KeysOf(step), b) {
      if b in s.bits {
        var k :| k in keys && b in index(k);
        assert k in keys + KeysOf(step);
      } else if step.Deliver? {
        assert step.k in KeysOf(step);
      } else {
        var k := s.puts[step.t].keys[s.puts[step.t].next];
        assert k in keys;
      }
    }
  }

  lemma {:induction false} RunFromKeys(index: Index, s: State, steps: seq<Step>, s': State, keys: set<Key>)
    requires FromKeys(index, s, keys) && Run(index, s, steps, s')
    ensures FromKeys(index, s', keys + KeysOfAll(steps))
    decreases |steps|
  {
    if steps == [] {
      assert keys + KeysOfAll(steps) == keys;
    } else {
      StepFromKeys(index, s, steps[0], keys);
      RunFromKeys(index, Apply(index, s, steps[0]), steps[1..], s', keys + KeysOf(steps[0]));
      assert keys + KeysOf(steps[0]) + KeysOfAll(steps[1..]) == keys + KeysOfAll(steps);
    }
  }

  /** In every run, an active filter calls a key absent as soon as one of its bits belongs to no key
      that was delivered or put. */
  lemma StrangersAreAbsent(index: Index, s: State, steps: seq<Step>, s': State, k: Key, b: nat)
    requires Init(s) && Run(index, s, steps, s') && s'.build.Active?
    requires b in index(k) && forall x :: x in KeysOfAll(steps) ==> b !in index(x)
    ensures SaysAbsent(index, s', k)
  {
    RunFromKeys(index, s, steps, s', {});
  }
}
