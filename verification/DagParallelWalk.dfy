/**
 The worker-pool walk of ipld/merkledag/merkledag.go as a state machine.  The channels are
 unbuffered, so a send and its receive are one step; the main loop always stands in its
 select, and the workers and the main loop interleave freely.
 */
module DagParallelWalk {
  import opened Cardinality
  import opened Options
  import opened DagGraph

  datatype Worker =
    | Idle
    | Got(item: Item)
    | Fetching(item: Item)
    | Sending(links: seq<Cid>, depth: nat)
    | Finishing
    | Failing

  datatype Result = Running | Ok | Failed

  /** `next` and `todo` are the main loop's queue: `next` is sent first, and while there is
      no `next` the feed channel is switched off.  `visits` is history only. */
  datatype State = State(
    next: Option<Item>,
    todo: seq<Item>,
    inProgress: int,
    workers: seq<Worker>,
    seen: map<Cid, nat>,
    visits: seq<Item>,
    result: Result)

  datatype Step =
    | Feed(i: nat)
    | Visiting(i: nat)
    | Fetch(i: nat, fails: bool)
    | Out(i: nat)
    | Done(i: nat)
    | Err(i: nat)
    | Cancel

  function Start(w: Walk, concurrency: nat): (s: State) {
    State(Some(Item(w.root, 0)), [], 0, seq(concurrency, _ => Idle), map[], [], Running)
  }

  predicate Enabled(w: Walk, s: State, step: Step) {
    && s.result == Running
    && (step.Cancel? ||
        (step.i < |s.workers| &&
         var k := s.workers[step.i];
         match step
         case Feed(_) => k.Idle? && s.next.Some?
         case Visiting(_) => k.Got?
         case Fetch(_, fails) => k.Fetching? && (!fails ==> k.item.cid in w.g)
         case Out(_) => k.Sending?
         case Done(_) => k.Finishing?
         case Err(_) => k.Failing?
         case Cancel => true))
  }

  function Set(s: State, i: nat, k: Worker): (r: State)
    requires i < |s.workers|
  {
    s.(workers := s.workers[i := k])
  }

  /** The main loop takes in the links of one node, one at a time. */
  function Enqueue(next: Option<Item>, todo: seq<Item>, links: seq<Cid>, depth: nat): (r: (Option<Item>, seq<Item>))
    decreases |links|
  {
    if links == [] then (next, todo)
    else
      var it := Item(links[0], depth);
      if next.None? then Enqueue(Some(it), todo, links[1..], depth)
      else Enqueue(next, todo + [it], links[1..], depth)
  }

  function ApplyVisiting(w: Walk, s: State, i: nat, it: Item): (r: State)
    requires i < |s.workers|
  {
    if w.skipRoot && it.depth == 0 then Set(s, i, Fetching(it))
    else
      var (seen, ok) := Visit(w.lim, s.seen, it.cid, it.depth);
      if ok then Set(s, i, Fetching(it)).(seen := seen, visits := s.visits + [it])
      else Set(s, i, Finishing)
  }

  function Apply(w: Walk, s: State, step: Step): (r: State)
    requires Enabled(w, s, step)
  {
    match step
    case Feed(i) =>
      var s1 := Set(s, i, Got(s.next.value)).(inProgress := s.inProgress + 1);
      if |s.todo| > 0 then s1.(next := Some(s.todo[0]), todo := s.todo[1..]) else s1.(next := None)
    case Visiting(i) => ApplyVisiting(w, s, i, s.workers[i].item)
    case Fetch(i, fails) =>
      var it := s.workers[i].item;
      if fails then Set(s, i, Failing) else Set(s, i, Sending(w.g[it.cid], it.depth + 1))
    case Out(i) =>
      var (next, todo) := Enqueue(s.next, s.todo, s.workers[i].links, s.workers[i].depth);
      Set(s, i, Finishing).(next := next, todo := todo)
    case Done(i) =>
      var s1 := Set(s, i, Idle).(inProgress := s.inProgress - 1);
      if s1.inProgress == 0 && s.next.None? then s1.(result := Ok) else s1
    case Err(i) => s.(result := Failed)
    case Cancel => s.(result := Failed)
  }

  // ---------- what is still pending ----------

  ghost function QueueOf(next: Option<Item>, todo: seq<Item>): seq<Item> {
    if next.None? then [] else [next.value] + todo
  }

  ghost function Queue(s: State): seq<Item> {
    QueueOf(s.next, s.todo)
  }

  /** The item `x` is held by worker `k`, as itself or as one of the links it is handling. */
  ghost predicate Holds(w: Walk, k: Worker, x: Item) {
    match k
    case Got(it) => x == it
    case Fetching(it) => x.cid in Links(w.g, it.cid) && x.depth == it.depth + 1
    case Sending(links, depth) => x.cid in links && x.depth == depth
    case _ => false
  }

  ghost predicate Held(w: Walk, workers: seq<Worker>, x: Item) {
    exists i :: 0 <= i < |workers| && Holds(w, workers[i], x)
  }

  ghost predicate Pending(w: Walk, s: State, x: Item) {
    x in Queue(s) || Held(w, s.workers, x)
  }

  ghost function Items(links: seq<Cid>, depth: nat): seq<Item> {
    if links == [] then [] else [Item(links[0], depth)] + Items(links[1..], depth)
  }

  lemma {:induction false} ItemsMember(links: seq<Cid>, depth: nat, x: Item)
    ensures |Items(links, depth)| == |links|
    ensures x in Items(links, depth) <==> x.cid in links && x.depth == depth
  {
    if links != [] {
      ItemsMember(links[1..], depth, x);
      assert links == [links[0]] + links[1..];
    }
  }

  /** Taking in the links puts them at the end of the queue, whether or not it was empty. */
  lemma {:induction false} EnqueueAppends(next: Option<Item>, todo: seq<Item>, links: seq<Cid>, depth: nat)
    requires next.None? ==> todo == []
    ensures var (next', todo') := Enqueue(next, todo, links, depth);
            && (next'.None? ==> todo' == [])
            && QueueOf(next', todo') == QueueOf(next, todo) + Items(links, depth)
    decreases |links|
  {
    if links != [] {
      var it := Item(links[0], depth);
      if next.None? {
        EnqueueAppends(Some(it), todo, links[1..], depth);
        assert QueueOf(Some(it), todo) + Items(links[1..], depth) == Items(links, depth);
      } else {
        EnqueueAppends(next, todo + [it], links[1..], depth);
        assert QueueOf(next, todo + [it]) + Items(links[1..], depth) == QueueOf(next, todo) + Items(links, depth);
      }
    }
  }

  // ---------- the invariant ----------

  ghost function Busy(workers: seq<Worker>): nat {
    if workers == [] then 0 else (if workers[0].Idle? then 0 else 1) + Busy(workers[1..])
  }

  /** Some pending item or the map takes care of `e` at depth `d`. */
  ghost predicate Covered(w: Walk, s: State, e: Cid, d: nat) {
    || Settled(w.lim, s.seen, e, d)
    || exists n: nat :: (w.lim < 0 || n <= d) && Pending(w, s, Item(e, n))
  }

  ghost predicate ChildrenCovered(w: Walk, s: State, c: Cid, d: nat) {
    forall e :: e in Links(w.g, c) ==> Covered(w, s, e, d)
  }

  ghost predicate CoveredAt(w: Walk, s: State, c: Cid) {
    c in s.seen ==> ChildrenCovered(w, s, c, s.seen[c] + 1)
  }

  /** Before the root has been taken up: it is the only work there is. */
  ghost predicate AtStart(w: Walk, s: State) {
    && s.seen == map[] && Pending(w, s, Item(w.root, 0))
    && |Queue(s)| + Busy(s.workers) == 1
  }

  ghost predicate RootCovered(w: Walk, s: State) {
    || AtStart(w, s)
    || if w.skipRoot then ChildrenCovered(w, s, w.root, 1) else Covered(w, s, w.root, 0)
  }

  /** No fetch has failed, so no links got lost. */
  ghost predicate Lossless(s: State) {
    forall i :: 0 <= i < |s.workers| ==> !s.workers[i].Failing?
  }

  ghost predicate Complete(w: Walk, s: State) {
    Lossless(s) ==> RootCovered(w, s) && forall c :: CoveredAt(w, s, c)
  }

  ghost predicate PendingOk(w: Walk, s: State, x: Item) {
    Pending(w, s, x) ==> Path(w, x.cid, x.depth) && (x.depth == 0 ==> AtStart(w, s))
  }

  ghost predicate WorkerOk(w: Walk, s: State, k: Worker) {
    && (k.Fetching? ==> Path(w, k.item.cid, k.item.depth) && (k.item.depth == 0 || InRange(w, k.item.depth)))
    && (k.Sending? ==> k.depth > 0)
  }

  /** A recorded node has been fetched, or its worker is at it, or has failed. */
  ghost predicate FetchedAt(w: Walk, s: State, c: Cid) {
    c in s.seen ==>
      c in w.g || exists i :: 0 <= i < |s.workers| && AtIt(s.workers[i], c)
  }

  ghost predicate AtIt(k: Worker, c: Cid) {
    k.Failing? || (k.Fetching? && k.item.cid == c)
  }

  /** A recorded visit is no better than what the map holds now. */
  ghost predicate VisitOk(lim: int, seen: map<Cid, nat>, v: Item) {
    v.cid in seen && seen[v.cid] <= v.depth && (lim < 0 ==> seen[v.cid] == v.depth)
  }

  /** Without a limit no node is visited twice; with one, only at ever smaller depths. */
  ghost predicate VisitsOk(w: Walk, s: State) {
    && (forall i :: 0 <= i < |s.visits| ==> VisitOk(w.lim, s.seen, s.visits[i]))
    && (forall i, j :: 0 <= i < j < |s.visits| && s.visits[i].cid == s.visits[j].cid ==>
          w.lim >= 0 && s.visits[j].depth < s.visits[i].depth)
    && (forall c :: c in s.seen ==> Item(c, s.seen[c]) in s.visits)
  }

  ghost predicate ControlOk(s: State) {
    && (s.next.None? ==> s.todo == [])
    && s.inProgress == Busy(s.workers)
    && (s.result == Running ==> s.inProgress > 0 || s.next.Some?)
    && (s.result == Ok ==> s.inProgress == 0 && s.next.None?)
  }

  ghost predicate Inv(w: Walk, s: State) {
    match s
    case State(_, _, _, workers, seen, _, _) =>
      && ControlOk(s)
      && Sound(w, seen)
      && (forall x :: PendingOk(w, s, x))
      && (forall i :: 0 <= i < |workers| ==> WorkerOk(w, s, workers[i]))
      && Complete(w, s)
      && (forall c :: FetchedAt(w, s, c))
      && VisitsOk(w, s)
  }

  // ---------- counting workers ----------

  lemma {:induction false} BusyUpdate(workers: seq<Worker>, i: nat, k: Worker)
    requires i < |workers|
    ensures Busy(workers[i := k]) == Busy(workers) - (if workers[i].Idle? then 0 else 1) + (if k.Idle? then 0 else 1)
  {
    if i > 0 {
      BusyUpdate(workers[1..], i - 1, k);
      assert workers[i := k][1..] == workers[1..][i - 1 := k];
    } else {
      assert workers[i := k][1..] == workers[1..];
    }
  }

  lemma {:induction false} BusyZero(workers: seq<Worker>)
    ensures Busy(workers) == 0 <==> forall i :: 0 <= i < |workers| ==> workers[i].Idle?
  {
    if workers != [] {
      BusyZero(workers[1..]);
      assert forall i :: 0 <= i < |workers| - 1 ==> workers[1..][i] == workers[i + 1];
      if Busy(workers) == 0 {
        forall i | 0 <= i < |workers| ensures workers[i].Idle? { if i > 0 { assert workers[1..][i - 1].Idle?; } }
      }
    }
  }

  // ---------- one worker changes ----------

  lemma HeldUpdate(w: Walk, workers: seq<Worker>, i: nat, k: Worker, x: Item)
    requires i < |workers|
    ensures Held(w, workers[i := k], x) ==> Holds(w, k, x) || Held(w, workers, x)
    ensures Holds(w, k, x) ==> Held(w, workers[i := k], x)
    ensures Held(w, workers, x) ==> Holds(w, workers[i], x) || Held(w, workers[i := k], x)
  {
    var after := workers[i := k];
    if Held(w, after, x) {
      var j :| 0 <= j < |after| && Holds(w, after[j], x);
      if j != i { assert Holds(w, workers[j], x); }
    }
    if Holds(w, k, x) { assert Holds(w, after[i], x); }
    if Held(w, workers, x) {
      var j :| 0 <= j < |workers| && Holds(w, workers[j], x);
      if j != i { assert Holds(w, after[j], x); }
    }
  }

  lemma PendingUpdate(w: Walk, s: State, s': State, i: nat, k: Worker, x: Item)
    requires i < |s.workers| && s'.workers == s.workers[i := k]
    requires x in Queue(s') ==> x in Queue(s) || Holds(w, s.workers[i], x)
    requires x in Queue(s) ==> x in Queue(s') || Holds(w, k, x)
    requires Holds(w, k, x) ==> Holds(w, s.workers[i], x) || x in Queue(s)
    ensures Pending(w, s', x) ==> Pending(w, s, x)
    ensures Holds(w, s.workers[i], x) || Pending(w, s', x) || !Pending(w, s, x)
    ensures Holds(w, s.workers[i], x) && (Holds(w, k, x) || x in Queue(s')) ==> Pending(w, s', x)
  {
    HeldUpdate(w, s.workers, i, k, x);
    if Holds(w, s.workers[i], x) { assert Held(w, s.workers, x); }
  }

  /** The same work is pending as before, in other hands. */
  ghost predicate SamePending(w: Walk, s: State, s': State) {
    forall x :: Pending(w, s', x) <==> Pending(w, s, x)
  }

  lemma CoveredMono(w: Walk, s: State, s': State, e: Cid, d: nat)
    requires SamePending(w, s, s') && s'.seen == s.seen && Covered(w, s, e, d)
    ensures Covered(w, s', e, d)
  {
    if !Settled(w.lim, s.seen, e, d) {
      var n: nat :| (w.lim < 0 || n <= d) && Pending(w, s, Item(e, n));
      assert Pending(w, s', Item(e, n));
    }
  }

  lemma ChildrenMono(w: Walk, s: State, s': State, c: Cid, d: nat)
    requires SamePending(w, s, s') && s'.seen == s.seen && ChildrenCovered(w, s, c, d)
    ensures ChildrenCovered(w, s', c, d)
  {
    forall e | e in Links(w.g, c) ensures Covered(w, s', e, d) { CoveredMono(w, s, s', e, d); }
  }

  /** Steps that only pass work on. */
  lemma PassOn(w: Walk, s: State, s': State)
    requires Inv(w, s) && SamePending(w, s, s') && s'.seen == s.seen && (Lossless(s') ==> Lossless(s))
    requires AtStart(w, s) ==> AtStart(w, s')
    ensures (forall x :: PendingOk(w, s', x)) && Complete(w, s')
  {
    forall x ensures PendingOk(w, s', x) { assert PendingOk(w, s, x); }
    if Lossless(s') {
      if !AtStart(w, s) {
        if w.skipRoot { ChildrenMono(w, s, s', w.root, 1); } else { CoveredMono(w, s, s', w.root, 0); }
      }
      forall c ensures CoveredAt(w, s', c) {
        assert CoveredAt(w, s, c);
        if c in s.seen { ChildrenMono(w, s, s', c, s.seen[c] + 1); }
      }
    }
  }

  /** A worker that is past its visit is not at the start of the walk. */
  lemma NotAtStart(w: Walk, s: State, i: nat)
    requires Inv(w, s) && i < |s.workers| && !s.workers[i].Idle? && !s.workers[i].Got?
    ensures !AtStart(w, s)
  {
    if AtStart(w, s) {
      OnlyWorker(s.workers, i);
    }
  }

  /** If only one worker is busy, it is the one we see. */
  lemma OnlyWorker(workers: seq<Worker>, i: nat)
    requires i < |workers| && !workers[i].Idle? && Busy(workers) <= 1
    ensures Busy(workers) == 1 && forall j :: 0 <= j < |workers| && j != i ==> workers[j].Idle?
  {
    BusyUpdate(workers, i, Idle);
    BusyZero(workers[i := Idle]);
    forall j | 0 <= j < |workers| && j != i ensures workers[j].Idle? { assert workers[i := Idle][j] == workers[j]; }
  }

  lemma FetchedKept(w: Walk, s: State, s': State, i: nat, k: Worker)
    requires Inv(w, s) && i < |s.workers| && s'.workers == s.workers[i := k] && s'.seen == s.seen
    requires forall c :: AtIt(s.workers[i], c) ==> c in w.g || AtIt(k, c)
    ensures forall c :: FetchedAt(w, s', c)
  {
    forall c ensures FetchedAt(w, s', c) {
      assert FetchedAt(w, s, c);
      if c in s.seen && c !in w.g {
        var j :| 0 <= j < |s.workers| && AtIt(s.workers[j], c);
        assert s'.workers[j] == if j == i then k else s.workers[j];
        assert AtIt(s'.workers[j], c);
      }
    }
  }

  lemma FeedKeeps(w: Walk, s: State, i: nat)
    requires Inv(w, s) && Enabled(w, s, Feed(i))
    ensures Inv(w, Apply(w, s, Feed(i)))
  {
    var s' := Apply(w, s, Feed(i));
    var it := s.next.value;
    BusyUpdate(s.workers, i, Got(it));
    assert Queue(s) == [it] + Queue(s');
    forall x ensures Pending(w, s', x) <==> Pending(w, s, x) { PendingUpdate(w, s, s', i, Got(it), x); }
    LosslessKept(s, s', i, Got(it));
    PassOn(w, s, s');
    FetchedKept(w, s, s', i, Got(it));
  }

  lemma FetchKeeps(w: Walk, s: State, i: nat)
    requires Inv(w, s) && Enabled(w, s, Fetch(i, false))
    ensures Inv(w, Apply(w, s, Fetch(i, false)))
  {
    var s' := Apply(w, s, Fetch(i, false));
    var it := s.workers[i].item;
    var k := Sending(w.g[it.cid], it.depth + 1);
    BusyUpdate(s.workers, i, k);
    NotAtStart(w, s, i);
    forall x ensures Pending(w, s', x) <==> Pending(w, s, x) { PendingUpdate(w, s, s', i, k, x); }
    LosslessKept(s, s', i, k);
    PassOn(w, s, s');
    FetchedKept(w, s, s', i, k);
  }

  lemma LosslessKept(s: State, s': State, i: nat, k: Worker)
    requires i < |s.workers| && s'.workers == s.workers[i := k] && !s.workers[i].Failing?
    ensures Lossless(s') ==> Lossless(s)
  {
    forall j | 0 <= j < |s.workers| && Lossless(s') ensures !s.workers[j].Failing? {
      if j != i { assert s'.workers[j] == s.workers[j]; }
    }
  }

  lemma OutKeeps(w: Walk, s: State, i: nat)
    requires Inv(w, s) && Enabled(w, s, Out(i))
    ensures Inv(w, Apply(w, s, Out(i)))
  {
    var s' := Apply(w, s, Out(i));
    var Sending(links, depth) := s.workers[i];
    EnqueueAppends(s.next, s.todo, links, depth);
    assert Queue(s') == Queue(s) + Items(links, depth);
    BusyUpdate(s.workers, i, Finishing);
    NotAtStart(w, s, i);
    forall x ensures Pending(w, s', x) <==> Pending(w, s, x) {
      ItemsMember(links, depth, x);
      PendingUpdate(w, s, s', i, Finishing, x);
    }
    LosslessKept(s, s', i, Finishing);
    PassOn(w, s, s');
    FetchedKept(w, s, s', i, Finishing);
  }

  lemma DoneKeeps(w: Walk, s: State, i: nat)
    requires Inv(w, s) && Enabled(w, s, Done(i))
    ensures Inv(w, Apply(w, s, Done(i)))
  {
    var s' := Apply(w, s, Done(i));
    BusyUpdate(s.workers, i, Idle);
    NotAtStart(w, s, i);
    forall x ensures Pending(w, s', x) <==> Pending(w, s, x) { PendingUpdate(w, s, s', i, Idle, x); }
    LosslessKept(s, s', i, Idle);
    PassOn(w, s, s');
    FetchedKept(w, s, s', i, Idle);
  }

  // ---------- the visit ----------

  /** The worker that has taken up the root has all the work there is. */
  lemma TakesRoot(w: Walk, s: State, i: nat, x: Item)
    requires Inv(w, s) && i < |s.workers| && s.workers[i].Got? && AtStart(w, s)
    ensures Pending(w, s, x) ==> x == s.workers[i].item
    ensures s.workers[i].item == Item(w.root, 0)
  {
    OnlyWorker(s.workers, i);
  }

  /** What is pending after worker `i` went from its item to `k`. */
  lemma PendingAfterVisit(w: Walk, s: State, s': State, i: nat, k: Worker, x: Item)
    requires Inv(w, s) && i < |s.workers| && s.workers[i].Got?
    requires s'.workers == s.workers[i := k] && Queue(s') == Queue(s)
    ensures Pending(w, s', x) ==> Holds(w, k, x) || (Pending(w, s, x) && !AtStart(w, s))
    ensures Holds(w, k, x) ==> Pending(w, s', x)
    ensures Pending(w, s, x) && x != s.workers[i].item ==> Pending(w, s', x)
    ensures Pending(w, s, s.workers[i].item)
  {
    HeldUpdate(w, s.workers, i, k, x);
    assert Holds(w, s.workers[i], s.workers[i].item);
    if AtStart(w, s) && Pending(w, s', x) && !Holds(w, k, x) {
      OnlyWorker(s.workers, i);
    }
  }

  /** The new state's pending work is sound: the links of a visited node lie one deeper. */
  lemma PendingOkAfterVisit(w: Walk, s: State, s': State, i: nat, k: Worker, x: Item)
    requires Inv(w, s) && i < |s.workers| && s.workers[i].Got?
    requires s'.workers == s.workers[i := k] && Queue(s') == Queue(s)
    requires k == Fetching(s.workers[i].item) || k == Finishing
    ensures PendingOk(w, s', x)
    ensures Pending(w, s', x) ==> x.depth > 0
    ensures !AtStart(w, s')
  {
    PendingAfterVisit(w, s, s', i, k, x);
    PendingAfterVisit(w, s, s', i, k, Item(w.root, 0));
    var it := s.workers[i].item;
    assert PendingOk(w, s, it);
    assert PendingOk(w, s, x);
    assert PendingOk(w, s, Item(w.root, 0));
    if k.Fetching? && Holds(w, k, x) { assert Path(w, it.cid, x.depth - 1); }
  }

  /** Settling the item that was taken up keeps everything covered that was covered. */
  lemma CoveredAfterVisit(w: Walk, s: State, s': State, it: Item, e: Cid, d: nat)
    requires Covered(w, s, e, d)
    requires forall x :: Pending(w, s, x) && x != it ==> Pending(w, s', x)
    requires forall x, n: nat :: Beats(w.lim, s.seen, x, n) ==> Beats(w.lim, s'.seen, x, n)
    requires Settled(w.lim, s'.seen, it.cid, it.depth)
    ensures Covered(w, s', e, d)
  {
    if !Settled(w.lim, s.seen, e, d) {
      var n: nat :| (w.lim < 0 || n <= d) && Pending(w, s, Item(e, n));
      if Item(e, n) == it {
        assert Settled(w.lim, s'.seen, e, n);
      } else {
        assert Pending(w, s', Item(e, n));
      }
    }
  }

  ghost predicate Advances(w: Walk, s: State, s': State, it: Item) {
    && (forall x :: Pending(w, s, x) && x != it ==> Pending(w, s', x))
    && (forall x, n: nat :: Beats(w.lim, s.seen, x, n) ==> Beats(w.lim, s'.seen, x, n))
    && Settled(w.lim, s'.seen, it.cid, it.depth)
  }

  lemma ChildrenAfterVisit(w: Walk, s: State, s': State, it: Item, c: Cid, d: nat)
    requires ChildrenCovered(w, s, c, d) && Advances(w, s, s', it)
    ensures ChildrenCovered(w, s', c, d)
  {
    forall e | e in Links(w.g, c) ensures Covered(w, s', e, d) { CoveredAfterVisit(w, s, s', it, e, d); }
  }

  lemma HeldChildrenCovered(w: Walk, s: State, i: nat, it: Item)
    requires i < |s.workers| && s.workers[i] == Fetching(it)
    ensures ChildrenCovered(w, s, it.cid, it.depth + 1)
  {
    forall e | e in Links(w.g, it.cid) ensures Covered(w, s, e, it.depth + 1) {
      assert Holds(w, s.workers[i], Item(e, it.depth + 1));
      assert Pending(w, s, Item(e, it.depth + 1));
    }
  }

  lemma CompleteAfterVisit(w: Walk, s: State, s': State, i: nat, k: Worker)
    requires Inv(w, s) && i < |s.workers| && s.workers[i].Got?
    requires s'.workers == s.workers[i := k] && Queue(s') == Queue(s)
    requires var it := s.workers[i].item;
             && !(w.skipRoot && it.depth == 0)
             && (s'.seen, k.Fetching?) == Visit(w.lim, s.seen, it.cid, it.depth)
             && (k == Fetching(it) || k == Finishing)
    ensures Complete(w, s')
  {
    var it := s.workers[i].item;
    VisitMeaning(w.lim, s.seen, it.cid, it.depth);
    LosslessKept(s, s', i, k);
    if Lossless(s') {
      forall x | Pending(w, s, x) && x != it ensures Pending(w, s', x) { PendingAfterVisit(w, s, s', i, k, x); }
      assert Advances(w, s, s', it);
      if AtStart(w, s) {
        TakesRoot(w, s, i, it);
      } else if w.skipRoot {
        ChildrenAfterVisit(w, s, s', it, w.root, 1);
      } else {
        CoveredAfterVisit(w, s, s', it, w.root, 0);
      }
      forall c ensures CoveredAt(w, s', c) {
        if k.Fetching? && c == it.cid {
          HeldChildrenCovered(w, s', i, it);
        } else {
          assert CoveredAt(w, s, c);
          if c in s.seen { ChildrenAfterVisit(w, s, s', it, c, s.seen[c] + 1); }
        }
      }
    }
  }

  lemma VisitsAfterVisit(w: Walk, s: State, it: Item)
    requires VisitsOk(w, s) && !Settled(w.lim, s.seen, it.cid, it.depth)
    ensures VisitsOk(w, s.(seen := s.seen[it.cid := it.depth], visits := s.visits + [it]))
  {
    var s' := s.(seen := s.seen[it.cid := it.depth], visits := s.visits + [it]);
    forall c | c in s'.seen ensures Item(c, s'.seen[c]) in s'.visits {
      if c == it.cid {
        assert s'.visits[|s.visits|] == Item(c, s'.seen[c]);
      } else {
        assert Item(c, s.seen[c]) in s.visits;
      }
    }
  }

  lemma FetchedAfterVisit(w: Walk, s: State, s': State, i: nat, it: Item)
    requires Inv(w, s) && i < |s.workers| && s.workers[i] == Got(it) && s'.workers == s.workers[i := Fetching(it)]
    requires s'.seen.Keys <= s.seen.Keys + {it.cid}
    ensures forall c :: FetchedAt(w, s', c)
  {
    forall c ensures FetchedAt(w, s', c) {
      assert FetchedAt(w, s, c);
      if c in s'.seen && c !in w.g {
        if c == it.cid {
          assert AtIt(s'.workers[i], c);
        } else {
          var j :| 0 <= j < |s.workers| && AtIt(s.workers[j], c);
          assert AtIt(s'.workers[j], c);
        }
      }
    }
  }

  lemma SkipRootKeeps(w: Walk, s: State, i: nat)
    requires Inv(w, s) && Enabled(w, s, Visiting(i)) && w.skipRoot && s.workers[i].item.depth == 0
    ensures Inv(w, Apply(w, s, Visiting(i)))
  {
    var it := s.workers[i].item;
    var s' := Set(s, i, Fetching(it));
    BusyUpdate(s.workers, i, Fetching(it));
    PendingAfterVisit(w, s, s', i, Fetching(it), it);
    assert PendingOk(w, s, it);
    forall x ensures PendingOk(w, s', x) { PendingOkAfterVisit(w, s, s', i, Fetching(it), x); }
    TakesRoot(w, s, i, it);
    HeldChildrenCovered(w, s', i, it);
    FetchedAfterVisit(w, s, s', i, it);
  }

  lemma SettledVisitKeeps(w: Walk, s: State, i: nat)
    requires Inv(w, s) && Enabled(w, s, Visiting(i))
    requires !(w.skipRoot && s.workers[i].item.depth == 0)
    requires Settled(w.lim, s.seen, s.workers[i].item.cid, s.workers[i].item.depth)
    ensures Inv(w, Apply(w, s, Visiting(i)))
  {
    var it := s.workers[i].item;
    var s' := Set(s, i, Finishing);
    BusyUpdate(s.workers, i, Finishing);
    VisitMeaning(w.lim, s.seen, it.cid, it.depth);
    forall x ensures PendingOk(w, s', x) { PendingOkAfterVisit(w, s, s', i, Finishing, x); }
    CompleteAfterVisit(w, s, s', i, Finishing);
    FetchedKept(w, s, s', i, Finishing);
  }

  lemma NewVisitKeeps(w: Walk, s: State, i: nat)
    requires Inv(w, s) && Enabled(w, s, Visiting(i))
    requires !(w.skipRoot && s.workers[i].item.depth == 0)
    requires !Settled(w.lim, s.seen, s.workers[i].item.cid, s.workers[i].item.depth)
    ensures Inv(w, Apply(w, s, Visiting(i)))
  {
    var it := s.workers[i].item;
    VisitMeaning(w.lim, s.seen, it.cid, it.depth);
    var s' := Set(s, i, Fetching(it)).(seen := s.seen[it.cid := it.depth], visits := s.visits + [it]);
    BusyUpdate(s.workers, i, Fetching(it));
    PendingAfterVisit(w, s, s', i, Fetching(it), it);
    assert PendingOk(w, s, it);
    forall x ensures PendingOk(w, s', x) { PendingOkAfterVisit(w, s, s', i, Fetching(it), x); }
    CompleteAfterVisit(w, s, s', i, Fetching(it));
    VisitsAfterVisit(w, s, it);
    FetchedAfterVisit(w, s, s', i, it);
    forall c ensures SoundAt(w, s'.seen, c) { assert SoundAt(w, s.seen, c); }
  }

  /** A failed fetch or the end of the walk by error loses work, but no step claims it. */
  lemma FailureKeeps(w: Walk, s: State, step: Step)
    requires Inv(w, s) && Enabled(w, s, step) && (step.Cancel? || step.Err? || (step.Fetch? && step.fails))
    ensures Inv(w, Apply(w, s, step))
  {
    var s' := Apply(w, s, step);
    if step.Fetch? {
      var i := step.i;
      BusyUpdate(s.workers, i, Failing);
      NotAtStart(w, s, i);
      assert s'.workers[i].Failing?;
      forall x ensures PendingOk(w, s', x) {
        HeldUpdate(w, s.workers, i, Failing, x);
        assert PendingOk(w, s, x);
      }
      FetchedKept(w, s, s', i, Failing);
    } else {
      PassOn(w, s, s');
      forall c ensures FetchedAt(w, s', c) { assert FetchedAt(w, s, c); }
    }
  }

  lemma StepKeeps(w: Walk, s: State, step: Step)
    requires Inv(w, s) && Enabled(w, s, step)
    ensures Inv(w, Apply(w, s, step))
  {
    match step
    case Feed(i) => FeedKeeps(w, s, i);
    case Visiting(i) =>
      var it := s.workers[i].item;
      if w.skipRoot && it.depth == 0 {
        SkipRootKeeps(w, s, i);
      } else if Settled(w.lim, s.seen, it.cid, it.depth) {
        SettledVisitKeeps(w, s, i);
      } else {
        NewVisitKeeps(w, s, i);
      }
    case Fetch(i, fails) => if fails { FailureKeeps(w, s, step); } else { FetchKeeps(w, s, i); }
    case Out(i) => OutKeeps(w, s, i);
    case Done(i) => DoneKeeps(w, s, i);
    case _ => FailureKeeps(w, s, step);
  }

  lemma StartInv(w: Walk, concurrency: nat)
    ensures Inv(w, Start(w, concurrency))
  {
    var s := Start(w, concurrency);
    BusyZero(s.workers);
    assert Item(w.root, 0) in Queue(s);
    forall x ensures PendingOk(w, s, x) { }
  }

  ghost predicate Run(w: Walk, s: State, steps: seq<Step>, s': State)
    decreases |steps|
  {
    if steps == [] then s' == s
    else Enabled(w, s, steps[0]) && Run(w, Apply(w, s, steps[0]), steps[1..], s')
  }

  lemma {:induction false} RunKeeps(w: Walk, s: State, steps: seq<Step>, s': State)
    requires Inv(w, s) && Run(w, s, steps, s')
    ensures Inv(w, s') && |s'.workers| == |s.workers|
    decreases |steps|
  {
    if steps != [] {
      StepKeeps(w, s, steps[0]);
      RunKeeps(w, Apply(w, s, steps[0]), steps[1..], s');
    }
  }

  // ---------- the promises ----------

  lemma ReturnedMeansSettled(w: Walk, s: State)
    requires Inv(w, s) && s.result == Ok
    ensures RootSettled(w, s.seen) && forall c :: ClosedAt(w, s.seen, c)
    ensures s.seen.Keys <= w.g.Keys
  {
    BusyZero(s.workers);
    forall x ensures !Pending(w, s, x) { }
    forall e, d: nat | Covered(w, s, e, d) ensures Settled(w.lim, s.seen, e, d) { }
    forall c ensures ClosedAt(w, s.seen, c) { assert CoveredAt(w, s, c); }
    forall c | c in s.seen ensures c in w.g { assert FetchedAt(w, s, c); }
  }

  /** When the walk returns without an error, whatever the interleaving: the map is exact,
      every recorded node was fetched, and the visits that said yes were, without a limit,
      one per node. */
  lemma ReturnedWalkIsExact(w: Walk, concurrency: nat, steps: seq<Step>, s: State)
    requires Run(w, Start(w, concurrency), steps, s) && s.result == Ok
    ensures Exact(w, s.seen)
    ensures s.seen.Keys <= w.g.Keys
    ensures forall c :: c in s.seen <==> exists i :: 0 <= i < |s.visits| && s.visits[i].cid == c
    ensures w.lim < 0 ==> forall i, j :: 0 <= i < j < |s.visits| ==> s.visits[i].cid != s.visits[j].cid
  {
    StartInv(w, concurrency);
    RunKeeps(w, Start(w, concurrency), steps, s);
    ReturnedMeansSettled(w, s);
    SettledIsExact(w, s.seen);
    forall c | c in s.seen ensures exists i :: 0 <= i < |s.visits| && s.visits[i].cid == c {
      assert Item(c, s.seen[c]) in s.visits;
    }
  }

  /** The walk is never stuck: while it runs, some worker or the main loop can move, without
      any help from a failure. */
  lemma NeverStuck(w: Walk, concurrency: nat, steps: seq<Step>, s: State)
    requires concurrency > 0 && Run(w, Start(w, concurrency), steps, s) && s.result == Running
    ensures exists step :: Enabled(w, s, step) && !step.Cancel? && (step.Fetch? && step.fails ==> s.workers[step.i].item.cid !in w.g)
  {
    StartInv(w, concurrency);
    RunKeeps(w, Start(w, concurrency), steps, s);
    if s.inProgress > 0 {
      BusyZero(s.workers);
      var i: nat :| i < |s.workers| && !s.workers[i].Idle?;
      var step := match s.workers[i]
        case Got(_) => Visiting(i)
        case Fetching(it) => Fetch(i, it.cid !in w.g)
        case Sending(_, _) => Out(i)
        case Finishing => Done(i)
        case _ => Err(i);
      assert Enabled(w, s, step);
    } else {
      BusyZero(s.workers);
      assert Enabled(w, s, Feed(0));
    }
  }

  // ---------- termination ----------

  ghost function Weight(w: Walk, k: Worker): nat {
    match k
    case Idle => 0
    case Got(_) => 3
    case Fetching(it) => 3 + 4 * |Links(w.g, it.cid)|
    case Sending(links, _) => 2 + 4 * |links|
    case Finishing => 1
    case Failing => 1
  }

  ghost function Weights(w: Walk, workers: seq<Worker>): nat {
    if workers == [] then 0 else Weight(w, workers[0]) + Weights(w, workers[1..])
  }

  lemma {:induction false} WeightsUpdate(w: Walk, workers: seq<Worker>, i: nat, k: Worker)
    requires i < |workers|
    ensures Weights(w, workers[i := k]) == Weights(w, workers) - Weight(w, workers[i]) + Weight(w, k)
  {
    if i > 0 {
      WeightsUpdate(w, workers[1..], i - 1, k);
      assert workers[i := k][1..] == workers[1..][i - 1 := k];
    } else {
      assert workers[i := k][1..] == workers[1..];
    }
  }

  /** How many visits could still be recorded, counting the untouched root once more. */
  ghost function Outer(w: Walk, s: State): nat {
    |Open(w, s.seen)| + if Pending(w, s, Item(w.root, 0)) then 1 else 0
  }

  ghost function Inner(w: Walk, s: State): nat {
    4 * |Queue(s)| + Weights(w, s.workers) + if s.result == Running then 1 else 0
  }

  ghost predicate Less(a: (nat, nat), b: (nat, nat)) {
    a.0 < b.0 || (a.0 == b.0 && a.1 < b.1)
  }

  ghost function Measure(w: Walk, s: State): (nat, nat) {
    (Outer(w, s), Inner(w, s))
  }

  /** After a visit the root is no longer waiting. */
  lemma RootGone(w: Walk, s: State, s': State, i: nat, k: Worker)
    requires Inv(w, s) && i < |s.workers| && s.workers[i].Got?
    requires s'.workers == s.workers[i := k] && Queue(s') == Queue(s)
    requires k == Fetching(s.workers[i].item) || k == Finishing
    ensures !Pending(w, s', Item(w.root, 0))
  {
    PendingOkAfterVisit(w, s, s', i, k, Item(w.root, 0));
  }

  lemma VisitDecreases(w: Walk, s: State, i: nat)
    requires Inv(w, s) && Enabled(w, s, Visiting(i))
    ensures Less(Measure(w, Apply(w, s, Visiting(i))), Measure(w, s))
  {
    var it := s.workers[i].item;
    var s' := Apply(w, s, Visiting(i));
    var k := s'.workers[i];
    assert s'.workers == s.workers[i := k];
    assert Holds(w, s.workers[i], it);
    assert PendingOk(w, s, it);
    RootGone(w, s, s', i, k);
    WeightsUpdate(w, s.workers, i, k);
    VisitShrinksOpen(w, s.seen, it.cid, it.depth);
    if !(w.skipRoot && it.depth == 0) && k.Fetching? {
      StrictSubsetCard(Open(w, s'.seen), Open(w, s.seen));
    }
  }

  /** The steps that hand work over: nothing new becomes pending. */
  lemma HandOverDecreases(w: Walk, s: State, s': State, i: nat, k: Worker)
    requires Inv(w, s) && i < |s.workers| && s'.workers == s.workers[i := k] && s'.seen == s.seen
    requires Item(w.root, 0) in Queue(s') ==> Pending(w, s, Item(w.root, 0))
    requires Holds(w, k, Item(w.root, 0)) ==> Pending(w, s, Item(w.root, 0))
    requires s.result == Running
    requires 4 * |Queue(s')| + Weight(w, k) < 4 * |Queue(s)| + Weight(w, s.workers[i])
    ensures Less(Measure(w, s'), Measure(w, s))
  {
    WeightsUpdate(w, s.workers, i, k);
    HeldUpdate(w, s.workers, i, k, Item(w.root, 0));
  }

  lemma StepDecreases(w: Walk, s: State, step: Step)
    requires Inv(w, s) && Enabled(w, s, step)
    ensures Less(Measure(w, Apply(w, s, step)), Measure(w, s))
  {
    var s' := Apply(w, s, step);
    match step
    case Visiting(i) => VisitDecreases(w, s, i);
    case Feed(i) =>
      assert Queue(s) == [s.next.value] + Queue(s');
      HandOverDecreases(w, s, s', i, Got(s.next.value));
    case Fetch(i, fails) => HandOverDecreases(w, s, s', i, s'.workers[i]);
    case Out(i) =>
      var Sending(links, depth) := s.workers[i];
      EnqueueAppends(s.next, s.todo, links, depth);
      ItemsMember(links, depth, Item(w.root, 0));
      assert WorkerOk(w, s, s.workers[i]);
      HandOverDecreases(w, s, s', i, Finishing);
    case Done(i) => HandOverDecreases(w, s, s', i, Idle);
    case _ =>
  }

  /** No step leads from `s` to `s'`. */
  ghost predicate NoStep(w: Walk, s: State, s': State) {
    forall step :: Enabled(w, s, step) ==> s' != Apply(w, s, step)
  }

  lemma StepFrom(w: Walk, s: State, s': State)
    requires Inv(w, s) && !NoStep(w, s, s')
    ensures Inv(w, s') && Less(Measure(w, s'), Measure(w, s))
  {
    var step :| Enabled(w, s, step) && s' == Apply(w, s, step);
    StepKeeps(w, s, step);
    StepDecreases(w, s, step);
  }

  /** The sequence of states does not go on at place `k`. */
  ghost predicate StopsAt(w: Walk, run: nat -> State, k: nat) {
    NoStep(w, run(k), run(k + 1))
  }

  lemma {:induction false} Endless(w: Walk, run: nat -> State, k: nat)
    requires Inv(w, run(0)) && forall i: nat :: !StopsAt(w, run, i)
    ensures Inv(w, run(k))
  {
    if k > 0 {
      Endless(w, run, k - 1);
      assert !StopsAt(w, run, k - 1);
      StepFrom(w, run(k - 1), run(k));
    }
  }

  ghost predicate DescendsAt(m: nat -> (nat, nat), j: nat) {
    Less(m(j + 1), m(j))
  }

  /** No sequence of pairs of naturals descends for ever. */
  lemma {:induction false} NoEndlessDescent(m: nat -> (nat, nat), i: nat, outer: nat, inner: nat)
    requires m(i) == (outer, inner) && forall j: nat :: DescendsAt(m, j)
    ensures false
    decreases outer, inner
  {
    assert DescendsAt(m, i);
    NoEndlessDescent(m, i + 1, m(i + 1).0, m(i + 1).1);
  }

  /** There is no endless walk: every infinite sequence of states that begins with a started
      walk contains a place where no step leads from one state to the next. */
  lemma EveryWalkStops(w: Walk, concurrency: nat, run: nat -> State)
    requires run(0) == Start(w, concurrency)
    ensures exists k: nat :: StopsAt(w, run, k)
  {
    if forall k: nat :: !StopsAt(w, run, k) {
      StartInv(w, concurrency);
      var m: nat -> (nat, nat) := k => Measure(w, run(k));
      forall j: nat ensures DescendsAt(m, j) {
        Endless(w, run, j);
        assert !StopsAt(w, run, j);
        StepFrom(w, run(j), run(j + 1));
      }
      NoEndlessDescent(m, 0, m(0).0, m(0).1);
    }
  }
}
