/**
 How the worker-pool walk ends.  Without a cancellation and without fetches that fail although
 the node is stored, it returns success if every node it needs is stored, and an error if not,
 in every interleaving.
 */
module DagWalkEnds {
  import opened Options
  import opened DagGraph
  import opened DagParallelWalk

  predicate Fault(step: Step) {
    step.Cancel? || (step.Fetch? && step.fails)
  }

  lemma StepWithoutFault(w: Walk, s: State, step: Step)
    requires Enabled(w, s, step) && Lossless(s) && !Fault(step)
    ensures Lossless(Apply(w, s, step)) && Apply(w, s, step).result != Failed
  {
  }

  lemma {:induction false} RunWithoutFault(w: Walk, s: State, steps: seq<Step>, s': State)
    requires Run(w, s, steps, s') && Lossless(s) && s.result != Failed && forall k :: 0 <= k < |steps| ==> !Fault(steps[k])
    ensures Lossless(s') && s'.result != Failed
    decreases |steps|
  {
    if steps != [] {
      StepWithoutFault(w, s, steps[0]);
      RunWithoutFault(w, Apply(w, s, steps[0]), steps[1..], s');
    }
  }

  /** A walk fails only if it was cancelled or a fetch failed. */
  lemma FailureHasACause(w: Walk, concurrency: nat, steps: seq<Step>, s: State)
    requires Run(w, Start(w, concurrency), steps, s) && s.result == Failed
    ensures exists k :: 0 <= k < |steps| && Fault(steps[k])
  {
    if forall k :: 0 <= k < |steps| ==> !Fault(steps[k]) { RunWithoutFault(w, Start(w, concurrency), steps, s); }
  }

  // ---------- success means that everything was there ----------

  ghost predicate HasRoot(w: Walk, k: Worker) {
    k.Failing? || ((k.Got? || k.Fetching?) && k.item == Item(w.root, 0))
  }

  /** The root that is skipped is stored, or is still to be fetched, or failed to be. */
  ghost predicate RootOk(w: Walk, s: State) {
    w.root in w.g || Item(w.root, 0) in Queue(s) || exists i :: 0 <= i < |s.workers| && HasRoot(w, s.workers[i])
  }

  lemma WorkerKeepsRoot(w: Walk, s: State, s': State, i: nat, k: Worker)
    requires RootOk(w, s) && i < |s.workers| && s'.workers == s.workers[i := k]
    requires Item(w.root, 0) in Queue(s) ==> Item(w.root, 0) in Queue(s') || HasRoot(w, k)
    requires HasRoot(w, s.workers[i]) ==> w.root in w.g || HasRoot(w, k)
    ensures RootOk(w, s')
  {
    if w.root !in w.g {
      if Item(w.root, 0) in Queue(s) {
        if HasRoot(w, k) { assert HasRoot(w, s'.workers[i]); }
      } else {
        var j :| 0 <= j < |s.workers| && HasRoot(w, s.workers[j]);
        assert HasRoot(w, s'.workers[j]);
      }
    }
  }

  lemma StepKeepsRoot(w: Walk, s: State, step: Step)
    requires Inv(w, s) && RootOk(w, s) && w.skipRoot && Enabled(w, s, step)
    ensures RootOk(w, Apply(w, s, step))
  {
    var s' := Apply(w, s, step);
    match step
    case Feed(i) =>
      assert Queue(s) == [s.next.value] + Queue(s');
      WorkerKeepsRoot(w, s, s', i, Got(s.next.value));
    case Out(i) =>
      EnqueueAppends(s.next, s.todo, s.workers[i].links, s.workers[i].depth);
      WorkerKeepsRoot(w, s, s', i, Finishing);
    case Visiting(i) => WorkerKeepsRoot(w, s, s', i, s'.workers[i]);
    case Fetch(i, _) => WorkerKeepsRoot(w, s, s', i, s'.workers[i]);
    case Done(i) => WorkerKeepsRoot(w, s, s', i, Idle);
    case _ =>
  }

  lemma {:induction false} RunKeepsRoot(w: Walk, s: State, steps: seq<Step>, s': State)
    requires Inv(w, s) && RootOk(w, s) && w.skipRoot && Run(w, s, steps, s')
    ensures Inv(w, s') && RootOk(w, s')
    decreases |steps|
  {
    if steps != [] {
      StepKeepsRoot(w, s, steps[0]);
      StepKeeps(w, s, steps[0]);
      RunKeepsRoot(w, Apply(w, s, steps[0]), steps[1..], s');
    }
  }

  lemma RootIsFetched(w: Walk, concurrency: nat, steps: seq<Step>, s: State)
    requires Run(w, Start(w, concurrency), steps, s) && s.result == Ok
    ensures w.root in w.g
  {
    var s0 := Start(w, concurrency);
    StartInv(w, concurrency);
    if w.skipRoot {
      assert Item(w.root, 0) in Queue(s0);
      RunKeepsRoot(w, s0, steps, s);
      BusyZero(s.workers);
    } else {
      ReturnedWalkIsExact(w, concurrency, steps, s);
      assert InRange(w, 0) && Path(w, w.root, 0);
    }
  }

  /** A walk that returns success had every node that it needed. */
  lemma SuccessMeansStored(w: Walk, concurrency: nat, steps: seq<Step>, s: State)
    requires Run(w, Start(w, concurrency), steps, s) && s.result == Ok
    ensures Stored(w)
  {
    RootIsFetched(w, concurrency, steps, s);
    ReturnedWalkIsExact(w, concurrency, steps, s);
    ExactIsStored(w, s.seen);
  }

  // ---------- honest runs ----------

  /** Nobody cancels, and a fetch fails only if the node is missing. */
  ghost predicate Honest(w: Walk, s: State, step: Step)
    requires Enabled(w, s, step)
  {
    !step.Cancel? && (step.Fetch? && step.fails ==> s.workers[step.i].item.cid !in w.g)
  }

  ghost predicate HonestRun(w: Walk, s: State, steps: seq<Step>, s': State)
    decreases |steps|
  {
    if steps == [] then s' == s
    else Enabled(w, s, steps[0]) && Honest(w, s, steps[0]) && HonestRun(w, Apply(w, s, steps[0]), steps[1..], s')
  }

  lemma {:induction false} HonestRunIsRun(w: Walk, s: State, steps: seq<Step>, s': State)
    requires HonestRun(w, s, steps, s')
    ensures Run(w, s, steps, s')
    decreases |steps|
  {
    if steps != [] { HonestRunIsRun(w, Apply(w, s, steps[0]), steps[1..], s'); }
  }

  /** Where everything needed is stored, an honest step is none that fails. */
  lemma HonestStepIsNoFault(w: Walk, s: State, step: Step)
    requires Inv(w, s) && Enabled(w, s, step) && Honest(w, s, step) && Stored(w)
    ensures !Fault(step)
  {
    if step.Fetch? {
      var it := s.workers[step.i].item;
      assert WorkerOk(w, s, s.workers[step.i]);
      assert Needed(w, it.cid);
    }
  }

  lemma {:induction false} HonestRunSucceeds(w: Walk, s: State, steps: seq<Step>, s': State)
    requires Inv(w, s) && HonestRun(w, s, steps, s') && Stored(w) && Lossless(s) && s.result != Failed
    ensures s'.result != Failed
    decreases |steps|
  {
    if steps != [] {
      HonestStepIsNoFault(w, s, steps[0]);
      StepWithoutFault(w, s, steps[0]);
      StepKeeps(w, s, steps[0]);
      HonestRunSucceeds(w, Apply(w, s, steps[0]), steps[1..], s');
    }
  }

  /** An honest walk that is over returned success if and only if every node it needs is stored. */
  lemma HonestWalkSucceedsIff(w: Walk, concurrency: nat, steps: seq<Step>, s: State)
    requires HonestRun(w, Start(w, concurrency), steps, s) && s.result != Running
    ensures s.result == Ok <==> Stored(w)
  {
    HonestRunIsRun(w, Start(w, concurrency), steps, s);
    StartInv(w, concurrency);
    if s.result == Ok { SuccessMeansStored(w, concurrency, steps, s); }
    if Stored(w) { HonestRunSucceeds(w, Start(w, concurrency), steps, s); }
  }

  lemma HonestStep(w: Walk, s: State) returns (step: Step, s1: State)
    requires Inv(w, s) && s.workers != [] && s.result == Running
    ensures Enabled(w, s, step) && Honest(w, s, step) && s1 == Apply(w, s, step)
    ensures Inv(w, s1) && s1.workers != [] && Less(Measure(w, s1), Measure(w, s))
  {
    BusyZero(s.workers);
    if s.inProgress > 0 {
      var i: nat :| i < |s.workers| && !s.workers[i].Idle?;
      step := match s.workers[i]
        case Got(_) => Visiting(i)
        case Fetching(it) => Fetch(i, it.cid !in w.g)
        case Sending(_, _) => Out(i)
        case Finishing => Done(i)
        case _ => Err(i);
    } else {
      step := Feed(0);
    }
    s1 := Apply(w, s, step);
    StepKeeps(w, s, step);
    StepDecreases(w, s, step);
  }

  /** From every state of a run, a walk with a worker can go on honestly until it is over. */
  lemma {:induction false} WalkCanEnd(w: Walk, s: State) returns (steps: seq<Step>, s': State)
    requires Inv(w, s) && s.workers != []
    ensures HonestRun(w, s, steps, s') && s'.result != Running
    decreases Measure(w, s).0, Measure(w, s).1
  {
    if s.result != Running { return [], s; }
    var step, s1 := HonestStep(w, s);
    var rest;
    rest, s' := WalkCanEnd(w, s1);
    steps := [step] + rest;
    assert steps[1..] == rest;
  }

  /** So a started walk with a worker, if everything it needs is stored, can end, and however it
      goes without outside faults, where it ends is success. */
  lemma StoredWalkSucceeds(w: Walk, concurrency: nat) returns (steps: seq<Step>, s: State)
    requires concurrency > 0 && Stored(w)
    ensures HonestRun(w, Start(w, concurrency), steps, s) && s.result == Ok && Exact(w, s.seen)
  {
    StartInv(w, concurrency);
    steps, s := WalkCanEnd(w, Start(w, concurrency));
    HonestWalkSucceedsIff(w, concurrency, steps, s);
    HonestRunIsRun(w, Start(w, concurrency), steps, s);
    ReturnedWalkIsExact(w, concurrency, steps, s);
  }
}
