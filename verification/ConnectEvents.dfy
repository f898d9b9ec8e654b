/**
 The connection event manager (bitswap/network/connecteventmanager.go): peers report state
 changes at any time, a queue coalesces them per peer, and one worker turns them into
 connect/disconnect callbacks, releasing the lock while it calls the listeners.
 */
module ConnectEvents {
  import opened Options

  datatype Peer = Peer(id: nat)

  datatype Status = Disconnected | Responsive | Unresponsive

  datatype PeerState = PeerState(newState: Status, curState: Status, pending: bool)

  datatype Event = Event(peer: Peer, connected: bool)

  /** What the lock protects. */
  datatype Core = Core(peers: map<Peer, PeerState>, queue: seq<Peer>)

  function GetState(c: Core, p: Peer): (s: Status) {
    if p in c.peers then c.peers[p].newState else Disconnected
  }

  /** The state listeners have been told about, or are being told about. */
  function CurState(c: Core, p: Peer): (s: Status) {
    if p in c.peers then c.peers[p].curState else Disconnected
  }

  function SetState(c: Core, p: Peer, st: Status): (r: Core) {
    var ps := (if p in c.peers then c.peers[p] else PeerState(Disconnected, Disconnected, false)).(newState := st);
    if !ps.pending && ps.newState != ps.curState then
      Core(c.peers[p := ps.(pending := true)], c.queue + [p])
    else Core(c.peers[p := ps], c.queue)
  }

  /** The part of the worker's loop that runs under the lock: the change taken from the front
      of the queue, and the event it has to deliver, if any. */
  function TakeChange(c: Core): (r: (Core, Option<Event>))
    requires c.queue != []
  {
    var p := c.queue[0];
    var rest := c.queue[1..];
    if p !in c.peers then (Core(c.peers, rest), None)
    else
      var ps := c.peers[p].(pending := false);
      if ps.curState == ps.newState then (Core(c.peers[p := ps], rest), None)
      else
        var wasResponsive := ps.curState == Responsive;
        match ps.newState
        case Disconnected =>
          (Core(c.peers - {p}, rest), if wasResponsive then Some(Event(p, false)) else None)
        case Unresponsive =>
          (Core(c.peers[p := ps.(curState := Unresponsive)], rest),
           if wasResponsive then Some(Event(p, false)) else None)
        case Responsive =>
          (Core(c.peers[p := ps.(curState := Responsive)], rest), Some(Event(p, true)))
  }

  datatype Call = Connected(p: Peer) | Disconnect(p: Peer) | MarkUnresponsive(p: Peer) | OnMessage(p: Peer)

  /** The locked section of each call. */
  function Handle(c: Core, call: Call): (r: Core) {
    match call
    case Connected(p) => if GetState(c, p) == Responsive then c else SetState(c, p, Responsive)
    case Disconnect(p) => if GetState(c, p) == Disconnected then c else SetState(c, p, Disconnected)
    case MarkUnresponsive(p) => if GetState(c, p) != Responsive then c else SetState(c, p, Unresponsive)
    case OnMessage(p) => if GetState(c, p) != Unresponsive then c else SetState(c, p, Responsive)
  }

  /** The manager object. */
  class ConnectEventManager {
    var peers: map<Peer, PeerState>
    var changeQueue: seq<Peer>

    constructor ()
      ensures Value() == Core(map[], [])
    {
      peers, changeQueue := map[], [];
    }

    function Value(): (c: Core)
      reads this
    {
      Core(peers, changeQueue)
    }

    method Get(p: Peer) returns (s: Status)
      ensures s == GetState(Value(), p)
    {
      if p in peers { s := peers[p].newState; } else { s := Disconnected; }
    }

    method Set(p: Peer, newState: Status)
      modifies this
      ensures Value() == SetState(old(Value()), p, newState)
    {
      if p !in peers {
        peers := peers[p := PeerState(Disconnected, Disconnected, false)];
      }
      peers := peers[p := peers[p].(newState := newState)];
      if !peers[p].pending && peers[p].newState != peers[p].curState {
        peers := peers[p := peers[p].(pending := true)];
        changeQueue := changeQueue + [p];
      }
    }

    method Call(call: Call)
      modifies this
      ensures Value() == Handle(old(Value()), call)
    {
      var s := Get(call.p);
      match call
      case Connected(p) => if s != Responsive { Set(p, Responsive); }
      case Disconnect(p) => if s != Disconnected { Set(p, Disconnected); }
      case MarkUnresponsive(p) => if s == Responsive { Set(p, Unresponsive); }
      case OnMessage(p) => if s == Unresponsive { Set(p, Responsive); }
    }

    /** One turn of the worker, up to the point where it releases the lock or goes on. */
    method Take() returns (event: Option<Event>)
      requires changeQueue != []
      modifies this
      ensures (Value(), event) == TakeChange(old(Value()))
    {
      var pid := changeQueue[0];
      changeQueue := changeQueue[1..];
      if pid !in peers {
        return None;
      }
      peers := peers[pid := peers[pid].(pending := false)];
      var state := peers[pid];
      if state.curState == state.newState {
        return None;
      }
      var oldState := state.curState;
      peers := peers[pid := state.(curState := state.newState)];
      assert peers == old(peers)[pid := state.(curState := state.newState)];
      if state.newState == Responsive {
        return Some(Event(pid, true));
      }
      if state.newState == Disconnected {
        peers := peers - {pid};
        assert peers == old(peers) - {pid};
      }
      if oldState == Responsive {
        return Some(Event(pid, false));
      }
      return None;
    }
  }

  // ---------- the whole system ----------

  datatype Worker = Waiting | Delivering(event: Event, told: nat) | Exited

  /** `logs` is what each listener has been told.  History only: `issued`, all events the
      worker has set out to deliver, and `status`, the plain account of the calls made. */
  datatype Sys = Sys(core: Core, stop: bool, worker: Worker, logs: seq<seq<Event>>,
                     issued: seq<Event>, status: map<Peer, Status>)

  datatype Step = Calling(call: Call) | Stopping | Taking | Telling | Relocking | Exiting

  function Start(listeners: nat): (s: Sys) {
    Sys(Core(map[], []), false, Waiting, seq(listeners, _ => []), [], map[])
  }

  /** The plain meaning of the calls: what each peer's state is, with nothing coalesced,
      queued or forgotten. */
  function StatusOf(status: map<Peer, Status>, p: Peer): (s: Status) {
    if p in status then status[p] else Disconnected
  }

  function Account(status: map<Peer, Status>, call: Call): (r: map<Peer, Status>) {
    var s := StatusOf(status, call.p);
    status[call.p :=
      match call
      case Connected(_) => Responsive
      case Disconnect(_) => Disconnected
      case MarkUnresponsive(_) => if s == Responsive then Unresponsive else s
      case OnMessage(_) => if s == Unresponsive then Responsive else s]
  }

  predicate Enabled(s: Sys, step: Step) {
    match step
    case Calling(_) => true
    case Stopping => true
    case Taking => s.worker.Waiting? && !s.stop && s.core.queue != []
    case Telling => s.worker.Delivering? && s.worker.told < |s.logs|
    case Relocking => s.worker.Delivering? && s.worker.told >= |s.logs|
    case Exiting => s.worker.Waiting? && s.stop
  }

  function Apply(s: Sys, step: Step): (r: Sys)
    requires Enabled(s, step)
  {
    match step
    case Calling(call) => s.(core := Handle(s.core, call), status := Account(s.status, call))
    case Stopping => s.(stop := true)
    case Taking =>
      var (core, event) := TakeChange(s.core);
      if event.None? then s.(core := core)
      else s.(core := core, worker := Delivering(event.value, 0), issued := s.issued + [event.value])
    case Telling =>
      var k := s.worker.told;
      s.(worker := Delivering(s.worker.event, k + 1), logs := s.logs[k := s.logs[k] + [s.worker.event]])
    case Relocking => s.(worker := Waiting)
    case Exiting => s.(worker := Exited)
  }

  // ---------- the invariant ----------

  /** Whether the last event about `p` said it is connected. */
  function Told(log: seq<Event>, p: Peer): (b: bool) {
    if log == [] then false
    else if log[|log| - 1].peer == p then log[|log| - 1].connected
    else Told(log[..|log| - 1], p)
  }

  /** Per peer, the events strictly alternate, starting with a connect. */
  ghost predicate Alternates(log: seq<Event>) {
    forall i :: 0 <= i < |log| ==> log[i].connected != Told(log[..i], log[i].peer)
  }

  ghost predicate QueueOk(c: Core) {
    && (forall i, j :: 0 <= i < j < |c.queue| ==> c.queue[i] != c.queue[j])
    && (forall p :: p in c.queue <==> p in c.peers && c.peers[p].pending)
    && (forall p :: p in c.peers && !c.peers[p].pending ==> c.peers[p].newState == c.peers[p].curState)
  }

  ghost predicate LogsOk(s: Sys) {
    forall j :: 0 <= j < |s.logs| ==>
      s.logs[j] == if s.worker.Delivering? && j >= s.worker.told && s.issued != [] then s.issued[..|s.issued| - 1] else s.issued
  }

  ghost predicate EventsOk(s: Sys) {
    && Alternates(s.issued)
    && (s.worker.Delivering? ==> s.issued != [] && s.issued[|s.issued| - 1] == s.worker.event && s.worker.told <= |s.logs|)
    && (forall p :: Told(s.issued, p) <==> CurState(s.core, p) == Responsive)
  }

  ghost predicate StatusOk(s: Sys) {
    forall p :: GetState(s.core, p) == StatusOf(s.status, p)
  }

  ghost predicate Inv(s: Sys) {
    QueueOk(s.core) && LogsOk(s) && EventsOk(s) && StatusOk(s)
  }

  lemma SetStateOk(c: Core, p: Peer, st: Status)
    requires QueueOk(c)
    ensures QueueOk(SetState(c, p, st))
    ensures GetState(SetState(c, p, st), p) == st
    ensures forall q :: q != p ==> GetState(SetState(c, p, st), q) == GetState(c, q)
    ensures forall q :: CurState(SetState(c, p, st), q) == CurState(c, q)
  {
    var r := SetState(c, p, st);
    forall q ensures q in r.queue <==> q in r.peers && r.peers[q].pending {
      if q != p { assert q in r.queue <==> q in c.queue; }
      if r.queue == c.queue + [p] { assert r.queue[|c.queue|] == p; }
    }
  }

  lemma TakeChangeOk(c: Core)
    requires QueueOk(c) && c.queue != []
    ensures c.queue[0] in c.peers
    ensures var (r, event) := TakeChange(c);
            && QueueOk(r)
            && (forall p :: GetState(r, p) == GetState(c, p))
            && (forall p :: p != c.queue[0] ==> CurState(r, p) == CurState(c, p))
            && CurState(r, c.queue[0]) == GetState(c, c.queue[0])
            && (c.queue[0] in r.peers <==> GetState(c, c.queue[0]) != Disconnected || CurState(c, c.queue[0]) == Disconnected)
            && (event.None? ==> (CurState(r, c.queue[0]) == Responsive <==> CurState(c, c.queue[0]) == Responsive))
            && (event.Some? ==>
                  && event.value.peer == c.queue[0]
                  && (event.value.connected <==> CurState(r, c.queue[0]) == Responsive)
                  && (event.value.connected <==> CurState(c, c.queue[0]) != Responsive))
  {
    var p := c.queue[0];
    var r := TakeChange(c).0;
    assert p in c.queue;
    forall q ensures q in r.queue <==> q in r.peers && r.peers[q].pending {
      assert q in c.queue <==> q == p || q in r.queue;
      assert p !in r.queue;
    }
  }

  lemma ToldAppend(log: seq<Event>, e: Event, p: Peer)
    ensures Told(log + [e], p) == if e.peer == p then e.connected else Told(log, p)
  {
    assert (log + [e])[..|log|] == log;
  }

  lemma AlternatesAppend(log: seq<Event>, e: Event)
    requires Alternates(log) && e.connected != Told(log, e.peer)
    ensures Alternates(log + [e])
  {
    var longer := log + [e];
    forall i | 0 <= i < |longer| ensures longer[i].connected != Told(longer[..i], longer[i].peer) {
      assert longer[..i] == log[..i];
      assert i == |log| ==> log[..i] == log;
    }
  }

  lemma AlternatesPrefix(log: seq<Event>, n: nat)
    requires Alternates(log) && n <= |log|
    ensures Alternates(log[..n])
  {
    forall i | 0 <= i < n ensures log[..n][i].connected != Told(log[..n][..i], log[..n][i].peer) {
      assert log[..n][..i] == log[..i];
    }
  }

  /** A call changes what the manager answers exactly as the plain account says, and nothing
      of what the listeners have been told; a call that changes nothing there changes nothing at
      all, so that no peer is tracked for it. */
  lemma HandleOk(c: Core, status: map<Peer, Status>, call: Call)
    requires QueueOk(c) && forall p :: GetState(c, p) == StatusOf(status, p)
    ensures QueueOk(Handle(c, call))
    ensures forall p :: GetState(Handle(c, call), p) == StatusOf(Account(status, call), p)
    ensures forall p :: CurState(Handle(c, call), p) == CurState(c, p)
    ensures StatusOf(Account(status, call), call.p) == GetState(c, call.p) ==> Handle(c, call) == c
  {
    SetStateOk(c, call.p, StatusOf(Account(status, call), call.p));
  }

  lemma CallKeeps(s: Sys, call: Call)
    requires Inv(s)
    ensures Inv(Apply(s, Calling(call)))
  {
    HandleOk(s.core, s.status, call);
  }

  /** Issuing the event that a state change calls for keeps the event history right. */
  lemma IssueOk(issued: seq<Event>, c: Core, r: Core, e: Event)
    requires Alternates(issued) && forall p :: Told(issued, p) <==> CurState(c, p) == Responsive
    requires forall p :: p != e.peer ==> CurState(r, p) == CurState(c, p)
    requires e.connected <==> CurState(r, e.peer) == Responsive
    requires e.connected <==> CurState(c, e.peer) != Responsive
    ensures Alternates(issued + [e]) && forall p :: Told(issued + [e], p) <==> CurState(r, p) == Responsive
  {
    AlternatesAppend(issued, e);
    forall p ensures Told(issued + [e], p) <==> CurState(r, p) == Responsive { ToldAppend(issued, e, p); }
  }

  lemma TakeKeeps(s: Sys)
    requires Inv(s) && Enabled(s, Taking)
    ensures Inv(Apply(s, Taking))
  {
    TakeChangeOk(s.core);
    var (core, event) := TakeChange(s.core);
    if event.Some? {
      IssueOk(s.issued, s.core, core, event.value);
      assert (s.issued + [event.value])[..|s.issued|] == s.issued;
    }
  }

  lemma TellKeeps(s: Sys)
    requires Inv(s) && Enabled(s, Telling)
    ensures Inv(Apply(s, Telling))
  {
    assert s.issued[..|s.issued| - 1] + [s.worker.event] == s.issued;
  }

  lemma StepKeeps(s: Sys, step: Step)
    requires Inv(s) && Enabled(s, step)
    ensures Inv(Apply(s, step)) && |Apply(s, step).logs| == |s.logs|
  {
    match step
    case Calling(call) => CallKeeps(s, call);
    case Taking => TakeKeeps(s);
    case Telling => TellKeeps(s);
    case _ =>
  }

  ghost predicate Run(s: Sys, steps: seq<Step>, s': Sys)
    decreases |steps|
  {
    if steps == [] then s' == s
    else Enabled(s, steps[0]) && Run(Apply(s, steps[0]), steps[1..], s')
  }

  lemma {:induction false} RunKeeps(s: Sys, steps: seq<Step>, s': Sys)
    requires Inv(s) && Run(s, steps, s')
    ensures Inv(s') && |s'.logs| == |s.logs|
    decreases |steps|
  {
    if steps != [] {
      StepKeeps(s, steps[0]);
      RunKeeps(Apply(s, steps[0]), steps[1..], s');
    }
  }

  lemma ReachableInv(listeners: nat, steps: seq<Step>, s: Sys)
    requires Run(Start(listeners), steps, s)
    ensures Inv(s) && |s.logs| == listeners
  {
    RunKeeps(Start(listeners), steps, s);
  }

  // ---------- the promises ----------

  /** In every run a peer is queued exactly once if and only if it is tracked and pending, so
      the worker never meets a queued peer it does not track. */
  lemma QueuedIffPending(listeners: nat, steps: seq<Step>, s: Sys, p: Peer)
    requires Run(Start(listeners), steps, s)
    ensures multiset(s.core.queue)[p] == if p in s.core.peers && s.core.peers[p].pending then 1 else 0
    ensures s.core.queue != [] ==> s.core.queue[0] in s.core.peers
  {
    ReachableInv(listeners, steps, s);
    DistinctCount(s.core.queue, p);
    if s.core.queue != [] { TakeChangeOk(s.core); }
  }

  lemma {:induction false} DistinctCount(xs: seq<Peer>, p: Peer)
    requires forall i, j :: 0 <= i < j < |xs| ==> xs[i] != xs[j]
    ensures multiset(xs)[p] == if p in xs then 1 else 0
  {
    if xs != [] {
      var k := |xs| - 1;
      assert xs == xs[..k] + [xs[k]];
      DistinctCount(xs[..k], p);
    }
  }

  /** Every listener is told, per peer, connects and disconnects in strict alternation. */
  lemma ListenersSeeAlternation(listeners: nat, steps: seq<Step>, s: Sys, j: nat)
    requires Run(Start(listeners), steps, s) && j < listeners
    ensures j < |s.logs| && Alternates(s.logs[j])
  {
    ReachableInv(listeners, steps, s);
    AlternatesPrefix(s.issued, if s.issued == [] then 0 else |s.issued| - 1);
  }

  /** Once the queue has drained and the worker is back waiting, each listener's last event
      about a peer says whether the calls made so far leave it responsive. */
  lemma DrainedListenersAgree(listeners: nat, steps: seq<Step>, s: Sys, j: nat, p: Peer)
    requires Run(Start(listeners), steps, s) && j < listeners
    requires s.core.queue == [] && s.worker.Waiting?
    ensures j < |s.logs| && (Told(s.logs[j], p) <==> StatusOf(s.status, p) == Responsive)
  {
    ReachableInv(listeners, steps, s);
    assert GetState(s.core, p) == CurState(s.core, p);
  }

  lemma RunCons(s: Sys, step: Step, rest: seq<Step>, s': Sys)
    requires Enabled(s, step) && Run(Apply(s, step), rest, s')
    ensures Run(s, [step] + rest, s')
  {
    assert ([step] + rest)[1..] == rest;
  }

  /** What the worker has left of the event it is delivering. */
  function ToTell(s: Sys): (n: nat) {
    if s.worker.Delivering? && s.worker.told <= |s.logs| then |s.logs| + 1 - s.worker.told else 0
  }

  lemma WorkerMoves(s: Sys) returns (step: Step, s1: Sys)
    requires Inv(s) && !s.stop && !s.worker.Exited? && !(s.worker.Waiting? && s.core.queue == [])
    ensures Enabled(s, step) && s1 == Apply(s, step) && (step.Taking? || step.Telling? || step.Relocking?)
    ensures Inv(s1) && !s1.stop && !s1.worker.Exited?
    ensures |s1.core.queue| < |s.core.queue| || (s1.core.queue == s.core.queue && ToTell(s1) < ToTell(s))
  {
    step := if s.worker.Waiting? then Taking else if s.worker.told < |s.logs| then Telling else Relocking;
    StepKeeps(s, step);
    s1 := Apply(s, step);
  }

  /** Left alone, a worker that has not been stopped drains the queue. */
  lemma {:induction false} WorkerDrains(s: Sys) returns (steps: seq<Step>, s': Sys)
    requires Inv(s) && !s.stop && !s.worker.Exited?
    ensures Run(s, steps, s') && s'.core.queue == [] && s'.worker.Waiting?
    ensures forall k :: 0 <= k < |steps| ==> steps[k].Taking? || steps[k].Telling? || steps[k].Relocking?
    decreases |s.core.queue|, ToTell(s)
  {
    if s.worker.Waiting? && s.core.queue == [] {
      return [], s;
    }
    var step, s1 := WorkerMoves(s);
    var rest;
    rest, s' := WorkerDrains(s1);
    RunCons(s, step, rest, s');
    steps := [step] + rest;
  }

  // ---------- stopping ----------

  predicate WorkerStep(step: Step) {
    step.Taking? || step.Telling? || step.Relocking? || step.Exiting?
  }

  lemma {:induction false} RunStops(s: Sys, steps: seq<Step>, s': Sys)
    requires Run(s, steps, s')
    ensures s'.stop <==> s.stop || exists k :: 0 <= k < |steps| && steps[k].Stopping?
    decreases |steps|
  {
    if steps != [] {
      RunStops(Apply(s, steps[0]), steps[1..], s');
      assert steps == [steps[0]] + steps[1..];
      if k :| 0 <= k < |steps[1..]| && steps[1..][k].Stopping? { assert steps[k + 1].Stopping?; }
    }
  }

  /** In every run the manager is stopped exactly if Stop has been called. */
  lemma StoppedByStop(listeners: nat, steps: seq<Step>, s: Sys)
    requires Run(Start(listeners), steps, s)
    ensures s.stop <==> exists k :: 0 <= k < |steps| && steps[k].Stopping?
  {
    RunStops(Start(listeners), steps, s);
  }

  /** Once it is stopped, whatever calls are made, no further event is issued. */
  lemma {:induction false} NoEventAfterStop(s: Sys, steps: seq<Step>, s': Sys)
    requires Run(s, steps, s') && s.stop
    ensures s'.issued == s.issued
    decreases |steps|
  {
    if steps != [] { NoEventAfterStop(Apply(s, steps[0]), steps[1..], s'); }
  }

  /** And the worker finishes the event it is delivering, to every listener, and exits. */
  lemma {:induction false} WorkerExits(s: Sys) returns (steps: seq<Step>, s': Sys)
    requires Inv(s) && s.stop
    ensures Run(s, steps, s') && s'.worker.Exited? && forall k :: 0 <= k < |steps| ==> WorkerStep(steps[k])
    ensures s.worker.Exited? || forall j :: 0 <= j < |s'.logs| ==> s'.logs[j] == s.issued
    decreases if s.worker.Delivering? then |s.logs| + 2 - s.worker.told else if s.worker.Waiting? then 1 else 0
  {
    if s.worker.Exited? { return [], s; }
    var step := if s.worker.Waiting? then Exiting else if s.worker.told < |s.logs| then Telling else Relocking;
    StepKeeps(s, step);
    var rest;
    rest, s' := WorkerExits(Apply(s, step));
    RunCons(s, step, rest, s');
    steps := [step] + rest;
  }

  // ---------- first come, first served ----------

  ghost predicate Pends(c: Core, p: Peer) {
    p in c.peers && c.peers[p].pending
  }

  /** The peer, if any, that becomes pending in a step. */
  ghost function Enters(s: Sys, step: Step): seq<Peer>
    requires Enabled(s, step)
  {
    if step.Calling? && !Pends(s.core, step.call.p) && Pends(Apply(s, step).core, step.call.p) then [step.call.p] else []
  }

  /** The peers that become pending in the course of a run, in order. */
  ghost function Entered(s: Sys, steps: seq<Step>): seq<Peer>
    decreases |steps|
  {
    if steps == [] || !Enabled(s, steps[0]) then []
    else Enters(s, steps[0]) + Entered(Apply(s, steps[0]), steps[1..])
  }

  function Takings(steps: seq<Step>): (n: nat) {
    if steps == [] then 0 else (if steps[0].Taking? then 1 else 0) + Takings(steps[1..])
  }

  lemma SetQueue(c: Core, p: Peer, st: Status)
    ensures var c' := SetState(c, p, st); c'.queue == c.queue + if !Pends(c, p) && Pends(c', p) then [p] else []
  {
  }

  lemma StepQueue(s: Sys, step: Step)
    requires Inv(s) && Enabled(s, step)
    ensures var q := s.core.queue + Enters(s, step);
            if step.Taking? then q != [] && Apply(s, step).core.queue == q[1..] else Apply(s, step).core.queue == q
  {
    if step.Calling? {
      SetQueue(s.core, step.call.p, Responsive);
      SetQueue(s.core, step.call.p, Disconnected);
      SetQueue(s.core, step.call.p, Unresponsive);
    } else {
      assert s.core.queue + [] == s.core.queue;
    }
  }

  lemma QueueAppend(q: seq<Peer>, first: seq<Peer>, later: seq<Peer>, t: nat, n: nat)
    requires t <= |q + first| && n <= |(q + first)[t..] + later|
    ensures t + n <= |q + (first + later)| && ((q + first)[t..] + later)[n..] == (q + (first + later))[t + n..]
  {
    assert q + (first + later) == (q + first) + later;
  }

  lemma {:induction false} QueueIsInOrder(s: Sys, steps: seq<Step>, s': Sys)
    requires Inv(s) && Run(s, steps, s')
    ensures Takings(steps) <= |s.core.queue + Entered(s, steps)|
    ensures s'.core.queue == (s.core.queue + Entered(s, steps))[Takings(steps)..]
    decreases |steps|
  {
    if steps != [] {
      var s1 := Apply(s, steps[0]);
      StepKeeps(s, steps[0]);
      StepQueue(s, steps[0]);
      QueueIsInOrder(s1, steps[1..], s');
      QueueAppend(s.core.queue, Enters(s, steps[0]), Entered(s1, steps[1..]), if steps[0].Taking? then 1 else 0, Takings(steps[1..]));
    }
  }

  /** One peer's change has been taken up, and no other's. */
  ghost predicate OnlySettles(c: Core, c': Core, p: Peer) {
    && Pends(c, p) && !Pends(c', p)
    && forall q :: q != p ==> (q in c'.peers <==> q in c.peers) && (q in c.peers ==> c'.peers[q] == c.peers[q])
  }

  lemma TakeSettles(c: Core)
    requires QueueOk(c) && c.queue != []
    ensures OnlySettles(c, TakeChange(c).0, c.queue[0])
  {
    assert c.queue[0] in c.queue;
  }

  lemma QueueFromStart(listeners: nat, steps: seq<Step>, s: Sys)
    requires Run(Start(listeners), steps, s)
    ensures Takings(steps) <= |Entered(Start(listeners), steps)|
    ensures s.core.queue == Entered(Start(listeners), steps)[Takings(steps)..]
  {
    QueueIsInOrder(Start(listeners), steps, s);
    assert [] + Entered(Start(listeners), steps) == Entered(Start(listeners), steps);
  }

  /** In every run, the worker's turns take up the peers in the order in which they became pending:
      each turn settles exactly the peer whose turn it is. */
  lemma FirstComeFirstServed(listeners: nat, steps: seq<Step>, s: Sys)
    requires Run(Start(listeners), steps, s) && Enabled(s, Taking)
    ensures Takings(steps) < |Entered(Start(listeners), steps)|
    ensures OnlySettles(s.core, Apply(s, Taking).core, Entered(Start(listeners), steps)[Takings(steps)])
  {
    ReachableInv(listeners, steps, s);
    QueueFromStart(listeners, steps, s);
    TakeSettles(s.core);
  }
}
