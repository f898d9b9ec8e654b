/**
 Wants in flight run out.  Every want weighs as many hops as its walk can still make, so that
 handling a want lowers the total weight, whether the want is sent on, sent again or absorbed.
 */
module RelayProgress {
  import opened Options
  import opened RelayLedger
  import opened RelayNetwork
  import opened Sums

  /** How many links a want over `l` may still have before it, counted from its place in its walk. */
  ghost function Weight(n: nat, owner: map<Link, Position>, l: Link): nat {
    if l in owner && owner[l].index <= n then n - owner[l].index else 0
  }

  ghost function Weights(n: nat, owner: map<Link, Position>): Link -> nat {
    l => Weight(n, owner, l)
  }

  ghost function Total(n: nat, owner: map<Link, Position>, wants: multiset<Link>): nat {
    Sum(wants, Weights(n, owner))
  }

  lemma TotalTake(n: nat, owner: map<Link, Position>, wants: multiset<Link>, l: Link)
    requires l in wants
    ensures Total(n, owner, wants) == Weight(n, owner, l) + Total(n, owner, wants - multiset{l})
  {
    SumTake(wants, Weights(n, owner), l);
  }

  lemma TotalAdd(n: nat, owner: map<Link, Position>, wants: multiset<Link>, l: Link)
    ensures Total(n, owner, wants + multiset{l}) == Total(n, owner, wants) + Weight(n, owner, l)
  {
    TotalTake(n, owner, wants + multiset{l}, l);
    assert wants + multiset{l} - multiset{l} == wants;
  }

  /** Links that get an owner later weigh nothing among the wants there are. */
  lemma TotalKept(n: nat, owner: map<Link, Position>, owner': map<Link, Position>, wants: multiset<Link>)
    requires forall l :: l in wants ==> l in owner && l in owner' && owner'[l] == owner[l]
    ensures Total(n, owner', wants) == Total(n, owner, wants)
  {
    SumSame(wants, Weights(n, owner), Weights(n, owner'));
  }

  ghost function TotalOf(cfg: Config, s: Net): nat {
    Total(|cfg.links|, s.hist.owner, s.wants)
  }

  // ---------- weights within a network ----------

  lemma WeightBounds(cfg: Config, s: Net, l: Link)
    requires Inv(cfg, s) && l in s.hist.owner
    ensures 1 <= Weight(|cfg.links|, s.hist.owner, l) <= |cfg.links|
  {
    Used(cfg, s.nodes, s.hist, l);
    WalkLength(cfg, s.hist, s.hist.owner[l].requestor);
  }

  lemma {:induction false} TotalBounds(cfg: Config, s: Net, wants: multiset<Link>)
    requires Inv(cfg, s) && forall l :: l in wants ==> l in s.hist.owner
    ensures |wants| <= Total(|cfg.links|, s.hist.owner, wants) <= |cfg.links| * |wants|
    decreases |wants|
  {
    if wants != multiset{} {
      var l :| l in wants;
      WeightBounds(cfg, s, l);
      TotalTake(|cfg.links|, s.hist.owner, wants, l);
      TotalBounds(cfg, s, wants - multiset{l});
      assert |wants| == |wants - multiset{l}| + 1;
      Distribute(|cfg.links|, |wants - multiset{l}|);
    }
  }

  lemma Distribute(n: nat, k: nat)
    ensures n * (k + 1) == n * k + n
  {
  }

  lemma WantsOwned(cfg: Config, s: Net)
    requires Inv(cfg, s)
    ensures forall l :: l in s.wants ==> l in s.hist.owner
  {
    forall l | l in s.wants ensures l in s.hist.owner { assert WantOk(s.wants, s.hist, l); }
  }

  lemma TotalOfBounds(cfg: Config, s: Net)
    requires Inv(cfg, s)
    ensures |s.wants| <= TotalOf(cfg, s) <= |cfg.links| * |s.wants|
  {
    WantsOwned(cfg, s);
    TotalBounds(cfg, s, s.wants);
  }

  /** A want that is sent again goes to the next place of its walk. */
  lemma ResentIsNext(cfg: Config, nodes: Nodes, h: History, l: Link)
    requires RoutesOk(cfg, nodes, h) && l in h.owner && l.dst in nodes && l.src in nodes[l.dst].from
    ensures var next := Link(l.dst, nodes[l.dst].from[l.src]);
            next in h.owner && h.owner[next] == Position(h.owner[l].requestor, h.owner[l].index + 1)
  {
    var Position(r, i) := h.owner[l];
    NotEndOfWalk(cfg, nodes, h, l);
    OnWalk(cfg, h, r, i + 1);
    var next := Link(h.walks[r][i + 1], h.walks[r][i + 2]);
    Used(cfg, nodes, h, next);
  }

  // ---------- every step ----------

  /** What a step may put on the wire that was not there: a new search, or a repeated message. */
  predicate Originates(step: Step) {
    step.Search? || step.Duplicate?
  }

  lemma AbsorbLowers(cfg: Config, s: Net, l: Link, ch: Choice)
    requires Inv(cfg, s) && Enabled(cfg, s, Want(l, ch))
    requires ProcessOne(s.nodes[l.dst], l.src, ch).1.Ignored? || ProcessOne(s.nodes[l.dst], l.src, ch).1.StartedProxy?
    ensures TotalOf(cfg, ApplyWant(s, l, ch)) < TotalOf(cfg, s)
  {
    WantsOwned(cfg, s);
    WeightBounds(cfg, s, l);
    TotalTake(|cfg.links|, s.hist.owner, s.wants, l);
  }

  lemma ResendLowers(cfg: Config, s: Net, l: Link, ch: Choice)
    requires Inv(cfg, s) && Enabled(cfg, s, Want(l, ch)) && ProcessOne(s.nodes[l.dst], l.src, ch).1.Resent?
    ensures TotalOf(cfg, ApplyWant(s, l, ch)) < TotalOf(cfg, s)
  {
    WantsOwned(cfg, s);
    ResentIsNext(cfg, s.nodes, s.hist, l);
    var next := Link(l.dst, s.nodes[l.dst].from[l.src]);
    WeightBounds(cfg, s, l);
    WeightBounds(cfg, s, next);
    TotalTake(|cfg.links|, s.hist.owner, s.wants, l);
    TotalAdd(|cfg.links|, s.hist.owner, s.wants - multiset{l}, next);
  }

  lemma ForwardLowers(cfg: Config, s: Net, l: Link, ch: Choice)
    requires Inv(cfg, s) && Enabled(cfg, s, Want(l, ch)) && ProcessOne(s.nodes[l.dst], l.src, ch).1.Forwarded?
    ensures TotalOf(cfg, ApplyWant(s, l, ch)) < TotalOf(cfg, s)
  {
    WantsOwned(cfg, s);
    Used(cfg, s.nodes, s.hist, l);
    var s', next := ApplyWant(s, l, ch), Link(l.dst, ch.sentTo.value);
    FreshLink(cfg, s.nodes, s.hist, l.dst, ch.sentTo.value);
    ForwardKeeps(cfg, s, l, ch);
    WeightBounds(cfg, s, l);
    WeightBounds(cfg, s', next);
    var n, rest := |cfg.links|, s.wants - multiset{l};
    TotalTake(n, s.hist.owner, s.wants, l);
    TotalAdd(n, s'.hist.owner, rest, next);
    TotalKept(n, s.hist.owner, s'.hist.owner, rest);
  }

  /** Handling a want lowers the total, whatever the random draw and the forwarder do. */
  lemma WantLowers(cfg: Config, s: Net, step: Step)
    requires Inv(cfg, s) && Enabled(cfg, s, step) && step.Want?
    ensures TotalOf(cfg, Apply(cfg, s, step)) < TotalOf(cfg, s)
  {
    match ProcessOne(s.nodes[step.link.dst], step.link.src, step.choice).1
    case Resent(_) => ResendLowers(cfg, s, step.link, step.choice);
    case Forwarded(_) => ForwardLowers(cfg, s, step.link, step.choice);
    case _ => AbsorbLowers(cfg, s, step.link, step.choice);
  }

  lemma SearchRaises(cfg: Config, s: Net, r: Peer, to: Peer)
    requires Inv(cfg, s) && Enabled(cfg, s, Search(r, to))
    ensures TotalOf(cfg, Apply(cfg, s, Search(r, to))) <= TotalOf(cfg, s) + |cfg.links|
  {
    WantsOwned(cfg, s);
    FreshLink(cfg, s.nodes, s.hist, r, to);
    var s' := ApplySearch(s, r, to);
    TotalAdd(|cfg.links|, s'.hist.owner, s.wants, Link(r, to));
    TotalKept(|cfg.links|, s.hist.owner, s'.hist.owner, s.wants);
  }

  lemma StepTotal(cfg: Config, s: Net, step: Step)
    requires Inv(cfg, s) && Enabled(cfg, s, step)
    ensures TotalOf(cfg, Apply(cfg, s, step)) + (if step.Want? then 1 else 0) <=
              TotalOf(cfg, s) + if Originates(step) then |cfg.links| else 0
  {
    match step
    case Want(_, _) => WantLowers(cfg, s, step);
    case Search(r, to) => SearchRaises(cfg, s, r, to);
    case Duplicate(l) => TotalAdd(|cfg.links|, s.hist.owner, s.wants, l);
    case _ =>
  }

  // ---------- whole runs ----------

  function Handled(steps: seq<Step>): (r: nat) {
    if steps == [] then 0 else (if steps[0].Want? then 1 else 0) + Handled(steps[1..])
  }

  function Originated(steps: seq<Step>): (r: nat) {
    if steps == [] then 0 else (if Originates(steps[0]) then 1 else 0) + Originated(steps[1..])
  }

  lemma AddUp(n: nat, t: nat, t1: nat, t2: nat, step: Step, rest: seq<Step>)
    requires t1 + (if step.Want? then 1 else 0) <= t + if Originates(step) then n else 0
    requires t2 + Handled(rest) <= t1 + n * Originated(rest)
    ensures t2 + Handled([step] + rest) <= t + n * Originated([step] + rest)
  {
    assert ([step] + rest)[1..] == rest;
    Distribute(n, Originated(rest));
  }

  /** The first step of a run, seen from outside. */
  lemma FirstStep(cfg: Config, s: Net, steps: seq<Step>, s': Net) returns (s1: Net)
    requires Inv(cfg, s) && Run(cfg, s, steps, s') && steps != []
    ensures Inv(cfg, s1) && Run(cfg, s1, steps[1..], s')
    ensures TotalOf(cfg, s1) + (if steps[0].Want? then 1 else 0) <=
              TotalOf(cfg, s) + if Originates(steps[0]) then |cfg.links| else 0
  {
    StepKeeps(cfg, s, steps[0]);
    StepTotal(cfg, s, steps[0]);
    s1 := Apply(cfg, s, steps[0]);
  }

  lemma {:induction false} RunTotal(cfg: Config, s: Net, steps: seq<Step>, s': Net)
    requires Inv(cfg, s) && Run(cfg, s, steps, s')
    ensures TotalOf(cfg, s') + Handled(steps) <= TotalOf(cfg, s) + |cfg.links| * Originated(steps)
    decreases |steps|
  {
    if steps != [] {
      var s1 := FirstStep(cfg, s, steps, s');
      RunTotal(cfg, s1, steps[1..], s');
      AddUp(|cfg.links|, TotalOf(cfg, s), TotalOf(cfg, s1), TotalOf(cfg, s'), steps[0], steps[1..]);
      assert [steps[0]] + steps[1..] == steps;
    }
  }

  /** In every run, wants handled and wants still in flight together are at most the number of
      directed links for each search and each repeated message, resent wants included. */
  lemma WantsAreBounded(cfg: Config, steps: seq<Step>, s: Net)
    requires GoodConfig(cfg) && Run(cfg, Start(cfg), steps, s)
    ensures Handled(steps) + |s.wants| <= |cfg.links| * Originated(steps)
  {
    StartInv(cfg);
    RunKeeps(cfg, Start(cfg), steps, s);
    RunTotal(cfg, Start(cfg), steps, s);
    TotalOfBounds(cfg, s);
  }

  ghost predicate WantsOnly(steps: seq<Step>) {
    forall k :: 0 <= k < |steps| ==> steps[k].Want?
  }

  lemma {:induction false} HandledAll(steps: seq<Step>)
    requires WantsOnly(steps)
    ensures Handled(steps) == |steps| && Originated(steps) == 0
  {
    if steps != [] { HandledAll(steps[1..]); }
  }

  /** Every want in flight can be handled: the forwarder may always report an error. */
  lemma WantIsHandled(cfg: Config, s: Net, l: Link)
    requires Inv(cfg, s) && l in s.wants
    ensures Enabled(cfg, s, Want(l, Choice(false, None, false)))
  {
    WantsOwned(cfg, s);
    Used(cfg, s.nodes, s.hist, l);
  }

  ghost predicate AtRest(cfg: Config, s: Net) {
    forall step: Step :: step.Want? ==> !Enabled(cfg, s, step)
  }

  /** However the draws fall and whichever want comes first, handling the wants in flight at any
      reachable state comes to an end within the number of directed links for each of them, and
      then every walk has reached a proxy. */
  lemma WalksReachProxies(cfg: Config, s: Net, steps: seq<Step>, s': Net)
    requires Reachable(cfg, s) && Run(cfg, s, steps, s') && WantsOnly(steps)
    ensures |steps| + |s'.wants| <= |cfg.links| * |s.wants|
    ensures AtRest(cfg, s') <==> s'.wants == multiset{}
    ensures AtRest(cfg, s') ==> forall r :: r in s'.hist.walks ==> |s'.hist.walks[r]| >= 2 && IsProxied(s'.nodes, LastLink(s'.hist.walks[r]))
  {
    ReachableInv(cfg, s);
    RunKeeps(cfg, s, steps, s');
    RunTotal(cfg, s, steps, s');
    HandledAll(steps);
    TotalOfBounds(cfg, s);
    TotalOfBounds(cfg, s');
    if s'.wants != multiset{} {
      var l :| l in s'.wants;
      WantIsHandled(cfg, s', l);
    } else {
      forall r | r in s'.hist.walks
        ensures |s'.hist.walks[r]| >= 2 && IsProxied(s'.nodes, LastLink(s'.hist.walks[r]))
      {
        assert WalkOk(s'.hist, r);
        assert TailOk(s'.nodes, s'.wants, s'.hist, r);
      }
    }
  }

  lemma HandleOneWant(cfg: Config, s: Net) returns (step: Step, s1: Net)
    requires Inv(cfg, s) && s.wants != multiset{}
    ensures step.Want? && Inv(cfg, s1) && TotalOf(cfg, s1) < TotalOf(cfg, s)
    ensures forall rest, s' :: Run(cfg, s1, rest, s') ==> Run(cfg, s, [step] + rest, s')
  {
    var l :| l in s.wants;
    step := Want(l, Choice(false, None, false));
    WantIsHandled(cfg, s, l);
    StepKeeps(cfg, s, step);
    WantLowers(cfg, s, step);
    s1 := Apply(cfg, s, step);
    forall rest, s' | Run(cfg, s1, rest, s') ensures Run(cfg, s, [step] + rest, s') { RunCons(cfg, s, step, rest, s'); }
  }

  /** And it can be brought to that end from every state of a run. */
  lemma {:induction false} WantsRunOut(cfg: Config, s: Net) returns (steps: seq<Step>, s': Net)
    requires Inv(cfg, s)
    ensures Run(cfg, s, steps, s') && WantsOnly(steps) && s'.wants == multiset{}
    decreases TotalOf(cfg, s)
  {
    if s.wants == multiset{} {
      steps, s' := [], s;
    } else {
      var step, s1 := HandleOneWant(cfg, s);
      var rest;
      rest, s' := WantsRunOut(cfg, s1);
      steps := [step] + rest;
      assert Run(cfg, s, steps, s');
    }
  }

  // ---------- proxies that are still at work ----------

  ghost predicate WorkingAt(nodes: Nodes, b: Peer, a: Peer) {
    b in nodes && a in nodes[b].proxied ==> IsProxyFor(nodes[b], a)
  }

  ghost predicate Working(nodes: Nodes) {
    forall b, a :: WorkingAt(nodes, b, a)
  }

  lemma StepWorks(cfg: Config, s: Net, step: Step)
    requires Enabled(cfg, s, step) && !step.Close? && Working(s.nodes)
    ensures Working(Apply(cfg, s, step).nodes)
  {
    var s' := Apply(cfg, s, step);
    forall b, a ensures WorkingAt(s'.nodes, b, a) {
      assert WorkingAt(s.nodes, b, a);
      if step.Want? && b == step.link.dst { OneWorks(s.nodes[b], step.link.src, step.choice, a); }
    }
  }

  lemma OneWorks(l: Ledger, from: Peer, ch: Choice, a: Peer)
    requires a in l.proxied ==> IsProxyFor(l, a)
    ensures var l' := ProcessOne(l, from, ch).0; a in l'.proxied ==> IsProxyFor(l', a)
  {
  }

  lemma {:induction false} RunWorks(cfg: Config, s: Net, steps: seq<Step>, s': Net)
    requires Run(cfg, s, steps, s') && Working(s.nodes) && forall k :: 0 <= k < |steps| ==> !steps[k].Close?
    ensures Working(s'.nodes)
    decreases |steps|
  {
    if steps != [] {
      StepWorks(cfg, s, steps[0]);
      RunWorks(cfg, Apply(cfg, s, steps[0]), steps[1..], s');
    }
  }

  /** Only the end of a session takes a proxy off its work: in a run without one, once no want is
      in flight the last node of every walk is at work as a proxy for it. */
  lemma WalksAreServed(cfg: Config, steps: seq<Step>, s: Net, r: Peer)
    requires GoodConfig(cfg) && Run(cfg, Start(cfg), steps, s) && forall k :: 0 <= k < |steps| ==> !steps[k].Close?
    requires s.wants == multiset{} && r in s.hist.walks
    ensures |s.hist.walks[r]| >= 2
    ensures var l := LastLink(s.hist.walks[r]); l.dst in s.nodes && IsProxyFor(s.nodes[l.dst], l.src)
  {
    WalksEndAtProxy(cfg, s, r);
    RunWorks(cfg, Start(cfg), steps, s);
    var l := LastLink(s.hist.walks[r]);
    assert WorkingAt(s.nodes, l.dst, l.src);
  }
}
