/**
 What becomes of a want, told by the walks alone: which peers a node may send it to, when it
 makes its walk longer, when it is sent again, and when it stops.  The nodes decide by their own
 ledgers; here it is shown that the ledgers decide as the walks say.
 */
module RelayWalks {
  import opened Options
  import opened RelayLedger
  import opened RelayNetwork

  /** The link is the last one of the walk it belongs to. */
  ghost predicate EndsWalk(h: History, l: Link) {
    && l in h.owner && h.owner[l].requestor in h.walks
    && h.owner[l].index + 2 == |h.walks[h.owner[l].requestor]|
  }

  /** The node at the end of `l` is connected to `to`, did not get the want from it, and has not
      sent it the want. */
  ghost predicate Choosable(cfg: Config, h: History, l: Link, to: Peer) {
    Link(l.dst, to) in cfg.links && to != l.src && Link(l.dst, to) !in h.owner
  }

  /** The proxy session for what came over `l` is running. */
  ghost predicate Serving(nodes: Nodes, l: Link) {
    l.dst in nodes && IsProxyFor(nodes[l.dst], l.src)
  }

  /** The receivers in a ledger are the peers that the node has sent the want to. */
  lemma SentTo(cfg: Config, nodes: Nodes, h: History, b: Peer, to: Peer)
    requires RoutesOk(cfg, nodes, h) && b in nodes
    ensures to in nodes[b].from.Values <==> Link(b, to) in h.owner
  {
    if to in nodes[b].from.Values {
      var a :| a in nodes[b].from && nodes[b].from[a] == to;
      assert EntryOk(nodes, h, b, a);
    } else {
      FreshLink(cfg, nodes, h, b, to);
    }
  }

  /** A ledger has an entry for what came over a link exactly if the link does not end its walk. */
  lemma EntryIffGoesOn(cfg: Config, nodes: Nodes, h: History, l: Link)
    requires RoutesOk(cfg, nodes, h) && l in h.owner
    ensures At(h, l, h.owner[l]) && l.dst in nodes
    ensures EndsWalk(h, l) <==> l.src !in nodes[l.dst].from
    ensures !EndsWalk(h, l) ==> var Position(r, i) := h.owner[l]; i + 2 < |h.walks[r]| && nodes[l.dst].from[l.src] == h.walks[r][i + 2]
  {
    Used(cfg, nodes, h, l);
    if l.src in nodes[l.dst].from {
      NotEndOfWalk(cfg, nodes, h, l);
      var Position(r, i) := h.owner[l];
      OnWalk(cfg, h, r, i + 1);
      Used(cfg, nodes, h, Link(h.walks[r][i + 1], h.walks[r][i + 2]));
    } else {
      EndOfWalk(cfg, nodes, h, l);
    }
  }

  lemma WantKnown(cfg: Config, s: Net, l: Link)
    requires Reachable(cfg, s) && l in s.wants
    ensures Inv(cfg, s) && l in s.hist.owner && At(s.hist, l, s.hist.owner[l]) && l.dst in s.nodes
  {
    ReachableInv(cfg, s);
    assert WantOk(s.wants, s.hist, l);
    Used(cfg, s.nodes, s.hist, l);
  }

  /** What the invariant says about a want in flight. */
  lemma WantFacts(cfg: Config, s: Net, l: Link)
    requires Reachable(cfg, s) && l in s.wants
    ensures l in s.hist.owner && At(s.hist, l, s.hist.owner[l]) && l.dst in s.nodes
    ensures EndsWalk(s.hist, l) <==> l.src !in s.nodes[l.dst].from
    ensures !EndsWalk(s.hist, l) ==>
              var Position(r, i) := s.hist.owner[l];
              i + 2 < |s.hist.walks[r]| && s.nodes[l.dst].from[l.src] == s.hist.walks[r][i + 2]
  {
    WantKnown(cfg, s, l);
    EntryIffGoesOn(cfg, s.nodes, s.hist, l);
  }

  // ---------- what can happen ----------

  /** A want in flight may be handled with any draw; the forwarder names a peer exactly if it is
      connected, is not the sender, and has not had the want from this node. */
  lemma WantChoices(cfg: Config, s: Net, l: Link, ch: Choice)
    requires Reachable(cfg, s)
    ensures Enabled(cfg, s, Want(l, ch)) <==> l in s.wants && (ch.sentTo.Some? ==> Choosable(cfg, s.hist, l, ch.sentTo.value))
  {
    if l in s.wants {
      WantKnown(cfg, s, l);
      if ch.sentTo.Some? { SentTo(cfg, s.nodes, s.hist, l.dst, ch.sentTo.value); }
    }
  }

  /** A node may start a search exactly if it has no walk yet, over any link that has not had the
      want. */
  lemma SearchChoices(cfg: Config, s: Net, r: Peer, to: Peer)
    requires Reachable(cfg, s)
    ensures Enabled(cfg, s, Search(r, to)) <==>
              r !in s.hist.walks && Link(r, to) in cfg.links && Link(r, to) !in s.hist.owner
  {
    ReachableInv(cfg, s);
    if Link(r, to) in cfg.links {
      SentTo(cfg, s.nodes, s.hist, r, to);
      SearchedIffWalk(cfg, s.nodes, s.hist, r);
    }
  }

  lemma SearchedIffWalk(cfg: Config, nodes: Nodes, h: History, r: Peer)
    requires RoutesOk(cfg, nodes, h) && r in nodes
    ensures r in nodes[r].from <==> r in h.walks
  {
    if r in nodes[r].from {
      assert EntryOk(nodes, h, r, r);
      Used(cfg, nodes, h, Link(r, nodes[r].from[r]));
    }
    if r in h.walks {
      assert WalkOk(h, r);
      OnWalk(cfg, h, r, 0);
      Used(cfg, nodes, h, Link(h.walks[r][0], h.walks[r][1]));
    }
  }

  // ---------- what a want does ----------

  /** No proxy session has started or ended, and no answer has moved. */
  ghost predicate SameRest(s: Net, s': Net) {
    && (forall b :: b in s.nodes ==> b in s'.nodes && s'.nodes[b].proxied == s.nodes[b].proxied)
    && s'.haves == s.haves && s'.delivered == s.delivered
  }

  /** What one want does where the ledger has no entry for it. */
  lemma OneWantGoesOn(s: Net, l: Link, ch: Choice, to: Peer)
    requires l in s.hist.owner && At(s.hist, l, s.hist.owner[l]) && l.dst in s.nodes && !Serving(s.nodes, l)
    requires l.src !in s.nodes[l.dst].from && !ch.becomeProxy && ch.sentTo == Some(to)
    ensures var (s', r) := (ApplyWant(s, l, ch), s.hist.owner[l].requestor);
            && s'.hist.walks == s.hist.walks[r := s.hist.walks[r] + [to]]
            && s'.hist.owner == s.hist.owner[Link(l.dst, to) := Position(r, s.hist.owner[l].index + 1)]
            && s'.wants == s.wants - multiset{l} + multiset{Link(l.dst, to)}
            && SameRest(s, s')
  {
  }

  /** And where the ledger has one that it follows. */
  lemma OneWantFollows(s: Net, l: Link, ch: Choice, to: Peer)
    requires l.dst in s.nodes && !Serving(s.nodes, l) && ch.resent
    requires l.src in s.nodes[l.dst].from && s.nodes[l.dst].from[l.src] == to
    ensures var s' := ApplyWant(s, l, ch);
            s'.wants == s.wants - multiset{l} + multiset{Link(l.dst, to)} && s'.hist == s.hist && SameRest(s, s')
  {
  }

  /** At the end of a walk, with no proxy session running, a draw against proxying and a peer
      from the forwarder: exactly that walk grows by exactly that peer, the want is on its way
      over the new link, and no proxy session is started. */
  lemma WantGoesOn(cfg: Config, s: Net, l: Link, to: Peer, resent: bool)
    requires Reachable(cfg, s) && l in s.wants && EndsWalk(s.hist, l) && !Serving(s.nodes, l)
    requires Choosable(cfg, s.hist, l, to)
    ensures Enabled(cfg, s, Want(l, Choice(false, Some(to), resent)))
    ensures var s' := Apply(cfg, s, Want(l, Choice(false, Some(to), resent)));
            var r := s.hist.owner[l].requestor;
            && s'.hist.walks == s.hist.walks[r := s.hist.walks[r] + [to]]
            && s'.hist.owner == s.hist.owner[Link(l.dst, to) := Position(r, |s.hist.walks[r]| - 1)]
            && s'.wants == s.wants - multiset{l} + multiset{Link(l.dst, to)}
            && SameRest(s, s')
  {
    WantChoices(cfg, s, l, Choice(false, Some(to), resent));
    WantFacts(cfg, s, l);
    OneWantGoesOn(s, l, Choice(false, Some(to), resent), to);
  }

  /** In the middle of a walk the want follows the walk, if it can be sent again. */
  lemma WantIsSentAgain(cfg: Config, s: Net, l: Link, ch: Choice)
    requires Reachable(cfg, s) && Enabled(cfg, s, Want(l, ch)) && !EndsWalk(s.hist, l) && !Serving(s.nodes, l) && ch.resent
    ensures l in s.hist.owner
    ensures var s' := Apply(cfg, s, Want(l, ch));
            var Position(r, i) := s.hist.owner[l];
            && r in s.hist.walks && i + 2 < |s.hist.walks[r]| && l == Link(s.hist.walks[r][i], s.hist.walks[r][i + 1])
            && s'.wants == s.wants - multiset{l} + multiset{Link(s.hist.walks[r][i + 1], s.hist.walks[r][i + 2])}
            && s'.hist == s.hist && SameRest(s, s')
  {
    WantFacts(cfg, s, l);
    var Position(r, i) := s.hist.owner[l];
    OneWantFollows(s, l, ch, s.hist.walks[r][i + 2]);
  }

  /** The outside world ends the walk at this want: at its end by the draw or an error of the
      forwarder, in its middle by an error when sending it again. */
  ghost predicate Stops(h: History, l: Link, ch: Choice) {
    if EndsWalk(h, l) then ch.becomeProxy || ch.sentTo.None? else !ch.resent
  }

  /** In all other cases the want is absorbed: no walk changes and nothing is sent. */
  lemma WantStops(cfg: Config, s: Net, l: Link, ch: Choice)
    requires Reachable(cfg, s) && Enabled(cfg, s, Want(l, ch)) && (Serving(s.nodes, l) || Stops(s.hist, l, ch))
    ensures var s' := Apply(cfg, s, Want(l, ch));
            && s'.wants == s.wants - multiset{l} && s'.hist == s.hist
            && Serving(s'.nodes, l) && s'.haves == s.haves && s'.delivered == s.delivered
  {
    WantFacts(cfg, s, l);
  }

  // ---------- when a proxy session runs, over whole runs ----------

  /** Whether the proxy session for `l` runs after the run, if it did so before: started by a
      want over `l` that stops there, ended by its own end, and by nothing else. */
  ghost predicate ServesAfter(cfg: Config, s: Net, steps: seq<Step>, l: Link, before: bool)
    decreases |steps|
  {
    if steps == [] || !Enabled(cfg, s, steps[0]) then before
    else
      var step := steps[0];
      var now :=
        if step == Close(l.dst, l.src) then false
        else before || (step.Want? && step.link == l && Stops(s.hist, l, step.choice));
      ServesAfter(cfg, Apply(cfg, s, step), steps[1..], l, now)
  }

  lemma StepServes(cfg: Config, s: Net, step: Step, l: Link)
    requires Reachable(cfg, s) && Enabled(cfg, s, step)
    ensures Serving(Apply(cfg, s, step).nodes, l) <==>
              && step != Close(l.dst, l.src)
              && (Serving(s.nodes, l) || (step.Want? && step.link == l && Stops(s.hist, l, step.choice)))
  {
    if step.Want? {
      WantFacts(cfg, s, step.link);
      OneServes(s, step.link, step.choice, l);
    }
  }

  lemma OneServes(s: Net, l: Link, ch: Choice, m: Link)
    requires l in s.hist.owner && l.dst in s.nodes && (EndsWalk(s.hist, l) <==> l.src !in s.nodes[l.dst].from)
    ensures var nodes := ApplyWant(s, l, ch).nodes;
            && (Serving(nodes, m) <==> Serving(s.nodes, m) || (m == l && Stops(s.hist, l, ch)))
            && (IsProxied(nodes, m) <==> IsProxied(s.nodes, m) || (m == l && Stops(s.hist, l, ch)))
  {
  }

  lemma ReachableNext(cfg: Config, s: Net, step: Step)
    requires Reachable(cfg, s) && Enabled(cfg, s, step)
    ensures Reachable(cfg, Apply(cfg, s, step))
  {
    var steps :| Run(cfg, Start(cfg), steps, s);
    RunSnoc(cfg, Start(cfg), steps, s, step);
  }

  lemma {:induction false} RunSnoc(cfg: Config, s0: Net, steps: seq<Step>, s: Net, step: Step)
    requires Run(cfg, s0, steps, s) && Enabled(cfg, s, step)
    ensures Run(cfg, s0, steps + [step], Apply(cfg, s, step))
    decreases |steps|
  {
    if steps != [] {
      RunSnoc(cfg, Apply(cfg, s0, steps[0]), steps[1..], s, step);
      assert (steps + [step])[1..] == steps[1..] + [step];
    }
  }

  /** In every run, proxy sessions run exactly as draws, errors and their own ends say. */
  lemma {:induction false} ServingIsByDrawOrError(cfg: Config, s: Net, steps: seq<Step>, s': Net, l: Link)
    requires Reachable(cfg, s) && Run(cfg, s, steps, s')
    ensures Serving(s'.nodes, l) <==> ServesAfter(cfg, s, steps, l, Serving(s.nodes, l))
    decreases |steps|
  {
    if steps != [] {
      StepServes(cfg, s, steps[0], l);
      ReachableNext(cfg, s, steps[0]);
      ServingIsByDrawOrError(cfg, Apply(cfg, s, steps[0]), steps[1..], s', l);
    }
  }

  // ---------- walks go on as long as they can ----------

  ghost predicate DeadEnd(cfg: Config, h: History, l: Link) {
    forall to :: !Choosable(cfg, h, l, to)
  }

  /** No draw for proxying, no error when a want is sent again, and the forwarder reports an error
      only where it has no peer left. */
  ghost predicate Willing(cfg: Config, s: Net, step: Step) {
    step.Want? ==>
      && !step.choice.becomeProxy && step.choice.resent
      && (step.choice.sentTo.None? ==> DeadEnd(cfg, s.hist, step.link))
  }

  ghost predicate WillingRun(cfg: Config, s: Net, steps: seq<Step>, s': Net)
    decreases |steps|
  {
    if steps == [] then s' == s
    else Enabled(cfg, s, steps[0]) && Willing(cfg, s, steps[0]) && WillingRun(cfg, Apply(cfg, s, steps[0]), steps[1..], s')
  }

  ghost predicate ProxyAtDeadEnd(cfg: Config, s: Net, l: Link) {
    IsProxied(s.nodes, l) ==> DeadEnd(cfg, s.hist, l)
  }

  lemma StepAtDeadEnd(cfg: Config, s: Net, step: Step, l: Link)
    requires Reachable(cfg, s) && Enabled(cfg, s, step) && Willing(cfg, s, step) && ProxyAtDeadEnd(cfg, s, l)
    ensures ProxyAtDeadEnd(cfg, Apply(cfg, s, step), l)
  {
    var s' := Apply(cfg, s, step);
    if step.Want? {
      WantFacts(cfg, s, step.link);
      OneServes(s, step.link, step.choice, l);
    }
    assert IsProxied(s'.nodes, l) ==> IsProxied(s.nodes, l) || DeadEnd(cfg, s.hist, l);
    forall to | IsProxied(s'.nodes, l) ensures !Choosable(cfg, s'.hist, l, to) { assert !Choosable(cfg, s.hist, l, to); }
  }

  lemma {:induction false} WillingRunKeeps(cfg: Config, s: Net, steps: seq<Step>, s': Net, l: Link)
    requires Reachable(cfg, s) && WillingRun(cfg, s, steps, s') && ProxyAtDeadEnd(cfg, s, l)
    ensures ProxyAtDeadEnd(cfg, s', l) && Reachable(cfg, s')
    decreases |steps|
  {
    if steps != [] {
      StepAtDeadEnd(cfg, s, steps[0], l);
      ReachableNext(cfg, s, steps[0]);
      WillingRunKeeps(cfg, Apply(cfg, s, steps[0]), steps[1..], s', l);
    }
  }

  /** If nothing stops a walk from outside, then once no want is in flight it has gone on until
      every link of its last node has had the want, but for the one back to the sender. */
  lemma WalksGoOnToDeadEnds(cfg: Config, steps: seq<Step>, s: Net, r: Peer, to: Peer)
    requires GoodConfig(cfg) && WillingRun(cfg, Start(cfg), steps, s) && s.wants == multiset{} && r in s.hist.walks
    ensures |s.hist.walks[r]| >= 2
    ensures var l := LastLink(s.hist.walks[r]);
            Link(l.dst, to) in cfg.links && to != l.src ==> Link(l.dst, to) in s.hist.owner
  {
    assert Run(cfg, Start(cfg), [], Start(cfg));
    WillingRunKeeps(cfg, Start(cfg), steps, s, Link(r, r));
    WalksEndAtProxy(cfg, s, r);
    var l := LastLink(s.hist.walks[r]);
    WillingRunKeeps(cfg, Start(cfg), steps, s, l);
    assert !Choosable(cfg, s.hist, l, to);
  }
}
