/**
 A whole network of relay ledgers for one CID, with the messages in flight.  Ledgers of
 different CIDs never interact (see RelayManager.ProcessForwards), so the runs of one CID
 are all there is.  Every handler is one atomic step; the peer picked by the forwarder, the
 random draw, message order and duplication are all left open.
 */
module RelayNetwork {
  import opened Cardinality
  import opened Options
  import opened RelayLedger

  datatype Link = Link(src: Peer, dst: Peer)

  datatype Position = Position(requestor: Peer, index: nat)

  /** History only, read by no step: the node path of each requestor's search so far, and for
      every directed link that ever carried the want, its place in those walks. */
  datatype History = History(walks: map<Peer, seq<Peer>>, owner: map<Link, Position>)

  /** A forward-have travelling from `src` to `dst`; `trail` (history again) lists the nodes
      that sent it so far, starting with the proxy. */
  datatype Have = Have(src: Peer, dst: Peer, trail: seq<Peer>)

  /** The directed links along which peers may be connected. */
  datatype Config = Config(peers: set<Peer>, links: set<Link>)

  type Nodes = map<Peer, Ledger>

  datatype Net = Net(
    nodes: Nodes,
    wants: multiset<Link>,
    haves: multiset<Have>,
    delivered: set<seq<Peer>>,
    hist: History)

  datatype Step =
    | Search(requestor: Peer, to: Peer)
    | Want(link: Link, choice: Choice)
    | Duplicate(link: Link)
    | Close(node: Peer, returnTo: Peer)
    | Discover(node: Peer, returnTo: Peer)
    | Relay(have: Have)

  ghost predicate GoodConfig(cfg: Config) {
    forall l :: l in cfg.links ==> l.src in cfg.peers && l.dst in cfg.peers && l.src != l.dst
  }

  ghost function Start(cfg: Config): Net {
    Net(map p | p in cfg.peers :: EMPTY, multiset{}, multiset{}, {}, History(map[], map[]))
  }

  /** When a step can happen.  The forwarder answers with a connected peer outside the
      excluded set or with an error; a node searches for the CID at most once. */
  ghost predicate Enabled(cfg: Config, s: Net, step: Step) {
    match step
    case Search(r, to) =>
      r in s.nodes && r !in s.nodes[r].from && Link(r, to) in cfg.links && to !in s.nodes[r].from.Values
    case Want(l, ch) =>
      && l in s.wants && l.dst in s.nodes
      && (ch.sentTo.Some? ==> Link(l.dst, ch.sentTo.value) in cfg.links)
      && Fresh(s.nodes[l.dst], l.src, ch)
    case Duplicate(l) =>
      // A message queue may send a want again over a link that already carried it.
      l.src in s.nodes && l.dst in s.nodes[l.src].from.Values
    case Close(n, a) => n in s.nodes && a in s.nodes[n].proxied
    case Discover(n, a) => n in s.nodes && a in s.nodes[n].proxied
    case Relay(h) => h in s.haves && h.dst in s.nodes
  }

  ghost function Apply(cfg: Config, s: Net, step: Step): Net
    requires Enabled(cfg, s, step)
  {
    match step
    case Search(r, to) => ApplySearch(s, r, to)
    case Want(l, ch) => ApplyWant(s, l, ch)
    case Duplicate(l) => s.(wants := s.wants + multiset{l})
    case Close(n, a) =>
      s.(nodes := s.nodes[n := s.nodes[n].(proxied := s.nodes[n].proxied[a := false])])
    case Discover(n, a) => s.(haves := s.haves + multiset{Have(n, a, [n])})
    case Relay(h) => ApplyRelay(s, h)
  }

  ghost function ApplySearch(s: Net, r: Peer, to: Peer): Net
    requires r in s.nodes
  {
    s.(nodes := s.nodes[r := Record(s.nodes[r], r, to)],
       wants := s.wants + multiset{Link(r, to)},
       hist := History(s.hist.walks[r := [r, to]], s.hist.owner[Link(r, to) := Position(r, 0)]))
  }

  ghost function ApplyWant(s: Net, l: Link, ch: Choice): Net
    requires l.dst in s.nodes
  {
    var (ledger, effect) := ProcessOne(s.nodes[l.dst], l.src, ch);
    var s1 := s.(nodes := s.nodes[l.dst := ledger], wants := s.wants - multiset{l});
    match effect
    case Ignored => s1
    case StartedProxy => s1
    case Resent(to) => s1.(wants := s1.wants + multiset{Link(l.dst, to)})
    case Forwarded(to) => s1.(wants := s1.wants + multiset{Link(l.dst, to)}, hist := Extend(s.hist, l, to))
  }

  /** The walk that owns `l` grows by one hop to `to`. */
  ghost function Extend(h: History, l: Link, to: Peer): History {
    if l in h.owner && h.owner[l].requestor in h.walks then
      var Position(r, i) := h.owner[l];
      History(h.walks[r := h.walks[r] + [to]], h.owner[Link(l.dst, to) := Position(r, i + 1)])
    else h
  }

  ghost function ApplyRelay(s: Net, h: Have): Net
    requires h.dst in s.nodes
  {
    var s1 := s.(haves := s.haves - multiset{h});
    match HaveActionFor(s.nodes[h.dst], h.dst, h.src)
    case Drop => s1
    case NotifySession => s1.(delivered := s1.delivered + {h.trail + [h.dst]})
    case RelayTo(to) => s1.(haves := s1.haves + multiset{Have(h.dst, to, h.trail + [h.dst])})
  }

  // ---------- the invariant ----------
  // Each clause is a predicate about one link, entry or walk, so that a proof says which of
  // them it uses.

  ghost predicate At(h: History, l: Link, p: Position) {
    && p.requestor in h.walks
    && p.index + 1 < |h.walks[p.requestor]|
    && h.walks[p.requestor][p.index] == l.src
    && h.walks[p.requestor][p.index + 1] == l.dst
  }

  ghost predicate WalkOk(h: History, r: Peer) {
    r in h.walks ==> |h.walks[r]| >= 2 && h.walks[r][0] == r
  }

  ghost predicate OwnedOk(cfg: Config, h: History, l: Link) {
    l in h.owner ==> l in cfg.links && At(h, l, h.owner[l])
  }

  /** `owner` maps each used link to its one place in the walks, and nothing else. */
  ghost predicate WalksOk(cfg: Config, h: History) {
    && (forall r :: WalkOk(h, r))
    && (forall l :: OwnedOk(cfg, h, l))
    && (forall l, r, i: nat :: At(h, l, Position(r, i)) ==> l in h.owner && h.owner[l] == Position(r, i))
  }

  /** The ledger key under which the link at position `p` was recorded: the previous node of
      the walk, or the requestor itself. */
  ghost function Source(h: History, p: Position): Peer
    requires p.requestor in h.walks && p.index < |h.walks[p.requestor]|
  {
    if p.index == 0 then h.walks[p.requestor][0] else h.walks[p.requestor][p.index - 1]
  }

  ghost predicate NodeOk(nodes: Nodes, b: Peer) {
    b in nodes ==> Inverse(nodes[b])
  }

  /** A recorded hop a -> b -> c continues a used link, and does not hand the want back. */
  ghost predicate EntryOk(nodes: Nodes, h: History, b: Peer, a: Peer) {
    b in nodes && a in nodes[b].from ==>
      var c := nodes[b].from[a];
      && Link(b, c) in h.owner && c != a
      && (a == b ==> h.owner[Link(b, c)] == Position(b, 0))
      && (a != b ==> Link(a, b) in h.owner)
  }

  ghost predicate RecordedOk(nodes: Nodes, h: History, l: Link) {
    l in h.owner && l.src in nodes && At(h, l, h.owner[l]) ==>
      var a := Source(h, h.owner[l]);
      a in nodes[l.src].from && nodes[l.src].from[a] == l.dst
  }

  ghost predicate ProxyOk(nodes: Nodes, h: History, b: Peer, a: Peer) {
    b in nodes && a in nodes[b].proxied ==> Link(a, b) in h.owner
  }

  ghost predicate LedgersOk(nodes: Nodes, h: History) {
    && (forall b :: NodeOk(nodes, b))
    && (forall b, a :: EntryOk(nodes, h, b, a))
    && (forall l :: RecordedOk(nodes, h, l))
    && (forall b, a :: ProxyOk(nodes, h, b, a))
  }

  /** The ledgers agree with the walks. */
  ghost predicate RoutesOk(cfg: Config, nodes: Nodes, h: History) {
    match cfg
    case Config(peers, links) =>
      GoodConfig(cfg) && nodes.Keys == peers && WalksOk(cfg, h) && LedgersOk(nodes, h)
  }

  ghost function LastLink(w: seq<Peer>): Link
    requires |w| >= 2
  {
    Link(w[|w| - 2], w[|w| - 1])
  }

  ghost predicate IsProxied(nodes: Nodes, l: Link) {
    l.dst in nodes && l.src in nodes[l.dst].proxied
  }

  /** The last link of a walk still carries the want, or has reached a proxy. */
  ghost predicate TailOk(nodes: Nodes, wants: multiset<Link>, h: History, r: Peer) {
    r in h.walks && |h.walks[r]| >= 2 ==>
      LastLink(h.walks[r]) in wants || IsProxied(nodes, LastLink(h.walks[r]))
  }

  ghost predicate WantOk(wants: multiset<Link>, h: History, l: Link) {
    l in wants ==> l in h.owner
  }

  ghost predicate WantsOk(nodes: Nodes, wants: multiset<Link>, h: History) {
    && (forall l :: WantOk(wants, h, l))
    && (forall r :: TailOk(nodes, wants, h, r))
  }

  /** `trail` is the stretch of walk `w` after index `i` up to a proxy, read backwards. */
  ghost predicate Retraces(nodes: Nodes, trail: seq<Peer>, w: seq<Peer>, i: nat) {
    && |trail| >= 1 && i + |trail| < |w|
    && (forall j :: 0 <= j < |trail| ==> trail[j] == w[i + |trail| - j])
    && IsProxied(nodes, Link(w[i + |trail| - 1], trail[0]))
  }

  ghost predicate HaveOk(nodes: Nodes, h: History, have: Have) {
    var l := Link(have.dst, have.src);
    && l in h.owner && h.owner[l].requestor in h.walks
    && Retraces(nodes, have.trail, h.walks[h.owner[l].requestor], h.owner[l].index)
  }

  ghost predicate DeliveredOk(nodes: Nodes, h: History, t: seq<Peer>) {
    && |t| >= 2 && t[|t| - 1] in h.walks
    && Retraces(nodes, t[..|t| - 1], h.walks[t[|t| - 1]], 0)
  }

  ghost predicate InFlightOk(nodes: Nodes, h: History, haves: multiset<Have>, have: Have) {
    have in haves ==> HaveOk(nodes, h, have)
  }

  ghost predicate ArrivedOk(nodes: Nodes, h: History, delivered: set<seq<Peer>>, t: seq<Peer>) {
    t in delivered ==> DeliveredOk(nodes, h, t)
  }

  ghost predicate HavesOk(nodes: Nodes, h: History, haves: multiset<Have>, delivered: set<seq<Peer>>) {
    && (forall have :: InFlightOk(nodes, h, haves, have))
    && (forall t :: ArrivedOk(nodes, h, delivered, t))
  }

  ghost predicate Inv(cfg: Config, s: Net) {
    match s
    case Net(nodes, wants, haves, delivered, hist) =>
      RoutesOk(cfg, nodes, hist) && WantsOk(nodes, wants, hist) && HavesOk(nodes, hist, haves, delivered)
  }

  // ---------- what the invariant says about one link ----------

  /** A used link sits at its place in a walk and in the ledger of its sender. */
  lemma Used(cfg: Config, nodes: Nodes, h: History, l: Link)
    requires RoutesOk(cfg, nodes, h) && l in h.owner
    ensures l in cfg.links && l.src in nodes && l.dst in nodes && l.src != l.dst
    ensures At(h, l, h.owner[l])
    ensures var a := Source(h, h.owner[l]); a in nodes[l.src].from && nodes[l.src].from[a] == l.dst
  {
    assert OwnedOk(cfg, h, l);
    assert RecordedOk(nodes, h, l);
  }

  /** Consecutive nodes of a walk are joined by a link owned by that place of the walk. */
  lemma OnWalk(cfg: Config, h: History, r: Peer, i: nat)
    requires WalksOk(cfg, h) && r in h.walks && i + 1 < |h.walks[r]|
    ensures var l := Link(h.walks[r][i], h.walks[r][i + 1]);
            l in h.owner && h.owner[l] == Position(r, i)
  {
    assert At(h, Link(h.walks[r][i], h.walks[r][i + 1]), Position(r, i));
  }

  /** A link a ledger is about to use for the first time carried nothing before. */
  lemma FreshLink(cfg: Config, nodes: Nodes, h: History, b: Peer, to: Peer)
    requires RoutesOk(cfg, nodes, h) && b in nodes && to !in nodes[b].from.Values
    ensures Link(b, to) !in h.owner
  {
    if Link(b, to) in h.owner { Used(cfg, nodes, h, Link(b, to)); }
  }

  /** A want arriving over `l` at a node that has no entry for it is at the end of its walk. */
  lemma EndOfWalk(cfg: Config, nodes: Nodes, h: History, l: Link)
    requires RoutesOk(cfg, nodes, h) && l in h.owner && l.dst in nodes && l.src !in nodes[l.dst].from
    ensures var Position(r, i) := h.owner[l]; At(h, l, Position(r, i)) && i + 2 == |h.walks[r]|
  {
    var Position(r, i) := h.owner[l];
    Used(cfg, nodes, h, l);
    if i + 2 < |h.walks[r]| {
      OnWalk(cfg, h, r, i + 1);
      Used(cfg, nodes, h, Link(h.walks[r][i + 1], h.walks[r][i + 2]));
    }
  }

  /** A link that the receiving ledger continues is not the last one of its walk. */
  lemma NotEndOfWalk(cfg: Config, nodes: Nodes, h: History, l: Link)
    requires RoutesOk(cfg, nodes, h) && l in h.owner && l.dst in nodes && l.src in nodes[l.dst].from
    ensures var Position(r, i) := h.owner[l]; At(h, l, Position(r, i)) && i + 2 < |h.walks[r]|
  {
    Used(cfg, nodes, h, l);
    assert EntryOk(nodes, h, l.dst, l.src);
    var next := Link(l.dst, nodes[l.dst].from[l.src]);
    Used(cfg, nodes, h, next);
    var Position(q, j) := h.owner[next];
    assert WalkOk(h, q);
    // The ledger is injective, so the entry that produced `next` is the one for l.src.
    assert NodeOk(nodes, l.dst);
    assert Source(h, Position(q, j)) == l.src;
    assert At(h, l, Position(q, j - 1));
  }

  // ---------- one more hop ----------

  /** `h'` is `h` with walk `r` grown by its last hop, over a link that was not used before. */
  ghost predicate Hop(cfg: Config, h: History, h': History, r: Peer, w: seq<Peer>) {
    && |w| >= 2 && w[0] == r
    && (if r in h.walks then w[..|w| - 1] == h.walks[r] else |w| == 2)
    && LastLink(w) in cfg.links && LastLink(w) !in h.owner
    && h'.walks == h.walks[r := w]
    && h'.owner == h.owner[LastLink(w) := Position(r, |w| - 2)]
  }

  lemma AtAfterHop(cfg: Config, h: History, h': History, r: Peer, w: seq<Peer>, l: Link)
    requires WalksOk(cfg, h) && Hop(cfg, h, h', r, w) && l in h.owner
    ensures l in cfg.links && At(h, l, h.owner[l]) && At(h', l, h.owner[l])
    ensures Source(h', h.owner[l]) == Source(h, h.owner[l])
  {
    assert OwnedOk(cfg, h, l);
    if h.owner[l].requestor == r { assert h.walks[r] == w[..|w| - 1]; }
  }

  lemma WalksAfterHop(cfg: Config, h: History, h': History, r: Peer, w: seq<Peer>)
    requires WalksOk(cfg, h) && Hop(cfg, h, h', r, w)
    ensures WalksOk(cfg, h')
  {
    forall q ensures WalkOk(h', q) { assert WalkOk(h, q); }
    forall l ensures OwnedOk(cfg, h', l) {
      if l in h.owner { AtAfterHop(cfg, h, h', r, w, l); }
    }
    forall l, q, i: nat | At(h', l, Position(q, i))
      ensures l in h'.owner && h'.owner[l] == Position(q, i)
    {
      if q != r || i != |w| - 2 {
        if q == r { assert h.walks[r] == w[..|w| - 1]; }
        assert At(h, l, Position(q, i));
      }
    }
  }

  /** The hop a -> b -> to, as node `b` records it. */
  ghost predicate RecordsHop(nodes: Nodes, h: History, w: seq<Peer>, a: Peer, b: Peer, to: Peer)
    requires |w| >= 2
  {
    && b in nodes && a != to && a !in nodes[b].from && to !in nodes[b].from.Values
    && LastLink(w) == Link(b, to)
    && if |w| == 2 then a == b == w[0] else a == w[|w| - 3] && a != b && Link(a, b) in h.owner
  }

  lemma RoutesAfterHop(cfg: Config, nodes: Nodes, h: History, h': History,
                       r: Peer, w: seq<Peer>, a: Peer, b: Peer, to: Peer)
    requires RoutesOk(cfg, nodes, h) && Hop(cfg, h, h', r, w) && RecordsHop(nodes, h, w, a, b, to)
    ensures RoutesOk(cfg, nodes[b := Record(nodes[b], a, to)], h')
  {
    var nodes' := nodes[b := Record(nodes[b], a, to)];
    WalksAfterHop(cfg, h, h', r, w);
    assert NodeOk(nodes', b) by {
      assert NodeOk(nodes, b);
      RecordKeepsInverse(nodes[b], a, to);
    }
    forall q ensures NodeOk(nodes', q) { assert NodeOk(nodes, q); }
    forall q, x ensures EntryOk(nodes', h', q, x) { assert EntryOk(nodes, h, q, x); }
    forall q, x ensures ProxyOk(nodes', h', q, x) { assert ProxyOk(nodes, h, q, x); }
    forall l ensures RecordedOk(nodes', h', l) {
      if l in h.owner { RecordedAfterHop(cfg, nodes, h, h', r, w, a, b, to, l); }
    }
  }

  lemma RecordedAfterHop(cfg: Config, nodes: Nodes, h: History, h': History,
                         r: Peer, w: seq<Peer>, a: Peer, b: Peer, to: Peer, l: Link)
    requires WalksOk(cfg, h) && Hop(cfg, h, h', r, w) && RecordsHop(nodes, h, w, a, b, to)
    requires l in h.owner && RecordedOk(nodes, h, l)
    ensures RecordedOk(nodes[b := Record(nodes[b], a, to)], h', l)
  {
    AtAfterHop(cfg, h, h', r, w, l);
  }

  /** The history and the proxy sets only grow. */
  ghost predicate Grows(nodes: Nodes, h: History, nodes': Nodes, h': History) {
    && (forall r :: r in h.walks ==> r in h'.walks && h.walks[r] <= h'.walks[r])
    && (forall l :: l in h.owner ==> l in h'.owner && h'.owner[l] == h.owner[l])
    && (forall l :: IsProxied(nodes, l) ==> IsProxied(nodes', l))
  }

  lemma HavesStable(nodes: Nodes, h: History, nodes': Nodes, h': History, haves: multiset<Have>, delivered: set<seq<Peer>>)
    requires Grows(nodes, h, nodes', h') && HavesOk(nodes, h, haves, delivered)
    ensures HavesOk(nodes', h', haves, delivered)
  {
    forall have ensures InFlightOk(nodes', h', haves, have) { assert InFlightOk(nodes, h, haves, have); }
    forall t ensures ArrivedOk(nodes', h', delivered, t) { assert ArrivedOk(nodes, h, delivered, t); }
  }

  lemma GrowsByHop(cfg: Config, nodes: Nodes, h: History, h': History,
                   r: Peer, w: seq<Peer>, a: Peer, b: Peer, to: Peer)
    requires Hop(cfg, h, h', r, w) && b in nodes
    ensures Grows(nodes, h, nodes[b := Record(nodes[b], a, to)], h')
  {
    if r in h.walks { assert h.walks[r] == w[..|w| - 1] <= w; }
  }

  lemma WantsAfterHop(cfg: Config, nodes: Nodes, h: History, nodes': Nodes, h': History,
                      r: Peer, w: seq<Peer>, wants: multiset<Link>, wants': multiset<Link>)
    requires WalksOk(cfg, h) && WantsOk(nodes, wants, h) && Hop(cfg, h, h', r, w) && Grows(nodes, h, nodes', h')
    requires LastLink(w) in wants'
    requires forall l :: l in wants' ==> l in wants || l == LastLink(w)
    requires forall l :: l in wants ==> l in wants' || (l in h.owner && h.owner[l].requestor == r)
    ensures WantsOk(nodes', wants', h')
  {
    forall l ensures WantOk(wants', h', l) { assert WantOk(wants, h, l); }
    forall q ensures TailOk(nodes', wants', h', q) {
      if q != r && q in h.walks && |h.walks[q]| >= 2 {
        assert TailOk(nodes, wants, h, q);
        OnWalk(cfg, h, q, |h.walks[q]| - 2);
      }
    }
  }

  /** Everything after one more hop, put together. */
  lemma HopKeeps(cfg: Config, s: Net, s': Net, r: Peer, w: seq<Peer>, a: Peer, b: Peer, to: Peer)
    requires Inv(cfg, s) && Hop(cfg, s.hist, s'.hist, r, w) && RecordsHop(s.nodes, s.hist, w, a, b, to)
    requires s'.nodes == s.nodes[b := Record(s.nodes[b], a, to)]
    requires s'.haves == s.haves && s'.delivered == s.delivered && Link(b, to) in s'.wants
    requires forall l :: l in s'.wants ==> l in s.wants || l == Link(b, to)
    requires forall l :: l in s.wants ==> l in s'.wants || (l in s.hist.owner && s.hist.owner[l].requestor == r)
    ensures Inv(cfg, s') && |s'.hist.owner| == |s.hist.owner| + 1
  {
    RoutesAfterHop(cfg, s.nodes, s.hist, s'.hist, r, w, a, b, to);
    GrowsByHop(cfg, s.nodes, s.hist, s'.hist, r, w, a, b, to);
    WantsAfterHop(cfg, s.nodes, s.hist, s'.nodes, s'.hist, r, w, s.wants, s'.wants);
    HavesStable(s.nodes, s.hist, s'.nodes, s'.hist, s.haves, s.delivered);
    assert s'.hist.owner.Keys == s.hist.owner.Keys + {Link(b, to)};
  }

  lemma SearchKeeps(cfg: Config, s: Net, r: Peer, to: Peer)
    requires Inv(cfg, s) && Enabled(cfg, s, Search(r, to))
    ensures Inv(cfg, ApplySearch(s, r, to))
    ensures |ApplySearch(s, r, to).hist.owner| == |s.hist.owner| + 1
  {
    FreshLink(cfg, s.nodes, s.hist, r, to);
    if r in s.hist.walks {
      assert WalkOk(s.hist, r);
      OnWalk(cfg, s.hist, r, 0);
      Used(cfg, s.nodes, s.hist, Link(r, s.hist.walks[r][1]));
    }
    HopKeeps(cfg, s, ApplySearch(s, r, to), r, [r, to], r, r, to);
  }

  /** The history of a want that moves on over `l` grows the walk that owns `l`. */
  lemma ExtendIsHop(cfg: Config, nodes: Nodes, h: History, l: Link, to: Peer)
    requires RoutesOk(cfg, nodes, h) && l in h.owner && l.dst in nodes
    requires l.src !in nodes[l.dst].from && to !in nodes[l.dst].from.Values
    requires l.src != to && Link(l.dst, to) in cfg.links
    ensures var r := h.owner[l].requestor;
            && r in h.walks
            && Hop(cfg, h, Extend(h, l, to), r, h.walks[r] + [to])
            && RecordsHop(nodes, h, h.walks[r] + [to], l.src, l.dst, to)
  {
    EndOfWalk(cfg, nodes, h, l);
    Used(cfg, nodes, h, l);
    FreshLink(cfg, nodes, h, l.dst, to);
    var r := h.owner[l].requestor;
    var w := h.walks[r] + [to];
    assert WalkOk(h, r);
    assert w[..|w| - 1] == h.walks[r];
    assert LastLink(w) == Link(l.dst, to);
  }

  lemma ForwardKeeps(cfg: Config, s: Net, l: Link, ch: Choice)
    requires Inv(cfg, s) && Enabled(cfg, s, Want(l, ch))
    requires ProcessOne(s.nodes[l.dst], l.src, ch).1.Forwarded?
    ensures Inv(cfg, ApplyWant(s, l, ch))
    ensures |ApplyWant(s, l, ch).hist.owner| == |s.hist.owner| + 1
  {
    var to := ch.sentTo.value;
    assert WantOk(s.wants, s.hist, l);
    ExtendIsHop(cfg, s.nodes, s.hist, l, to);
    var r := s.hist.owner[l].requestor;
    HopKeeps(cfg, s, ApplyWant(s, l, ch), r, s.hist.walks[r] + [to], l.src, l.dst, to);
  }

  // ---------- steps that change no route ----------

  ghost predicate SameRoutes(nodes: Nodes, nodes': Nodes, h: History) {
    && nodes'.Keys == nodes.Keys
    && (forall b :: b in nodes ==> nodes'[b].from == nodes[b].from && nodes'[b].to == nodes[b].to)
    && (forall l :: IsProxied(nodes, l) ==> IsProxied(nodes', l))
    && (forall l :: IsProxied(nodes', l) ==> IsProxied(nodes, l) || l in h.owner)
  }

  lemma RoutesKept(cfg: Config, nodes: Nodes, nodes': Nodes, h: History)
    requires RoutesOk(cfg, nodes, h) && SameRoutes(nodes, nodes', h)
    ensures RoutesOk(cfg, nodes', h)
  {
    forall b ensures NodeOk(nodes', b) { assert NodeOk(nodes, b); }
    forall b, a ensures EntryOk(nodes', h, b, a) { assert EntryOk(nodes, h, b, a); }
    forall b, a ensures ProxyOk(nodes', h, b, a) {
      assert ProxyOk(nodes, h, b, a);
      assert IsProxied(nodes', Link(a, b)) ==> IsProxied(nodes, Link(a, b)) || Link(a, b) in h.owner;
    }
    forall l ensures RecordedOk(nodes', h, l) { assert RecordedOk(nodes, h, l); }
  }

  /** The want over `gone` is still on the wire, was answered by a proxy, or went further. */
  ghost predicate Accounted(nodes: Nodes, nodes': Nodes, wants': multiset<Link>, h: History, gone: Link) {
    || gone in wants'
    || IsProxied(nodes', gone)
    || (gone in h.owner && gone.dst in nodes && gone.src in nodes[gone.dst].from)
  }

  lemma WantsKept(cfg: Config, s: Net, s': Net, gone: Link)
    requires Inv(cfg, s) && SameRoutes(s.nodes, s'.nodes, s.hist) && s'.hist == s.hist
    requires Accounted(s.nodes, s'.nodes, s'.wants, s.hist, gone)
    requires forall l :: l in s'.wants ==> l in s.wants || l in s.hist.owner
    requires forall l :: l in s.wants && l != gone ==> l in s'.wants
    ensures WantsOk(s'.nodes, s'.wants, s'.hist)
  {
    forall l ensures WantOk(s'.wants, s'.hist, l) { assert WantOk(s.wants, s.hist, l); }
    forall q ensures TailOk(s'.nodes, s'.wants, s'.hist, q) {
      assert TailOk(s.nodes, s.wants, s.hist, q);
      if q in s.hist.walks && |s.hist.walks[q]| >= 2 && LastLink(s.hist.walks[q]) == gone {
        OnWalk(cfg, s.hist, q, |s.hist.walks[q]| - 2);
        if gone.dst in s.nodes && gone.src in s.nodes[gone.dst].from {
          NotEndOfWalk(cfg, s.nodes, s.hist, gone);
        }
      }
    }
  }

  lemma SameRoutesKeep(cfg: Config, s: Net, s': Net, gone: Link)
    requires Inv(cfg, s) && SameRoutes(s.nodes, s'.nodes, s.hist) && s'.hist == s.hist
    requires s'.haves == s.haves && s'.delivered == s.delivered
    requires Accounted(s.nodes, s'.nodes, s'.wants, s.hist, gone)
    requires forall l :: l in s'.wants ==> l in s.wants || l in s.hist.owner
    requires forall l :: l in s.wants && l != gone ==> l in s'.wants
    ensures Inv(cfg, s')
  {
    RoutesKept(cfg, s.nodes, s'.nodes, s.hist);
    WantsKept(cfg, s, s', gone);
    HavesStable(s.nodes, s.hist, s'.nodes, s'.hist, s.haves, s.delivered);
  }

  /** The ledger after a want that did not move on: the routes are as before. */
  lemma Absorbed(nodes: Nodes, h: History, l: Link, ch: Choice)
    requires l.dst in nodes && l in h.owner && !ProcessOne(nodes[l.dst], l.src, ch).1.Forwarded?
    ensures var (ledger, effect) := ProcessOne(nodes[l.dst], l.src, ch);
            var nodes' := nodes[l.dst := ledger];
            && SameRoutes(nodes, nodes', h)
            && (IsProxied(nodes', l) || l.src in nodes[l.dst].from)
            && (effect.Resent? ==> l.src in nodes[l.dst].from && effect.to == nodes[l.dst].from[l.src])
  {
  }

  /** A want that is ignored, sent again or answered by becoming the proxy. */
  lemma AbsorbKeeps(cfg: Config, s: Net, l: Link, ch: Choice)
    requires Inv(cfg, s) && Enabled(cfg, s, Want(l, ch))
    requires !ProcessOne(s.nodes[l.dst], l.src, ch).1.Forwarded?
    ensures Inv(cfg, ApplyWant(s, l, ch))
    ensures ApplyWant(s, l, ch).hist == s.hist
  {
    assert WantOk(s.wants, s.hist, l);
    assert EntryOk(s.nodes, s.hist, l.dst, l.src);
    Absorbed(s.nodes, s.hist, l, ch);
    var s' := ApplyWant(s, l, ch);
    assert s'.hist == s.hist && s'.haves == s.haves && s'.delivered == s.delivered;
    assert SameRoutes(s.nodes, s'.nodes, s.hist);
    assert Accounted(s.nodes, s'.nodes, s'.wants, s.hist, l);
    SameRoutesKeep(cfg, s, s', l);
  }

  lemma DuplicateKeeps(cfg: Config, s: Net, l: Link)
    requires Inv(cfg, s) && Enabled(cfg, s, Duplicate(l))
    ensures Inv(cfg, Apply(cfg, s, Duplicate(l)))
  {
    var a :| a in s.nodes[l.src].from && s.nodes[l.src].from[a] == l.dst;
    assert EntryOk(s.nodes, s.hist, l.src, a);
    SameRoutesKeep(cfg, s, Apply(cfg, s, Duplicate(l)), l);
  }

  lemma CloseKeeps(cfg: Config, s: Net, n: Peer, a: Peer)
    requires Inv(cfg, s) && Enabled(cfg, s, Close(n, a))
    ensures Inv(cfg, Apply(cfg, s, Close(n, a)))
  {
    assert ProxyOk(s.nodes, s.hist, n, a);
    SameRoutesKeep(cfg, s, Apply(cfg, s, Close(n, a)), Link(a, n));
  }

  // ---------- answers ----------

  lemma HavesReplaced(nodes: Nodes, h: History, haves: multiset<Have>, delivered: set<seq<Peer>>,
                      haves': multiset<Have>, delivered': set<seq<Peer>>)
    requires HavesOk(nodes, h, haves, delivered)
    requires forall have :: have in haves' ==> have in haves || HaveOk(nodes, h, have)
    requires forall t :: t in delivered' ==> t in delivered || DeliveredOk(nodes, h, t)
    ensures HavesOk(nodes, h, haves', delivered')
  {
    forall have ensures InFlightOk(nodes, h, haves', have) { assert InFlightOk(nodes, h, haves, have); }
    forall t ensures ArrivedOk(nodes, h, delivered', t) { assert ArrivedOk(nodes, h, delivered, t); }
  }

  lemma DiscoverKeeps(cfg: Config, s: Net, n: Peer, a: Peer)
    requires Inv(cfg, s) && Enabled(cfg, s, Discover(n, a))
    ensures Inv(cfg, Apply(cfg, s, Discover(n, a)))
  {
    assert ProxyOk(s.nodes, s.hist, n, a);
    Used(cfg, s.nodes, s.hist, Link(a, n));
    assert HaveOk(s.nodes, s.hist, Have(n, a, [n]));
    HavesReplaced(s.nodes, s.hist, s.haves, s.delivered, s.haves + multiset{Have(n, a, [n])}, s.delivered);
  }

  /** What a node does with a forward-have is decided by the walk it retraces: one hop back,
      or delivery when the walk's start is reached.  It is never dropped. */
  lemma RelayFollowsWalk(cfg: Config, nodes: Nodes, h: History, have: Have)
    requires RoutesOk(cfg, nodes, h) && HaveOk(nodes, h, have)
    ensures var Position(r, i) := h.owner[Link(have.dst, have.src)];
            && r in h.walks && i < |h.walks[r]| && have.dst == h.walks[r][i] && have.dst in nodes
            && HaveActionFor(nodes[have.dst], have.dst, have.src) ==
                 if i == 0 then NotifySession else RelayTo(h.walks[r][i - 1])
  {
    var l := Link(have.dst, have.src);
    Used(cfg, nodes, h, l);
    assert NodeOk(nodes, l.src);
    var Position(r, i) := h.owner[l];
    if i > 0 {
      OnWalk(cfg, h, r, i - 1);
      Used(cfg, nodes, h, Link(h.walks[r][i - 1], h.walks[r][i]));
    }
  }

  /** After one relay step the answer retraces one hop more. */
  lemma TrailGrows(cfg: Config, nodes: Nodes, h: History, have: Have)
    requires RoutesOk(cfg, nodes, h) && HaveOk(nodes, h, have)
    ensures var Position(r, i) := h.owner[Link(have.dst, have.src)];
            var t := have.trail + [have.dst];
            && r in h.walks && i < |h.walks[r]|
            && (i == 0 ==> DeliveredOk(nodes, h, t))
            && (i > 0 ==> HaveOk(nodes, h, Have(have.dst, h.walks[r][i - 1], t)))
  {
    RelayFollowsWalk(cfg, nodes, h, have);
    var Position(r, i) := h.owner[Link(have.dst, have.src)];
    var t := have.trail + [have.dst];
    assert WalkOk(h, r);
    if i == 0 {
      assert t[..|t| - 1] == have.trail;
    } else {
      OnWalk(cfg, h, r, i - 1);
      assert Retraces(nodes, t, h.walks[r], i - 1);
    }
  }

  lemma RelayKeeps(cfg: Config, s: Net, h: Have)
    requires Inv(cfg, s) && h in s.haves
    ensures h.dst in s.nodes && Inv(cfg, ApplyRelay(s, h))
  {
    assert InFlightOk(s.nodes, s.hist, s.haves, h);
    RelayFollowsWalk(cfg, s.nodes, s.hist, h);
    TrailGrows(cfg, s.nodes, s.hist, h);
    var s' := ApplyRelay(s, h);
    if s.hist.owner[Link(h.dst, h.src)].index == 0 {
      assert HaveActionFor(s.nodes[h.dst], h.dst, h.src) == NotifySession;
    } else {
      assert HaveActionFor(s.nodes[h.dst], h.dst, h.src).RelayTo?;
    }
    HavesReplaced(s.nodes, s.hist, s.haves, s.delivered, s'.haves, s'.delivered);
  }

  // ---------- every step, every run ----------

  lemma StartInv(cfg: Config)
    requires GoodConfig(cfg)
    ensures Inv(cfg, Start(cfg))
  {
  }

  /** The step sends the want to a peer it was not sent to before. */
  ghost predicate SendsOn(s: Net, step: Step) {
    || step.Search?
    || (step.Want? && step.link.dst in s.nodes
        && ProcessOne(s.nodes[step.link.dst], step.link.src, step.choice).1.Forwarded?)
  }

  /** Every step keeps the invariant, and uses a new link exactly when it sends the want on. */
  lemma StepKeeps(cfg: Config, s: Net, step: Step)
    requires Inv(cfg, s) && Enabled(cfg, s, step)
    ensures Inv(cfg, Apply(cfg, s, step))
    ensures |Apply(cfg, s, step).hist.owner| == |s.hist.owner| + if SendsOn(s, step) then 1 else 0
  {
    match step
    case Search(r, to) => SearchKeeps(cfg, s, r, to);
    case Want(l, ch) =>
      if ProcessOne(s.nodes[l.dst], l.src, ch).1.Forwarded? {
        ForwardKeeps(cfg, s, l, ch);
      } else {
        AbsorbKeeps(cfg, s, l, ch);
      }
    case Duplicate(l) => DuplicateKeeps(cfg, s, l);
    case Close(n, a) => CloseKeeps(cfg, s, n, a);
    case Discover(n, a) => DiscoverKeeps(cfg, s, n, a);
    case Relay(h) => RelayKeeps(cfg, s, h);
  }

  ghost predicate Run(cfg: Config, s: Net, steps: seq<Step>, s': Net)
    decreases |steps|
  {
    if steps == [] then s' == s
    else Enabled(cfg, s, steps[0]) && Run(cfg, Apply(cfg, s, steps[0]), steps[1..], s')
  }

  /** How often a run sends the want to a peer that had not received it from that node. */
  ghost function Sends(cfg: Config, s: Net, steps: seq<Step>): nat
    decreases |steps|
  {
    if steps == [] || !Enabled(cfg, s, steps[0]) then 0
    else (if SendsOn(s, steps[0]) then 1 else 0) + Sends(cfg, Apply(cfg, s, steps[0]), steps[1..])
  }

  ghost predicate Reachable(cfg: Config, s: Net) {
    GoodConfig(cfg) && exists steps :: Run(cfg, Start(cfg), steps, s)
  }

  lemma {:induction false} RunKeeps(cfg: Config, s: Net, steps: seq<Step>, s': Net)
    requires Inv(cfg, s) && Run(cfg, s, steps, s')
    ensures Inv(cfg, s')
    ensures |s'.hist.owner| == |s.hist.owner| + Sends(cfg, s, steps)
    decreases |steps|
  {
    if steps != [] {
      StepKeeps(cfg, s, steps[0]);
      RunKeeps(cfg, Apply(cfg, s, steps[0]), steps[1..], s');
    }
  }

  lemma ReachableInv(cfg: Config, s: Net)
    requires Reachable(cfg, s)
    ensures Inv(cfg, s)
  {
    StartInv(cfg);
    var steps :| Run(cfg, Start(cfg), steps, s);
    RunKeeps(cfg, Start(cfg), steps, s);
  }

  // ---------- the promises ----------

  /** No walk uses a directed link twice, no two walks share one, and no hop hands the want
      straight back to the node it came from. */
  lemma WalksAreSimpleAndDisjoint(cfg: Config, s: Net, r: Peer, i: nat, q: Peer, j: nat)
    requires Reachable(cfg, s)
    requires r in s.hist.walks && i + 1 < |s.hist.walks[r]|
    requires q in s.hist.walks && j + 1 < |s.hist.walks[q]|
    ensures var (v, w) := (s.hist.walks[r], s.hist.walks[q]);
            && v[0] == r && Link(v[i], v[i + 1]) in cfg.links
            && (v[i] == w[j] && v[i + 1] == w[j + 1] ==> r == q && i == j)
            && (i > 0 ==> v[i + 1] != v[i - 1])
  {
    ReachableInv(cfg, s);
    assert WalkOk(s.hist, r);
    OnWalk(cfg, s.hist, r, i);
    OnWalk(cfg, s.hist, q, j);
    var l := Link(s.hist.walks[r][i], s.hist.walks[r][i + 1]);
    Used(cfg, s.nodes, s.hist, l);
    if i > 0 { assert EntryOk(s.nodes, s.hist, l.src, s.hist.walks[r][i - 1]); }
  }

  /** In any run, however the random draws fall, the want is sent on at most once per
      directed link of the network. */
  lemma SendsAreBounded(cfg: Config, steps: seq<Step>, s: Net)
    requires GoodConfig(cfg) && Run(cfg, Start(cfg), steps, s)
    ensures Sends(cfg, Start(cfg), steps) <= |cfg.links|
  {
    StartInv(cfg);
    RunKeeps(cfg, Start(cfg), steps, s);
    forall l | l in s.hist.owner ensures l in cfg.links { Used(cfg, s.nodes, s.hist, l); }
    SubsetCard(s.hist.owner.Keys, cfg.links);
  }

  lemma {:induction false} DistinctCard<T>(xs: seq<T>, a: set<T>)
    requires forall i :: 0 <= i < |xs| ==> xs[i] in a
    requires forall i, j :: 0 <= i < j < |xs| ==> xs[i] != xs[j]
    ensures |xs| <= |a|
  {
    if xs != [] {
      var k := |xs| - 1;
      DistinctCard(xs[..k], a - {xs[k]});
    }
  }

  ghost function LinkAt(w: seq<Peer>, i: nat): Link
    requires i + 1 < |w|
  {
    Link(w[i], w[i + 1])
  }

  lemma LinkAtOwned(cfg: Config, h: History, r: Peer, i: nat)
    requires WalksOk(cfg, h) && r in h.walks && i + 1 < |h.walks[r]|
    ensures LinkAt(h.walks[r], i) in cfg.links
    ensures LinkAt(h.walks[r], i) in h.owner && h.owner[LinkAt(h.walks[r], i)] == Position(r, i)
  {
    OnWalk(cfg, h, r, i);
    assert OwnedOk(cfg, h, LinkAt(h.walks[r], i));
  }

  lemma WalkLength(cfg: Config, h: History, r: Peer)
    requires WalksOk(cfg, h) && r in h.walks && |h.walks[r]| > 0
    ensures |h.walks[r]| <= |cfg.links| + 1
  {
    var w := h.walks[r];
    var links := seq(|w| - 1, i requires 0 <= i < |w| - 1 => LinkAt(w, i));
    forall i | 0 <= i < |links| ensures links[i] in cfg.links { LinkAtOwned(cfg, h, r, i); }
    forall i, j | 0 <= i < j < |links| ensures links[i] != links[j] {
      LinkAtOwned(cfg, h, r, i);
      LinkAtOwned(cfg, h, r, j);
    }
    DistinctCard(links, cfg.links);
  }

  /** Every walk is at most as long as the number of directed links, and once no want is in
      flight its last node is a proxy for it. */
  lemma WalksEndAtProxy(cfg: Config, s: Net, r: Peer)
    requires Reachable(cfg, s) && r in s.hist.walks
    ensures 2 <= |s.hist.walks[r]| <= |cfg.links| + 1
    ensures s.wants == multiset{} ==> IsProxied(s.nodes, LastLink(s.hist.walks[r]))
  {
    ReachableInv(cfg, s);
    assert WalkOk(s.hist, r);
    assert TailOk(s.nodes, s.wants, s.hist, r);
    WalkLength(cfg, s.hist, r);
  }

  /** At every node of every reachable network `toMap` is the exact inverse of `fromMap`. */
  lemma LedgersAreInverse(cfg: Config, s: Net, b: Peer)
    requires Reachable(cfg, s) && b in s.nodes
    ensures Inverse(s.nodes[b])
  {
    ReachableInv(cfg, s);
    assert NodeOk(s.nodes, b);
  }

  /** A forward-have in flight goes to a peer that asked for the CID, and the receiving node
      hands it exactly one hop back along the walk, or to the session that started it. */
  lemma AnswersRetrace(cfg: Config, s: Net, h: Have)
    requires Reachable(cfg, s) && h in s.haves
    ensures h.dst in s.nodes && h.src in s.nodes[h.dst].from.Values
    ensures Link(h.dst, h.src) in s.hist.owner
    ensures var Position(r, i) := s.hist.owner[Link(h.dst, h.src)];
            && r in s.hist.walks && Retraces(s.nodes, h.trail, s.hist.walks[r], i)
            && s.hist.walks[r][i] == h.dst
            && HaveActionFor(s.nodes[h.dst], h.dst, h.src) ==
                 if i == 0 then NotifySession else RelayTo(s.hist.walks[r][i - 1])
  {
    ReachableInv(cfg, s);
    assert InFlightOk(s.nodes, s.hist, s.haves, h);
    Used(cfg, s.nodes, s.hist, Link(h.dst, h.src));
    RelayFollowsWalk(cfg, s.nodes, s.hist, h);
  }

  /** What a requestor's session is told came back over its own walk, node by node, from a
      proxy of that walk, however often the walk revisits a node. */
  lemma DeliveriesRetraceWholeWalk(cfg: Config, s: Net, t: seq<Peer>)
    requires Reachable(cfg, s) && t in s.delivered
    ensures |t| >= 2
    ensures var r := t[|t| - 1];
            && r in s.hist.walks && |t| <= |s.hist.walks[r]|
            && (forall j :: 0 <= j < |t| ==> t[j] == s.hist.walks[r][|t| - 1 - j])
            && IsProxied(s.nodes, Link(t[1], t[0]))
  {
    ReachableInv(cfg, s);
    assert ArrivedOk(s.nodes, s.hist, s.delivered, t);
    assert WalkOk(s.hist, t[|t| - 1]);
    var u := t[..|t| - 1];
    assert forall j :: 0 <= j < |u| ==> u[j] == t[j];
  }

  ghost function Backwards(w: seq<Peer>, i: nat): seq<Peer>
    requires i < |w|
  {
    if i == 0 then [w[0]] else [w[i]] + Backwards(w, i - 1)
  }

  lemma BackwardsFrom(trail: seq<Peer>, w: seq<Peer>, i: nat)
    requires i < |w|
    ensures i == 0 ==> trail + Backwards(w, i) == trail + [w[0]]
    ensures i > 0 ==> trail + Backwards(w, i) == trail + [w[i]] + Backwards(w, i - 1)
  {
  }

  lemma RunCons(cfg: Config, s: Net, step: Step, rest: seq<Step>, s': Net)
    requires Enabled(cfg, s, step) && Run(cfg, Apply(cfg, s, step), rest, s')
    ensures Run(cfg, s, [step] + rest, s')
  {
    assert ([step] + rest)[1..] == rest;
  }

  /** One relay step of `h`: it takes its place one hop back on the walk, or is delivered. */
  lemma RelayOnce(cfg: Config, s: Net, h: Have, r: Peer, i: nat)
    requires Inv(cfg, s) && h in s.haves && Link(h.dst, h.src) in s.hist.owner
    requires s.hist.owner[Link(h.dst, h.src)] == Position(r, i)
    ensures r in s.hist.walks && i < |s.hist.walks[r]| && s.hist.walks[r][i] == h.dst && h.dst in s.nodes
    ensures var s' := ApplyRelay(s, h);
            && s'.hist == s.hist
            && (i == 0 ==> h.trail + [h.dst] in s'.delivered)
            && (i > 0 ==>
                  && Have(h.dst, s.hist.walks[r][i - 1], h.trail + [h.dst]) in s'.haves
                  && Link(s.hist.walks[r][i - 1], h.dst) in s.hist.owner
                  && s.hist.owner[Link(s.hist.walks[r][i - 1], h.dst)] == Position(r, i - 1))
  {
    assert InFlightOk(s.nodes, s.hist, s.haves, h);
    RelayFollowsWalk(cfg, s.nodes, s.hist, h);
    if i == 0 {
      assert HaveActionFor(s.nodes[h.dst], h.dst, h.src) == NotifySession;
    } else {
      OnWalk(cfg, s.hist, r, i - 1);
      assert HaveActionFor(s.nodes[h.dst], h.dst, h.src) == RelayTo(s.hist.walks[r][i - 1]);
    }
  }

  /** The same as a piece of a run, without saying what the step did otherwise. */
  lemma RelayRun(cfg: Config, s: Net, h: Have, r: Peer, i: nat) returns (s': Net)
    requires Inv(cfg, s) && h in s.haves && Link(h.dst, h.src) in s.hist.owner
    requires s.hist.owner[Link(h.dst, h.src)] == Position(r, i)
    ensures r in s.hist.walks && i < |s.hist.walks[r]| && s.hist.walks[r][i] == h.dst
    ensures Inv(cfg, s') && s'.hist == s.hist
    ensures i == 0 ==> h.trail + [h.dst] in s'.delivered
    ensures i > 0 ==>
              && Have(h.dst, s.hist.walks[r][i - 1], h.trail + [h.dst]) in s'.haves
              && Link(s.hist.walks[r][i - 1], h.dst) in s.hist.owner
              && s.hist.owner[Link(s.hist.walks[r][i - 1], h.dst)] == Position(r, i - 1)
    ensures forall rest, s'' :: Run(cfg, s', rest, s'') ==> Run(cfg, s, [Relay(h)] + rest, s'')
  {
    RelayOnce(cfg, s, h, r, i);
    RelayKeeps(cfg, s, h);
    s' := ApplyRelay(s, h);
    forall rest, s'' | Run(cfg, s', rest, s'') ensures Run(cfg, s, [Relay(h)] + rest, s'') {
      RunCons(cfg, s, Relay(h), rest, s'');
    }
  }

  /** From any state of a run, a forward-have at position `i` of its walk is relayed, by
      exactly i + 1 steps, to the requestor, and arrives having visited the walk backwards. */
  lemma {:induction false} AnswersReachRequestor(cfg: Config, s: Net, h: Have, r: Peer, i: nat)
    returns (steps: seq<Step>, s': Net)
    requires Inv(cfg, s) && h in s.haves && Link(h.dst, h.src) in s.hist.owner
    requires s.hist.owner[Link(h.dst, h.src)] == Position(r, i)
    ensures r in s.hist.walks && i < |s.hist.walks[r]|
    ensures Run(cfg, s, steps, s') && |steps| == i + 1
    ensures forall k :: 0 <= k < |steps| ==> steps[k].Relay?
    ensures h.trail + Backwards(s.hist.walks[r], i) in s'.delivered
    decreases i
  {
    var s1 := RelayRun(cfg, s, h, r, i);
    var w := s.hist.walks[r];
    BackwardsFrom(h.trail, w, i);
    var rest: seq<Step>;
    if i == 0 {
      rest, s' := [], s1;
    } else {
      rest, s' := AnswersReachRequestor(cfg, s1, Have(h.dst, w[i - 1], h.trail + [h.dst]), r, i - 1);
    }
    assert Run(cfg, s1, rest, s');
    steps := [Relay(h)] + rest;
  }
}
