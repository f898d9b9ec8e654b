/**
 One node's relay ledger (bitswap/relaymanager/relaymanager.go): for each CID, which peer
 a want-forward came from, where it was relayed to, and for which senders this node has
 become the proxy.  `Ledger` is the part of the three nested maps that belongs to one CID;
 `RelayManager` is the object that keeps all of them and updates them in place.
 */
module RelayLedger {
  import opened Options

  datatype Peer = Peer(id: nat)

  datatype Cid = Cid(id: nat)

  /** The entries of `fromMap`, `proxyMap` and `toMap` for one CID. */
  datatype Ledger = Ledger(from: map<Peer, Peer>, proxied: map<Peer, bool>, to: map<Peer, Peer>)

  const EMPTY := Ledger(map[], map[], map[])

  /** What the outside world answers while one want-forward is handled: the random draw,
      the peer chosen by ForwardWants (None for an error), and whether re-sending to a
      known receiver worked. */
  datatype Choice = Choice(becomeProxy: bool, sentTo: Option<Peer>, resent: bool)

  /** What handling one want-forward does besides updating the ledger. */
  datatype Effect = Ignored | StartedProxy | Resent(to: Peer) | Forwarded(to: Peer)

  /** The peers a fresh want-forward must not be sent to. */
  function Excludes(l: Ledger, from: Peer): (r: set<Peer>) {
    {from} + l.from.Values
  }

  predicate IsProxyFor(l: Ledger, from: Peer) {
    from in l.proxied && l.proxied[from]
  }

  function MarkProxied(l: Ledger, from: Peer): (r: Ledger) {
    l.(proxied := l.proxied[from := true])
  }

  function Record(l: Ledger, from: Peer, to: Peer): (r: Ledger) {
    l.(from := l.from[from := to], to := l.to[to := from])
  }

  /** One iteration of the ProcessForwards loop. */
  function ProcessOne(l: Ledger, from: Peer, ch: Choice): (r: (Ledger, Effect)) {
    if IsProxyFor(l, from) then (l, Ignored)
    else if from in l.from then
      if ch.resent then (l, Resent(l.from[from])) else (MarkProxied(l, from), StartedProxy)
    else if ch.becomeProxy || ch.sentTo.None? then (MarkProxied(l, from), StartedProxy)
    else (Record(l, from, ch.sentTo.value), Forwarded(ch.sentTo.value))
  }

  /** `to` is exactly the inverse of `from`. */
  ghost predicate Inverse(l: Ledger) {
    && (forall a :: a in l.from ==> l.from[a] in l.to && l.to[l.from[a]] == a)
    && (forall b :: b in l.to ==> l.to[b] in l.from && l.from[l.to[b]] == b)
  }

  /** The forwarder's promise: a fresh peer outside the excluded set, or an error. */
  ghost predicate Fresh(l: Ledger, from: Peer, ch: Choice) {
    ch.sentTo.Some? ==> ch.sentTo.value !in Excludes(l, from)
  }

  /** The exclude list keeps `fromMap` injective, so `toMap` stays its exact inverse. */
  lemma ProcessOneKeepsInverse(l: Ledger, from: Peer, ch: Choice)
    requires Inverse(l) && Fresh(l, from, ch)
    ensures Inverse(ProcessOne(l, from, ch).0)
  {
    RecordKeepsInverse(l, from, if ch.sentTo.Some? then ch.sentTo.value else from);
  }

  /** Recording a relay to a peer never used before keeps the maps inverse to each other
      exactly when the source was not recorded yet.  With `from` the node itself this is the
      condition under which ForwardSearch is safe: a second search for the same CID
      overwrites the self entry and leaves a stale `toMap` entry behind. */
  lemma RecordKeepsInverse(l: Ledger, from: Peer, to: Peer)
    requires Inverse(l)
    ensures to !in l.from.Values ==> (Inverse(Record(l, from, to)) <==> from !in l.from)
  {
    if to !in l.from.Values {
      var r := Record(l, from, to);
      assert forall b :: b in l.to ==> l.from[l.to[b]] in l.from.Values;
      if from in l.from {
        var old_to := l.from[from];
        assert old_to in l.from.Values;
        assert old_to in r.to && r.from[r.to[old_to]] != old_to;
      } else {
        forall a | a in r.from
          ensures r.from[a] in r.to && r.to[r.from[a]] == a
        {
          if a != from { assert l.from[a] in l.from.Values; }
        }
      }
    }
  }

  /** A concrete second search: the node first relays its own search to peer 1, then to peer
      2; an answer coming back from peer 1 is then no longer matched by `fromMap`. */
  lemma SecondSearchBreaksInverse()
    ensures var self := Peer(0);
            var once := Record(EMPTY, self, Peer(1));
            Inverse(once) && !Inverse(Record(once, self, Peer(2)))
  {
    var self := Peer(0);
    var once := Record(EMPTY, self, Peer(1));
    var twice := Record(once, self, Peer(2));
    assert Peer(1) in twice.to && twice.from[twice.to[Peer(1)]] == Peer(2);
  }

  /** The peer a forward-have arriving from `sender` is passed on to. */
  datatype HaveAction = Drop | NotifySession | RelayTo(to: Peer)

  function HaveActionFor(l: Ledger, self: Peer, sender: Peer): (r: HaveAction) {
    if sender !in l.to then Drop
    else if l.to[sender] == self then NotifySession
    else RelayTo(l.to[sender])
  }

  /** The ledger of `c` after the first `k` CIDs of one ProcessForwards call: the iterations
      for other CIDs do not touch it. */
  function AfterForwards(l: Ledger, c: Cid, from: Peer, forwards: seq<Cid>,
                         world: (nat, set<Peer>) -> Choice, k: nat): (r: Ledger)
    requires k <= |forwards|
  {
    if k == 0 then l
    else
      var before := AfterForwards(l, c, from, forwards, world, k - 1);
      if forwards[k - 1] == c then ProcessOne(before, from, world(k - 1, Excludes(before, from))).0
      else before
  }

  /** What the `k`-th iteration does, when its CID's ledger was `l` before the call. */
  function EffectOfForward(l: Ledger, from: Peer, forwards: seq<Cid>,
                           world: (nat, set<Peer>) -> Choice, k: nat): (r: Effect)
    requires k < |forwards|
  {
    var before := AfterForwards(l, forwards[k], from, forwards, world, k);
    ProcessOne(before, from, world(k, Excludes(before, from))).1
  }

  /** The forwarder never picks an excluded peer, whatever it is asked to exclude. */
  ghost predicate HonestForwarder(world: (nat, set<Peer>) -> Choice) {
    forall i: nat, ex: set<Peer> :: var ch := world(i, ex); ch.sentTo.Some? ==> ch.sentTo.value !in ex
  }

  /** A whole ProcessForwards call keeps every CID's maps inverse to each other. */
  lemma {:induction false} ForwardsKeepInverse(l: Ledger, c: Cid, from: Peer, forwards: seq<Cid>,
                            world: (nat, set<Peer>) -> Choice, k: nat)
    requires k <= |forwards| && Inverse(l) && HonestForwarder(world)
    ensures Inverse(AfterForwards(l, c, from, forwards, world, k))
  {
    if k > 0 {
      ForwardsKeepInverse(l, c, from, forwards, world, k - 1);
      var before := AfterForwards(l, c, from, forwards, world, k - 1);
      ProcessOneKeepsInverse(before, from, world(k - 1, Excludes(before, from)));
    }
  }

  /** The ledger of one CID; a CID never seen has an empty one. */
  function LedgerOf(fromMap: map<Cid, map<Peer, Peer>>, proxyMap: map<Cid, map<Peer, bool>>,
                    toMap: map<Cid, map<Peer, Peer>>, c: Cid): (l: Ledger)
  {
    Ledger(if c in fromMap then fromMap[c] else map[],
           if c in proxyMap then proxyMap[c] else map[],
           if c in toMap then toMap[c] else map[])
  }

  /** The three nested maps of a node. */
  datatype Maps = Maps(from: map<Cid, map<Peer, Peer>>, proxied: map<Cid, map<Peer, bool>>, to: map<Cid, map<Peer, Peer>>) {
    function At(c: Cid): (l: Ledger) {
      LedgerOf(from, proxied, to, c)
    }
  }

  predicate SameAt(a: Maps, b: Maps, c: Cid) {
    a.At(c) == b.At(c)
  }

  ghost predicate SameLedgers(a: Maps, b: Maps) {
    forall c :: SameAt(a, b, c)
  }

  predicate ProcessedAt(start: Maps, now: Maps, from: Peer, forwards: seq<Cid>,
                        world: (nat, set<Peer>) -> Choice, i: nat, c: Cid)
    requires i <= |forwards|
  {
    now.At(c) == AfterForwards(start.At(c), c, from, forwards, world, i)
  }

  /** Every CID's ledger has gone through its iterations among the first `i`. */
  ghost predicate Processed(start: Maps, now: Maps, from: Peer, forwards: seq<Cid>,
                            world: (nat, set<Peer>) -> Choice, i: nat)
    requires i <= |forwards|
  {
    forall c :: ProcessedAt(start, now, from, forwards, world, i, c)
  }

  /** One iteration: CID `c` is handled, and no other CID is touched. */
  ghost predicate Handled(before: Maps, after: Maps, from: Peer, c: Cid, ask: set<Peer> -> Choice, effect: Effect) {
    && (after.At(c), effect) == ProcessOne(before.At(c), from, ask(Excludes(before.At(c), from)))
    && forall d :: d != c ==> SameAt(before, after, d)
  }

  ghost predicate Effects(start: Maps, from: Peer, forwards: seq<Cid>, world: (nat, set<Peer>) -> Choice, effects: seq<Effect>) {
    && |effects| <= |forwards|
    && forall k :: 0 <= k < |effects| ==> effects[k] == EffectOfForward(start.At(forwards[k]), from, forwards, world, k)
  }

  lemma HandledFrom(a: Maps, b: Maps, after: Maps, from: Peer, c: Cid, ask: set<Peer> -> Choice, effect: Effect)
    requires SameLedgers(a, b) && Handled(b, after, from, c, ask, effect)
    ensures Handled(a, after, from, c, ask, effect)
  {
    assert SameAt(a, b, c);
    forall d | d != c ensures SameAt(a, after, d) { assert SameAt(a, b, d) && SameAt(b, after, d); }
  }

  lemma ProcessedNext(start: Maps, before: Maps, after: Maps, from: Peer, forwards: seq<Cid>,
                      world: (nat, set<Peer>) -> Choice, i: nat, effect: Effect)
    requires i < |forwards| && Processed(start, before, from, forwards, world, i)
    requires Handled(before, after, from, forwards[i], ex => world(i, ex), effect)
    ensures Processed(start, after, from, forwards, world, i + 1)
  {
    var n := i + 1;
    forall c ensures ProcessedAt(start, after, from, forwards, world, n, c) {
      assert ProcessedAt(start, before, from, forwards, world, i, c);
      if c != forwards[i] { assert SameAt(before, after, c); }
    }
  }

  lemma EffectsNext(start: Maps, before: Maps, after: Maps, from: Peer, forwards: seq<Cid>,
                    world: (nat, set<Peer>) -> Choice, effects: seq<Effect>, effect: Effect)
    requires |effects| < |forwards| && Processed(start, before, from, forwards, world, |effects|)
    requires Effects(start, from, forwards, world, effects)
    requires Handled(before, after, from, forwards[|effects|], ex => world(|effects|, ex), effect)
    ensures Effects(start, from, forwards, world, effects + [effect])
  {
    assert ProcessedAt(start, before, from, forwards, world, |effects|, forwards[|effects|]);
  }

  class RelayManager {
    const self: Peer
    var fromMap: map<Cid, map<Peer, Peer>>
    var proxyMap: map<Cid, map<Peer, bool>>
    var toMap: map<Cid, map<Peer, Peer>>

    constructor (self: Peer)
      ensures this.self == self
      ensures forall c :: At(c) == EMPTY
    {
      this.self := self;
      fromMap, proxyMap, toMap := map[], map[], map[];
    }

    function Contents(): (m: Maps)
      reads this
    {
      Maps(fromMap, proxyMap, toMap)
    }

    function At(c: Cid): (l: Ledger)
      reads this
    {
      Contents().At(c)
    }

    /** Create the maps of a CID seen for the first time. */
    method Prepare(c: Cid)
      modifies this
      ensures c in fromMap && c in proxyMap && c in toMap
      ensures SameLedgers(old(Contents()), Contents())
    {
      if c !in fromMap { fromMap := fromMap[c := map[]]; }
      if c !in proxyMap { proxyMap := proxyMap[c := map[]]; }
      if c !in toMap { toMap := toMap[c := map[]]; }
    }

    /** Handle the want-forwards of one message, in order.  Each CID's ledger goes through
        exactly the iterations for that CID. */
    method ProcessForwards(from: Peer, forwards: seq<Cid>, world: (nat, set<Peer>) -> Choice)
      returns (effects: seq<Effect>)
      modifies this
      ensures Processed(old(Contents()), Contents(), from, forwards, world, |forwards|)
      ensures |effects| == |forwards| && Effects(old(Contents()), from, forwards, world, effects)
    {
      effects := [];
      ghost var start := Contents();
      var i := 0;
      while i < |forwards|
        invariant 0 <= i == |effects| <= |forwards|
        invariant Processed(start, Contents(), from, forwards, world, i)
        invariant Effects(start, from, forwards, world, effects)
      {
        ghost var before := Contents();
        var effect := HandleOne(from, forwards[i], ex => world(i, ex));
        ProcessedNext(start, before, Contents(), from, forwards, world, i, effect);
        EffectsNext(start, before, Contents(), from, forwards, world, effects, effect);
        effects := effects + [effect];
        i := i + 1;
      }
    }

    /** One iteration of the loop. */
    method HandleOne(from: Peer, c: Cid, ask: set<Peer> -> Choice) returns (effect: Effect)
      modifies this
      ensures Handled(old(Contents()), Contents(), from, c, ask, effect)
    {
      ghost var start := Contents();
      Prepare(c);
      ghost var prepared := Contents();
      effect := HandlePrepared(from, c, ask);
      HandledFrom(start, prepared, Contents(), from, c, ask, effect);
    }

    /** The iteration after its maps have been created. */
    method HandlePrepared(from: Peer, c: Cid, ask: set<Peer> -> Choice) returns (effect: Effect)
      requires c in fromMap && c in proxyMap && c in toMap
      modifies this
      ensures Handled(old(Contents()), Contents(), from, c, ask, effect)
    {
      // Ask the outside world once, with the peers that already got this CID excluded.
      var ch := ask({from} + fromMap[c].Values);
      if from in proxyMap[c] && proxyMap[c][from] {
        return Ignored;
      }
      if from in fromMap[c] {
        if ch.resent {
          return Resent(fromMap[c][from]);
        }
        proxyMap := proxyMap[c := proxyMap[c][from := true]];
        return StartedProxy;
      }
      if ch.becomeProxy {
        proxyMap := proxyMap[c := proxyMap[c][from := true]];
        return StartedProxy;
      }
      match ch.sentTo
      case None =>
        proxyMap := proxyMap[c := proxyMap[c][from := true]];
        return StartedProxy;
      case Some(to) =>
        fromMap := fromMap[c := fromMap[c][from := to]];
        toMap := toMap[c := toMap[c][to := from]];
        return Forwarded(to);
    }

    /** Start a search of this node's own session; None is an error, and changes nothing. */
    method ForwardSearch(c: Cid, forward: set<Peer> -> Option<Peer>) returns (sentTo: Option<Peer>)
      modifies this
      ensures sentTo == forward(old(At(c)).from.Values)
      ensures At(c) == if sentTo.None? then old(At(c)) else Record(old(At(c)), self, sentTo.value)
      ensures forall d :: d != c ==> SameAt(old(Contents()), Contents(), d)
    {
      ghost var start := Contents();
      Prepare(c);
      assert SameAt(start, Contents(), c);
      ghost var prepared := Contents();
      sentTo := forward(fromMap[c].Values);
      if sentTo.Some? {
        fromMap := fromMap[c := fromMap[c][self := sentTo.value]];
        toMap := toMap[c := toMap[c][sentTo.value := self]];
      }
      forall d | d != c ensures SameAt(start, Contents(), d) { assert SameAt(start, prepared, d); }
    }

    /** The proxy session of `returnTo` closes. */
    method CloseSession(c: Cid, returnTo: Peer)
      modifies this`proxyMap
      ensures At(c) == old(At(c)).(proxied := old(At(c)).proxied[returnTo := false])
      ensures forall d :: d != c ==> SameAt(old(Contents()), Contents(), d)
    {
      var m := if c in proxyMap then proxyMap[c] else map[];
      proxyMap := proxyMap[c := m[returnTo := false]];
    }

    /** Where each forward-have of one message goes. */
    method ProcessForwardHaves(sender: Peer, haves: seq<Cid>) returns (actions: seq<HaveAction>)
      ensures |actions| == |haves|
      ensures forall k :: 0 <= k < |haves| ==> actions[k] == HaveActionFor(At(haves[k]), self, sender)
    {
      actions := [];
      for i := 0 to |haves|
        invariant |actions| == i
        invariant forall k :: 0 <= k < i ==> actions[k] == HaveActionFor(At(haves[k]), self, sender)
      {
        var c := haves[i];
        if c !in toMap || sender !in toMap[c] {
          actions := actions + [Drop];
        } else if toMap[c][sender] == self {
          actions := actions + [NotifySession];
        } else {
          actions := actions + [RelayTo(toMap[c][sender])];
        }
      }
    }
  }
}
