/**
 What a walk over a Merkle DAG is supposed to find (ipld/merkledag/merkledag.go).  A graph
 maps each stored node to its links; a node that is missing cannot be fetched.  `lim` is the
 depth limit of FetchGraphWithDepthLimit (negative: unlimited) and `minLen` is 1 when the
 walk skips the root and 0 otherwise.
 */
module DagGraph {
  import opened Options

  datatype Cid = Cid(id: nat)

  datatype Item = Item(cid: Cid, depth: nat)

  type Graph = map<Cid, seq<Cid>>

  /** How a walk is set up. */
  datatype Walk = Walk(g: Graph, root: Cid, lim: int, skipRoot: bool)

  function MinLen(w: Walk): (n: nat) {
    if w.skipRoot then 1 else 0
  }

  function Links(g: Graph, c: Cid): (r: seq<Cid>) {
    if c in g then g[c] else []
  }

  /** There is a path of exactly `n` links from the root to `c`. */
  ghost predicate Path(w: Walk, c: Cid, n: nat)
    decreases n
  {
    if n == 0 then c == w.root
    else exists b :: Path(w, b, n - 1) && c in Links(w.g, b)
  }

  lemma PathStep(w: Walk, b: Cid, c: Cid, n: nat)
    requires Path(w, b, n) && c in Links(w.g, b)
    ensures Path(w, c, n + 1)
  {
  }

  ghost predicate InRange(w: Walk, n: nat) {
    MinLen(w) <= n && (w.lim < 0 || n <= w.lim)
  }

  /** The walk has to fetch `c`: it is in range, or the root. */
  ghost predicate Needed(w: Walk, c: Cid) {
    exists n: nat :: (n == 0 || InRange(w, n)) && Path(w, c, n)
  }

  /** Every node that the walk has to fetch is there. */
  ghost predicate Stored(w: Walk) {
    forall c :: Needed(w, c) ==> c in w.g
  }

  /** An exact map of stored nodes, with the root stored too, has all that was needed. */
  lemma ExactIsStored(w: Walk, seen: map<Cid, nat>)
    requires Exact(w, seen) && seen.Keys <= w.g.Keys && w.root in w.g
    ensures Stored(w)
  {
    forall c | Needed(w, c) ensures c in w.g {
      var n: nat :| (n == 0 || InRange(w, n)) && Path(w, c, n);
      if InRange(w, n) { assert c in seen; }
    }
  }

  /** The map holds exactly the nodes in range; with a limit, their shortest distances. */
  ghost predicate Exact(w: Walk, seen: map<Cid, nat>) {
    && (forall c :: c in seen <==> exists n: nat :: InRange(w, n) && Path(w, c, n))
    && (forall c :: c in seen ==> InRange(w, seen[c]) && Path(w, c, seen[c]))
    && (w.lim >= 0 ==> forall c, n: nat :: c in seen && InRange(w, n) && Path(w, c, n) ==> seen[c] <= n)
  }

  /** The visit closure: record the node if it is new, or found at a smaller depth than
      before under a limit; report whether it was recorded. */
  function Visit(lim: int, seen: map<Cid, nat>, c: Cid, depth: nat): (r: (map<Cid, nat>, bool)) {
    if (c in seen && lim < 0) || (lim >= 0 && depth > lim) then (seen, false)
    else if c !in seen || seen[c] > depth then (seen[c := depth], true)
    else (seen, false)
  }

  /** Visiting `c` at depth `d` would change nothing: it is recorded at that depth or better. */
  ghost predicate Beats(lim: int, seen: map<Cid, nat>, c: Cid, d: nat) {
    c in seen && (lim < 0 || seen[c] <= d)
  }

  /** `c` at depth `d` needs no more work. */
  ghost predicate Settled(lim: int, seen: map<Cid, nat>, c: Cid, d: nat) {
    (lim >= 0 && d > lim) || Beats(lim, seen, c, d)
  }

  /** What Visit does, independently of how it decides. */
  lemma VisitMeaning(lim: int, seen: map<Cid, nat>, c: Cid, d: nat)
    ensures var (seen', ok) := Visit(lim, seen, c, d);
            && (ok <==> !Settled(lim, seen, c, d))
            && seen' == (if ok then seen[c := d] else seen)
            && Settled(lim, seen', c, d)
            && (forall x, n: nat :: Beats(lim, seen, x, n) ==> Beats(lim, seen', x, n))
  {
  }

  ghost predicate Sound(w: Walk, seen: map<Cid, nat>) {
    forall c :: SoundAt(w, seen, c)
  }

  ghost predicate SoundAt(w: Walk, seen: map<Cid, nat>, c: Cid) {
    c in seen ==> InRange(w, seen[c]) && Path(w, c, seen[c])
  }

  /** All links of `c` are settled one level further down. */
  ghost predicate ClosedAt(w: Walk, seen: map<Cid, nat>, c: Cid) {
    c in seen ==> ChildrenSettled(w, seen, c, seen[c] + 1)
  }

  ghost predicate ChildrenSettled(w: Walk, seen: map<Cid, nat>, c: Cid, d: nat) {
    forall e :: e in Links(w.g, c) ==> Settled(w.lim, seen, e, d)
  }

  ghost predicate RootSettled(w: Walk, seen: map<Cid, nat>) {
    if w.skipRoot then ChildrenSettled(w, seen, w.root, 1) else Beats(w.lim, seen, w.root, 0)
  }

  lemma {:induction false} PathsAreSettled(w: Walk, seen: map<Cid, nat>, c: Cid, n: nat)
    requires RootSettled(w, seen) && (forall x :: ClosedAt(w, seen, x))
    requires InRange(w, n) && Path(w, c, n)
    ensures Beats(w.lim, seen, c, n)
    decreases n
  {
    if n > 0 {
      var b :| Path(w, b, n - 1) && c in Links(w.g, b);
      if n - 1 >= MinLen(w) {
        PathsAreSettled(w, seen, b, n - 1);
        assert ClosedAt(w, seen, b);
        assert Settled(w.lim, seen, c, seen[b] + 1);
      } else {
        assert Settled(w.lim, seen, c, 1);
      }
    }
  }

  /** A sound map with nothing left to do is exactly what the walk should find. */
  lemma SettledIsExact(w: Walk, seen: map<Cid, nat>)
    requires Sound(w, seen) && RootSettled(w, seen) && (forall x :: ClosedAt(w, seen, x))
    ensures Exact(w, seen)
  {
    forall c | c in seen ensures InRange(w, seen[c]) && Path(w, c, seen[c]) { assert SoundAt(w, seen, c); }
    forall c, n: nat | InRange(w, n) && Path(w, c, n) ensures Beats(w.lim, seen, c, n) {
      PathsAreSettled(w, seen, c, n);
    }
    forall c | exists n: nat :: InRange(w, n) && Path(w, c, n) ensures c in seen {
      var n: nat :| InRange(w, n) && Path(w, c, n);
      assert Beats(w.lim, seen, c, n);
    }
  }

  /** Two exact answers agree on the nodes, and under a limit on the depths too. */
  lemma ExactIsUnique(w: Walk, a: map<Cid, nat>, b: map<Cid, nat>)
    requires Exact(w, a) && Exact(w, b)
    ensures a.Keys == b.Keys
    ensures w.lim >= 0 ==> a == b
  {
    forall c ensures c in a.Keys <==> c in b.Keys {
      assert c in a <==> exists n: nat :: InRange(w, n) && Path(w, c, n);
      assert c in b <==> exists n: nat :: InRange(w, n) && Path(w, c, n);
    }
    if w.lim >= 0 {
      forall c | c in a ensures a[c] == b[c] {
        assert Path(w, c, a[c]) && InRange(w, a[c]);
        assert Path(w, c, b[c]) && InRange(w, b[c]);
      }
    }
  }

  // ---------- the potential of a walk ----------

  /** All nodes a walk can meet. */
  function Universe(w: Walk): (r: set<Cid>) {
    {w.root} + set c, e | c in w.g.Keys && e in w.g[c] :: e
  }

  /** The visits that would still change the map. */
  ghost function Open(w: Walk, seen: map<Cid, nat>): set<Item> {
    set c, d | c in Universe(w) && 0 <= d <= (if w.lim < 0 then 0 else w.lim) && !Beats(w.lim, seen, c, d)
      :: Item(c, d)
  }

  lemma {:induction false} PathInUniverse(w: Walk, c: Cid, n: nat)
    requires Path(w, c, n)
    ensures c in Universe(w)
  {
    if n > 0 {
      var b :| Path(w, b, n - 1) && c in Links(w.g, b);
      assert c in w.g[b];
    }
  }

  /** Every recorded visit leaves strictly fewer useful visits. */
  lemma VisitShrinksOpen(w: Walk, seen: map<Cid, nat>, c: Cid, d: nat)
    requires Path(w, c, d)
    ensures var (seen', ok) := Visit(w.lim, seen, c, d);
            && Open(w, seen') <= Open(w, seen)
            && (ok ==> Open(w, seen') < Open(w, seen))
  {
    var (seen', ok) := Visit(w.lim, seen, c, d);
    VisitMeaning(w.lim, seen, c, d);
    PathInUniverse(w, c, d);
    if ok {
      var it := Item(c, if w.lim < 0 then 0 else d);
      assert it in Open(w, seen) && it !in Open(w, seen');
    }
  }
}
