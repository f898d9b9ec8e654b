/**
 The recursive walk of ipld/merkledag/merkledag.go.  `Visitor` holds the map that the visit
 closure of FetchGraphWithDepthLimit updates.
 */
module DagSequentialWalk {
  import opened Options
  import opened DagGraph
  import Parallel = DagParallelWalk

  /** `seen` has only become better: nothing is forgotten, no depth has grown. */
  ghost predicate Improves(lim: int, before: map<Cid, nat>, seen: map<Cid, nat>) {
    forall x, n: nat :: Beats(lim, before, x, n) ==> Beats(lim, seen, x, n)
  }

  /** Every entry is closed, or has stood since `before`, so that its links are the business
      of a caller. */
  ghost predicate ClosedSince(w: Walk, before: map<Cid, nat>, seen: map<Cid, nat>) {
    forall x :: ClosedSinceAt(w, before, seen, x)
  }

  ghost predicate ClosedSinceAt(w: Walk, before: map<Cid, nat>, seen: map<Cid, nat>, x: Cid) {
    ClosedAt(w, seen, x) || (x in before && x in seen && seen[x] == before[x])
  }

  lemma ClosedSinceTrans(w: Walk, a: map<Cid, nat>, b: map<Cid, nat>, c: map<Cid, nat>)
    requires ClosedSince(w, a, b) && ClosedSince(w, b, c) && Improves(w.lim, b, c)
    ensures ClosedSince(w, a, c)
  {
    forall x ensures ClosedSinceAt(w, a, c, x) {
      assert ClosedSinceAt(w, a, b, x);
      assert ClosedSinceAt(w, b, c, x);
      if x in b && x in c && c[x] == b[x] && ClosedAt(w, b, x) {
        SettledImproves(w, b, c, x, b[x] + 1);
      }
    }
  }

  lemma SettledImproves(w: Walk, before: map<Cid, nat>, seen: map<Cid, nat>, c: Cid, d: nat)
    requires Improves(w.lim, before, seen) && ChildrenSettled(w, before, c, d)
    ensures ChildrenSettled(w, seen, c, d)
  {
    forall e | e in Links(w.g, c) ensures Settled(w.lim, seen, e, d) { assert Settled(w.lim, before, e, d); }
  }

  /** Improving a map leaves no more useful visits than before. */
  lemma OpenImproves(w: Walk, before: map<Cid, nat>, seen: map<Cid, nat>)
    requires Improves(w.lim, before, seen)
    ensures Open(w, seen) <= Open(w, before)
  {
    forall it | it in Open(w, seen) ensures it in Open(w, before) { }
  }

  /** The node `c` has just been recorded at depth `d` and all its links are settled now. */
  lemma ClosesItself(w: Walk, before: map<Cid, nat>, recorded: map<Cid, nat>, seen: map<Cid, nat>, c: Cid, d: nat)
    requires recorded == before[c := d] && ClosedSince(w, recorded, seen) && ChildrenSettled(w, seen, c, d + 1)
    ensures ClosedSince(w, before, seen)
  {
    forall x ensures ClosedSinceAt(w, before, seen, x) { assert ClosedSinceAt(w, recorded, seen, x); }
  }

  class Visitor {
    var seen: map<Cid, nat>

    constructor ()
      ensures seen == map[]
    {
      seen := map[];
    }

    /** The visit closure, as the source writes it. */
    method VisitNode(lim: int, c: Cid, depth: nat) returns (ok: bool)
      modifies this
      ensures (seen, ok) == Visit(lim, old(seen), c, depth)
    {
      if (c in seen && lim < 0) || (lim >= 0 && depth > lim) {
        return false;
      }
      if c !in seen || seen[c] > depth {
        seen := seen[c := depth];
        return true;
      }
      return false;
    }

    /** Walk on from `c`, found at depth `depth`; false is a failed fetch. */
    method WalkFrom(w: Walk, c: Cid, depth: nat) returns (ok: bool)
      requires Path(w, c, depth) && Sound(w, seen)
      modifies this
      ensures Sound(w, seen) && Improves(w.lim, old(seen), seen)
      ensures ok ==> ClosedSince(w, old(seen), seen) && seen.Keys <= old(seen).Keys + w.g.Keys
      ensures !ok ==> !Stored(w)
      ensures ok && !(w.skipRoot && depth == 0) ==> Settled(w.lim, seen, c, depth)
      ensures ok && w.skipRoot && depth == 0 ==> ChildrenSettled(w, seen, c, 1) && c in w.g
      decreases if w.skipRoot && depth == 0 then 2 else 0, Open(w, seen), 0
    {
      ghost var before := seen;
      if w.skipRoot && depth == 0 {
        ok := WalkLinks(w, c, depth);
      } else {
        VisitMeaning(w.lim, seen, c, depth);
        VisitShrinksOpen(w, seen, c, depth);
        var isNew := VisitNode(w.lim, c, depth);
        forall x ensures SoundAt(w, seen, x) { assert SoundAt(w, before, x); }
        if !isNew {
          return true;
        }
        ghost var recorded := seen;
        ok := WalkLinks(w, c, depth);
        if ok { ClosesItself(w, before, recorded, seen, c, depth); }
      }
    }

    /** Fetch `c` and walk on along each of its links. */
    method WalkLinks(w: Walk, c: Cid, depth: nat) returns (ok: bool)
      requires Path(w, c, depth) && (depth == 0 || InRange(w, depth)) && Sound(w, seen)
      modifies this
      ensures Sound(w, seen) && Improves(w.lim, old(seen), seen)
      ensures ok ==> ClosedSince(w, old(seen), seen) && ChildrenSettled(w, seen, c, depth + 1)
      ensures ok ==> c in w.g && seen.Keys <= old(seen).Keys + w.g.Keys
      ensures !ok ==> !Stored(w)
      decreases if w.skipRoot && depth == 0 then 1 else 0, Open(w, seen), 1
    {
      if c !in w.g {
        assert Needed(w, c);
        return false;
      }
      var links := w.g[c];
      ghost var before := seen;
      var i := 0;
      while i < |links|
        invariant 0 <= i <= |links|
        invariant Sound(w, seen) && Improves(w.lim, before, seen) && ClosedSince(w, before, seen)
        invariant seen.Keys <= before.Keys + w.g.Keys
        invariant forall j :: 0 <= j < i ==> Settled(w.lim, seen, links[j], depth + 1)
      {
        ghost var current := seen;
        OpenImproves(w, before, current);
        PathStep(w, c, links[i], depth);
        ok := WalkFrom(w, links[i], depth + 1);
        if !ok {
          return false;
        }
        ClosedSinceTrans(w, before, current, seen);
        i := i + 1;
      }
      return true;
    }

    /** The whole walk, starting with an empty map. */
    method WalkAll(w: Walk) returns (ok: bool)
      requires seen == map[]
      modifies this
      ensures ok <==> Stored(w)
      ensures ok ==> Exact(w, seen) && seen.Keys <= w.g.Keys
    {
      forall x ensures SoundAt(w, seen, x) { }
      ok := WalkFrom(w, w.root, 0);
      if ok {
        forall x ensures ClosedAt(w, seen, x) { assert ClosedSinceAt(w, map[], seen, x); }
        SettledIsExact(w, seen);
        RootIsStored(w, seen);
      }
    }
  }

  lemma RootIsStored(w: Walk, seen: map<Cid, nat>)
    requires Exact(w, seen) && seen.Keys <= w.g.Keys && (w.skipRoot ==> w.root in w.g)
    ensures Stored(w)
  {
    if !w.skipRoot { assert InRange(w, 0) && Path(w, w.root, 0); }
    ExactIsStored(w, seen);
  }

  /** Both walks find the same nodes, and under a limit the same depths, because there is only
      one exact answer. */
  lemma WalksAgree(w: Walk, sequential: map<Cid, nat>, concurrency: nat, steps: seq<Parallel.Step>, s: Parallel.State)
    requires Exact(w, sequential)
    requires Parallel.Run(w, Parallel.Start(w, concurrency), steps, s) && s.result == Parallel.Ok
    ensures s.seen.Keys == sequential.Keys
    ensures w.lim >= 0 ==> s.seen == sequential
  {
    Parallel.ReturnedWalkIsExact(w, concurrency, steps, s);
    ExactIsUnique(w, sequential, s.seen);
  }
}
