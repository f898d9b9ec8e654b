/**
 What sort.Stable does to the links of a node: the links in the order of their names, links of
 the same name in the order they had.
 */
module StableSort {
  import opened Options
  import opened ByteOrder

  type Cid = nat

  datatype Link = Link(name: Bytes, size: nat, cid: Option<Cid>)

  /** The links with a name, in order. */
  function With(links: seq<Link>, name: Bytes): (r: seq<Link>) {
    if links == [] then []
    else (if links[0].name == name then [links[0]] else []) + With(links[1..], name)
  }

  /** The links without a name, in order. */
  function Without(links: seq<Link>, name: Bytes): (r: seq<Link>) {
    if links == [] then []
    else (if links[0].name != name then [links[0]] else []) + Without(links[1..], name)
  }

  predicate NotAfter(a: Bytes, b: Bytes) {
    CompareBytes(a, b) <= 0
  }

  predicate Sorted(links: seq<Link>) {
    forall i, j :: 0 <= i < j < |links| ==> NotAfter(links[i].name, links[j].name)
  }

  /** Put a link before the first one that does not come before it. */
  function Insert(l: Link, links: seq<Link>): (r: seq<Link>) {
    if links == [] || NotAfter(l.name, links[0].name) then [l] + links
    else [links[0]] + Insert(l, links[1..])
  }

  function Stable(links: seq<Link>): (r: seq<Link>) {
    if links == [] then [] else Insert(links[0], Stable(links[1..]))
  }

  /** For every name, the same links in the same order. */
  ghost predicate Alike(a: seq<Link>, b: seq<Link>) {
    forall name :: With(a, name) == With(b, name)
  }

  // ---------- with and without ----------

  lemma {:induction false} WithConcat(a: seq<Link>, b: seq<Link>, name: Bytes)
    ensures With(a + b, name) == With(a, name) + With(b, name)
  {
    if a == [] {
      assert a + b == b;
    } else {
      assert (a + b)[0] == a[0] && (a + b)[1..] == a[1..] + b;
      WithConcat(a[1..], b, name);
      var first, x, y := if a[0].name == name then [a[0]] else [], With(a[1..], name), With(b, name);
      assert first + (x + y) == (first + x) + y;
    }
  }

  lemma {:induction false} WithoutConcat(a: seq<Link>, b: seq<Link>, name: Bytes)
    ensures Without(a + b, name) == Without(a, name) + Without(b, name)
  {
    if a == [] {
      assert a + b == b;
    } else {
      assert (a + b)[0] == a[0] && (a + b)[1..] == a[1..] + b;
      WithoutConcat(a[1..], b, name);
      var first, x, y := if a[0].name != name then [a[0]] else [], Without(a[1..], name), Without(b, name);
      assert first + (x + y) == (first + x) + y;
    }
  }

  lemma {:induction false} WithWithout(links: seq<Link>, name: Bytes, other: Bytes)
    ensures With(Without(links, name), other) == if other == name then [] else With(links, other)
  {
    if links != [] {
      WithWithout(links[1..], name, other);
      WithConcat(if links[0].name != name then [links[0]] else [], Without(links[1..], name), other);
    }
  }

  lemma {:induction false} WithMembers(links: seq<Link>, name: Bytes)
    ensures forall l :: l in With(links, name) <==> l in links && l.name == name
  {
    if links != [] {
      WithMembers(links[1..], name);
      assert links == [links[0]] + links[1..];
    }
  }

  lemma AlikeMembers(a: seq<Link>, b: seq<Link>)
    requires Alike(a, b)
    ensures forall l :: l in a <==> l in b
  {
    forall l ensures l in a <==> l in b {
      WithMembers(a, l.name);
      WithMembers(b, l.name);
      assert With(a, l.name) == With(b, l.name);
    }
  }

  // ---------- what sorting does ----------

  lemma {:induction false} InsertWith(l: Link, links: seq<Link>, name: Bytes)
    ensures With(Insert(l, links), name) == With([l] + links, name)
  {
    if links != [] && !NotAfter(l.name, links[0].name) {
      BytesSame(l.name, links[0].name);
      var (first, tail) := ([links[0]], links[1..]);
      InsertWith(l, tail, name);
      assert links == first + tail;
      WithConcat(first, Insert(l, tail), name);
      WithConcat(first, tail, name);
      WithConcat([l], links, name);
      WithConcat([l], tail, name);
    }
  }

  lemma {:induction false} InsertMembers(l: Link, links: seq<Link>)
    ensures forall x :: x in Insert(l, links) <==> x == l || x in links
  {
    if links != [] && !NotAfter(l.name, links[0].name) {
      InsertMembers(l, links[1..]);
      assert links == [links[0]] + links[1..];
    }
  }

  lemma SortedTail(links: seq<Link>)
    requires Sorted(links) && links != []
    ensures Sorted(links[1..]) && forall x :: x in links[1..] ==> NotAfter(links[0].name, x.name)
  {
    forall i, j | 0 <= i < j < |links[1..]| ensures NotAfter(links[1..][i].name, links[1..][j].name) {
      assert NotAfter(links[i + 1].name, links[j + 1].name);
    }
  }

  lemma SortedCons(l: Link, links: seq<Link>)
    requires Sorted(links) && forall x :: x in links ==> NotAfter(l.name, x.name)
    ensures Sorted([l] + links)
  {
    var all := [l] + links;
    forall i, j | 0 <= i < j < |all| ensures NotAfter(all[i].name, all[j].name) {
      assert all[j] == links[j - 1];
      if i > 0 { assert all[i] == links[i - 1]; }
    }
  }

  lemma {:induction false} InsertSorted(l: Link, links: seq<Link>)
    requires Sorted(links)
    ensures Sorted(Insert(l, links))
  {
    if links == [] {
    } else if NotAfter(l.name, links[0].name) {
      forall x | x in links ensures NotAfter(l.name, x.name) { NotAfterFirst(l.name, links, x); }
      SortedCons(l, links);
    } else {
      SortedTail(links);
      InsertSorted(l, links[1..]);
      InsertMembers(l, links[1..]);
      BytesFlip(l.name, links[0].name);
      SortedCons(links[0], Insert(l, links[1..]));
    }
  }

  lemma NotAfterFirst(name: Bytes, links: seq<Link>, x: Link)
    requires Sorted(links) && links != [] && NotAfter(name, links[0].name) && x in links
    ensures NotAfter(name, x.name)
  {
    if x != links[0] {
      var j :| 0 <= j < |links| && links[j] == x;
      assert NotAfter(links[0].name, links[j].name);
      BytesFlip(name, links[0].name);
      BytesFlip(links[0].name, x.name);
      BytesFlip(name, x.name);
      BytesTransitive(x.name, links[0].name, name);
    }
  }

  /** Stable sorting sorts, and keeps the links of each name as they were. */
  lemma {:induction false} StableSorts(links: seq<Link>)
    ensures Sorted(Stable(links)) && Alike(Stable(links), links)
  {
    if links != [] {
      StableSorts(links[1..]);
      InsertSorted(links[0], Stable(links[1..]));
      forall name ensures With(Stable(links), name) == With(links, name) {
        InsertWith(links[0], Stable(links[1..]), name);
        WithConcat([links[0]], Stable(links[1..]), name);
        assert With(Stable(links[1..]), name) == With(links[1..], name);
        WithConcat([links[0]], links[1..], name);
        assert links == [links[0]] + links[1..];
      }
    }
  }

  lemma FirstOfName(a: seq<Link>, b: seq<Link>)
    requires Sorted(a) && Sorted(b) && Alike(a, b) && a != [] && b != []
    ensures a[0] == b[0]
  {
    AlikeMembers(a, b);
    var la, lb := a[0], b[0];
    NotAfterAny(b, la);
    NotAfterAny(a, lb);
    BytesFlip(la.name, lb.name);
    BytesSame(la.name, lb.name);
    assert With(a, la.name)[0] == la && With(b, lb.name)[0] == lb;
    assert With(a, la.name) == With(b, la.name);
  }

  lemma NotAfterAny(links: seq<Link>, x: Link)
    requires Sorted(links) && x in links
    ensures NotAfter(links[0].name, x.name)
  {
    var j :| 0 <= j < |links| && links[j] == x;
    if j == 0 { BytesSame(x.name, x.name); }
  }

  /** Two sorted lists that agree name by name are the same list. */
  lemma {:induction false} SortedIsUnique(a: seq<Link>, b: seq<Link>)
    requires Sorted(a) && Sorted(b) && Alike(a, b)
    ensures a == b
    decreases |a|
  {
    AlikeMembers(a, b);
    assert (a == [] || a[0] in a) && (b == [] || b[0] in b);
    if a != [] {
      FirstOfName(a, b);
      SortedTail(a);
      SortedTail(b);
      forall name ensures With(a[1..], name) == With(b[1..], name) {
        assert With(a, name) == With(b, name);
        var first := if a[0].name == name then [a[0]] else [];
        assert With(a, name)[|first|..] == With(a[1..], name);
        assert With(b, name)[|first|..] == With(b[1..], name);
      }
      SortedIsUnique(a[1..], b[1..]);
    }
  }

  /** So stable sorting forgets exactly the order between different names. */
  lemma StableIff(a: seq<Link>, b: seq<Link>)
    ensures Stable(a) == Stable(b) <==> Alike(a, b)
  {
    StableSorts(a);
    StableSorts(b);
    if Alike(a, b) {
      forall name ensures With(Stable(a), name) == With(Stable(b), name) {
        assert With(Stable(a), name) == With(a, name) && With(Stable(b), name) == With(b, name) && With(a, name) == With(b, name);
      }
      SortedIsUnique(Stable(a), Stable(b));
    } else {
      var name :| With(a, name) != With(b, name);
      assert With(Stable(a), name) == With(a, name) && With(Stable(b), name) == With(b, name);
    }
  }

  // ---------- distinct names ----------

  ghost predicate DistinctNames(links: seq<Link>) {
    forall i, j :: 0 <= i < j < |links| ==> links[i].name != links[j].name
  }

  lemma {:induction false} WithDistinct(links: seq<Link>, name: Bytes)
    requires DistinctNames(links)
    ensures |With(links, name)| <= 1
  {
    if links != [] {
      assert DistinctNames(links[1..]) by {
        forall i, j | 0 <= i < j < |links[1..]| ensures links[1..][i].name != links[1..][j].name {
          assert links[i + 1].name != links[j + 1].name;
        }
      }
      WithDistinct(links[1..], name);
      WithMembers(links[1..], name);
      forall l | l in links[1..] ensures l.name != links[0].name {
        var j :| 0 <= j < |links[1..]| && links[1..][j] == l;
        assert links[0].name != links[j + 1].name;
      }
      var w := With(links[1..], name);
      assert w == [] || w[0] in w;
    }
  }

  lemma SameNamed(a: seq<Link>, b: seq<Link>, name: Bytes)
    requires DistinctNames(a) && DistinctNames(b) && forall l :: l in a <==> l in b
    ensures With(a, name) == With(b, name)
  {
    WithDistinct(a, name);
    WithDistinct(b, name);
    WithMembers(a, name);
    WithMembers(b, name);
    var x, y := With(a, name), With(b, name);
    assert forall l :: l in x <==> l in y;
    assert (x == [] || x[0] in x) && (y == [] || y[0] in y);
  }

  /** With distinct names the order of insertion does not matter. */
  lemma DistinctInAnyOrder(a: seq<Link>, b: seq<Link>)
    requires DistinctNames(a) && DistinctNames(b) && forall l :: l in a <==> l in b
    ensures Stable(a) == Stable(b)
  {
    forall name ensures With(a, name) == With(b, name) { SameNamed(a, b, name); }
    StableIff(a, b);
  }
}
