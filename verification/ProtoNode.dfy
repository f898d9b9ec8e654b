/**
 The mutable DAG node of ipld/merkledag/node.go and coding.go: links that are sorted late, an
 encoding and a CID that are cached, and mutators that invalidate them.  How a node is encoded
 and how a builder hashes bytes are given functions.
 */
module ProtoNode {
  import opened Options
  import opened ByteOrder
  import opened StableSort

  type Builder = nat

  const MAX_INT64: nat := 0x7fff_ffff_ffff_ffff

  /** The dag-pb encoder on data that may be nil and links in order; the hash of a CID builder;
      whether a builder passes its check, and the builder for the dag-pb codec made from it;
      and the CIDv0 builder. */
  datatype Env = Env(
    encode: (Option<Bytes>, seq<Link>) -> Bytes, sum: (Builder, Bytes) -> Cid,
    usable: Builder -> bool, withCodec: Builder -> Builder, v0: Builder
  )

  predicate LinkOk(l: Link) {
    l.size <= MAX_INT64 && l.cid.Some?
  }

  // ---------- what a node means ----------

  /** A node without caches: its data, its links in the order they were given, its builder. */
  datatype Plain = Plain(data: Option<Bytes>, links: seq<Link>, builder: Builder)

  function PlainBytes(env: Env, p: Plain): (r: Bytes) {
    env.encode(p.data, Stable(p.links))
  }

  datatype Op =
    | AddRawLink(l: Link)
    | RemoveNodeLink(name: Bytes)
    | SetLinks(ls: seq<Link>)
    | SetData(d: Option<Bytes>)
    | SetCidBuilder(b: Builder)
    | GetNodeLink(n: Bytes)
    | Links
    | EncodeProtobuf(force: bool)
    | CidOf

  datatype Answer = Done | Failed | Found(l: Link) | List(ls: seq<Link>) | Raw(bytes: Bytes) | Hash(c: Cid)

  function Reply(env: Env, p: Plain, op: Op): (r: Answer) {
    match op
    case AddRawLink(l) => if LinkOk(l) then Done else Failed
    case RemoveNodeLink(name) => if With(p.links, name) == [] then Failed else Done
    case SetLinks(ls) => if forall l :: l in ls ==> LinkOk(l) then Done else Failed
    case SetData(_) => Done
    case SetCidBuilder(b) => if env.usable(b) then Done else Failed
    case GetNodeLink(name) => var w := With(p.links, name); if w == [] then Failed else Found(w[0])
    case Links => List(Stable(p.links))
    case EncodeProtobuf(_) => Raw(PlainBytes(env, p))
    case CidOf => Hash(env.sum(p.builder, PlainBytes(env, p)))
  }

  function Next(env: Env, p: Plain, op: Op): (r: Plain) {
    if Reply(env, p, op) == Failed then p
    else
      match op
      case AddRawLink(l) => p.(links := p.links + [l])
      case RemoveNodeLink(name) => p.(links := Without(p.links, name))
      case SetLinks(ls) => p.(links := ls)
      case SetData(d) => p.(data := d)
      case SetCidBuilder(b) => p.(builder := env.withCodec(b))
      case _ => p
  }

  function PlainAfter(env: Env, p: Plain, ops: seq<Op>): (r: Plain) {
    if ops == [] then p else Next(env, PlainAfter(env, p, ops[..|ops| - 1]), ops[|ops| - 1])
  }

  predicate AllOk(ls: seq<Link>) {
    forall l :: l in ls ==> LinkOk(l)
  }

  /** What a call makes of the links of one name. */
  function LinksNext(before: seq<Link>, op: Op, name: Bytes): (r: seq<Link>) {
    match op
    case AddRawLink(l) => if LinkOk(l) && l.name == name then before + [l] else before
    case RemoveNodeLink(n) => if n == name then [] else before
    case SetLinks(ls) => if AllOk(ls) then With(ls, name) else before
    case _ => before
  }

  /** What calls leave of the links of one name, of the data and of the builder. */
  function LinksGiven(start: seq<Link>, ops: seq<Op>, name: Bytes): (r: seq<Link>) {
    if ops == [] then start else LinksNext(LinksGiven(start, ops[..|ops| - 1], name), ops[|ops| - 1], name)
  }

  function DataGiven(start: Option<Bytes>, ops: seq<Op>): (r: Option<Bytes>) {
    if ops == [] then start
    else if ops[|ops| - 1].SetData? then ops[|ops| - 1].d
    else DataGiven(start, ops[..|ops| - 1])
  }

  function BuilderGiven(env: Env, start: Builder, ops: seq<Op>): (r: Builder) {
    if ops == [] then start
    else if ops[|ops| - 1].SetCidBuilder? && env.usable(ops[|ops| - 1].b) then env.withCodec(ops[|ops| - 1].b)
    else BuilderGiven(env, start, ops[..|ops| - 1])
  }

  /** The plain node holds the data and the builder set last, and of every name the links added
      since the name was last removed or all links were replaced, in order. */
  lemma {:induction false} PlainIsHistory(env: Env, p: Plain, ops: seq<Op>, name: Bytes)
    ensures var q := PlainAfter(env, p, ops);
            && With(q.links, name) == LinksGiven(With(p.links, name), ops, name)
            && q.data == DataGiven(p.data, ops) && q.builder == BuilderGiven(env, p.builder, ops)
  {
    if ops != [] {
      var n := |ops| - 1;
      PlainIsHistory(env, p, ops[..n], name);
      LinksStep(env, PlainAfter(env, p, ops[..n]), ops[n], name);
    }
  }

  lemma LinksStep(env: Env, p: Plain, op: Op, name: Bytes)
    ensures With(Next(env, p, op).links, name) == LinksNext(With(p.links, name), op, name)
  {
    match op
    case AddRawLink(l) => WithConcat(p.links, [l], name);
    case RemoveNodeLink(n) => WithWithout(p.links, n, name);
    case _ =>
  }

  // ---------- the node ----------

  class ProtoNode {
    const env: Env
    var links: seq<Link>
    var linksDirty: bool
    var data: Option<Bytes>
    var encoded: Option<Bytes>
    var cached: Option<Cid>
    var builder: Option<Builder>

    function BuilderOf(): (b: Builder)
      reads this
    {
      if builder.None? then env.v0 else builder.value
    }

    /** The encoding tells the truth, and links that are not marked dirty are sorted. */
    ghost predicate Coherent()
      reads this
    {
      && (!linksDirty ==> links == Stable(links))
      && (encoded.Some? ==> !linksDirty && encoded.value == env.encode(data, links))
    }

    /** So does the cached CID. */
    ghost predicate Valid()
      reads this
    {
      Coherent() && (encoded.Some? && cached.Some? ==> cached.value == env.sum(BuilderOf(), encoded.value))
    }

    /** The node stands for the plain node: same data and builder, same links name by name. */
    ghost predicate Means(p: Plain)
      reads this
    {
      data == p.data && BuilderOf() == p.builder && Alike(links, p.links)
    }

    constructor NodeWithData(env: Env, d: Option<Bytes>)
      ensures Valid() && this.env == env && Means(Plain(d, [], env.v0))
    {
      this.env := env;
      links, linksDirty, data := [], false, d;
      encoded, cached, builder := None, None, None;
    }

    method Sort()
      requires Coherent()
      modifies this`links, this`linksDirty, this`encoded
      ensures Coherent() && (old(Valid()) ==> Valid()) && !linksDirty && links == Stable(old(links)) && Alike(links, old(links))
      ensures encoded == if old(linksDirty) then None else old(encoded)
    {
      StableSorts(links);
      StableIff(Stable(links), links);
      if linksDirty {
        links := Stable(links);
        linksDirty := false;
        encoded := None;
      }
    }

    method AddLink(l: Link) returns (ok: bool)
      requires Valid()
      modifies this
      ensures Valid() && ok == LinkOk(l) && data == old(data) && builder == old(builder)
      ensures links == if ok then old(links) + [l] else old(links)
    {
      if l.size > MAX_INT64 || l.cid.None? { return false; }
      links := links + [l];
      linksDirty := true;
      encoded := None;
      ok := true;
    }

    method RemoveLinks(name: Bytes) returns (found: bool)
      requires Valid()
      modifies this
      ensures Valid() && data == old(data) && builder == old(builder)
      ensures found == (With(old(links), name) != [])
      ensures links == if found then Without(old(links), name) else old(links)
    {
      var ref := [];
      found := false;
      for i := 0 to |links|
        invariant unchanged(this)
        invariant ref == Without(links[..i], name) && found == (With(links[..i], name) != [])
      {
        assert links[..i + 1] == links[..i] + [links[i]];
        WithConcat(links[..i], [links[i]], name);
        WithoutConcat(links[..i], [links[i]], name);
        if links[i].name != name { ref := ref + [links[i]]; } else { found := true; }
      }
      assert links[..|links|] == links;
      if !found { return; }
      links := ref;
      linksDirty := true;
      encoded := None;
    }

    method ReplaceLinks(ls: seq<Link>) returns (ok: bool)
      requires Valid()
      modifies this
      ensures Valid() && data == old(data) && builder == old(builder)
      ensures ok == (forall l :: l in ls ==> LinkOk(l)) && links == if ok then ls else old(links)
    {
      for i := 0 to |ls|
        invariant forall j :: 0 <= j < i ==> LinkOk(ls[j])
        invariant unchanged(this)
      {
        if !LinkOk(ls[i]) { return false; }
      }
      links := ls;
      linksDirty := true;
      encoded := None;
      ok := true;
    }

    method FirstNamed(name: Bytes) returns (r: Option<Link>)
      ensures var w := With(links, name); r == if w == [] then None else Some(w[0])
    {
      for i := 0 to |links|
        invariant With(links, name) == With(links[i..], name)
      {
        if links[i].name == name { return Some(links[i]); }
        assert links[i..][1..] == links[i + 1..];
      }
      r := None;
    }

    method SetNodeData(d: Option<Bytes>)
      requires Valid()
      modifies this`encoded, this`cached, this`data
      ensures Valid() && data == d
    {
      encoded := None;
      cached := None;
      data := d;
    }

    /** A builder other than nil. */
    method SetBuilder(b: Builder) returns (ok: bool)
      requires Valid()
      modifies this`builder, this`cached
      ensures Valid() && ok == env.usable(b)
      ensures builder == if ok then Some(env.withCodec(b)) else old(builder)
    {
      if !env.usable(b) { return false; }
      builder := Some(env.withCodec(b));
      cached := None;
      ok := true;
    }

    /** SetCidBuilder(nil) goes back to CIDv0 and keeps the cached CID. */
    method ResetBuilder()
      requires Coherent()
      modifies this`builder
      ensures Coherent() && builder == Some(env.v0)
    {
      builder := Some(env.v0);
    }

    /** EncodeProtobuf: reuse or refresh the caches. */
    method Encode(force: bool) returns (bytes: Bytes)
      requires Coherent()
      modifies this
      ensures Coherent() && data == old(data) && BuilderOf() == old(BuilderOf()) && Alike(links, old(links))
      ensures bytes == env.encode(data, Stable(old(links))) && encoded == Some(bytes)
      ensures cached == if old(encoded.Some? && cached.Some?) && !force then old(cached) else Some(env.sum(BuilderOf(), bytes))
      ensures old(Valid()) ==> Valid() && cached == Some(env.sum(BuilderOf(), bytes))
    {
      if encoded.None? || linksDirty || force {
        Sort();
        cached := None;
        encoded := Some(env.encode(data, links));
      }
      if cached.None? {
        // CidBuilder() settles a builder that was never set.
        if builder.None? { builder := Some(env.v0); }
        cached := Some(env.sum(builder.value, encoded.value));
      }
      bytes := encoded.value;
    }

    /** SetCidBuilder(nil), then Cid(): the answer is the CIDv0 of the current bytes if and only if
        they had not been encoded, or no CID was cached, or the builder in force before gives
        them the same CID. */
    method CidAfterNilBuilder() returns (c: Cid)
      requires Valid()
      modifies this
      ensures var bytes := env.encode(old(data), Stable(old(links)));
              c == env.sum(env.v0, bytes) <==>
                old(encoded.None? || cached.None?) || env.sum(old(BuilderOf()), bytes) == env.sum(env.v0, bytes)
    {
      ResetBuilder();
      var bytes := Encode(false);
      c := cached.value;
    }

    // ---------- any sequence of calls ----------

    method Mutate(op: Op, ghost p: Plain) returns (r: Answer)
      requires Valid() && Means(p)
      requires op.AddRawLink? || op.RemoveNodeLink? || op.SetLinks? || op.SetData? || op.SetCidBuilder?
      modifies this
      ensures Valid() && r == Reply(env, p, op) && Means(Next(env, p, op))
    {
      ghost var before := links;
      match op {
        case AddRawLink(l) =>
          var ok := AddLink(l);
          if ok { AlikeConcat(before, p.links, [l]); }
          r := if ok then Done else Failed;
        case RemoveNodeLink(name) =>
          var ok := RemoveLinks(name);
          assert With(before, name) == With(p.links, name);
          if ok { AlikeWithout(before, p.links, name); }
          r := if ok then Done else Failed;
        case SetLinks(ls) =>
          var ok := ReplaceLinks(ls);
          r := if ok then Done else Failed;
        case SetData(d) =>
          SetNodeData(d);
          r := Done;
        case SetCidBuilder(b) =>
          var ok := SetBuilder(b);
          r := if ok then Done else Failed;
      }
    }

    method Read(op: Op, ghost p: Plain) returns (r: Answer)
      requires Valid() && Means(p)
      requires op.GetNodeLink? || op.Links? || op.EncodeProtobuf? || op.CidOf?
      modifies this
      ensures Valid() && r == Reply(env, p, op) && Means(p)
    {
      StableIff(links, p.links);
      match op {
        case GetNodeLink(name) =>
          var l := FirstNamed(name);
          assert With(links, name) == With(p.links, name);
          r := if l.None? then Failed else Found(l.value);
        case Links =>
          Sort();
          r := List(links);
        case EncodeProtobuf(force) =>
          var bytes := Encode(force);
          r := Raw(bytes);
        case CidOf =>
          var bytes := Encode(false);
          r := Hash(cached.value);
      }
    }

    method Perform(op: Op, ghost p: Plain) returns (r: Answer)
      requires Valid() && Means(p)
      modifies this
      ensures Valid() && r == Reply(env, p, op) && Means(Next(env, p, op))
    {
      if op.AddRawLink? || op.RemoveNodeLink? || op.SetLinks? || op.SetData? || op.SetCidBuilder? {
        r := Mutate(op, p);
      } else {
        r := Read(op, p);
      }
    }

    /** From a new node on, whatever is called in whatever order, every answer is that of the
        plain node, which has no caches and never sorts in place. */
    method RunAll(ops: seq<Op>) returns (answers: seq<Answer>)
      requires Valid()
      modifies this
      ensures Valid()
      ensures var p := old(Plain(data, links, BuilderOf()));
              Means(PlainAfter(env, p, ops)) && Answered(env, p, ops, answers)
    {
      ghost var p := Plain(data, links, BuilderOf());
      ghost var now := p;
      answers := [];
      for i := 0 to |ops|
        invariant Valid() && Means(now)
        invariant now == PlainAfter(env, p, ops[..i]) && Answered(env, p, ops[..i], answers)
      {
        var r := Perform(ops[i], now);
        AnsweredNext(env, p, ops[..i], answers, ops[i]);
        assert ops[..i] + [ops[i]] == ops[..i + 1];
        answers, now := answers + [r], Next(env, now, ops[i]);
      }
      assert ops[..|ops|] == ops;
    }
  }

  /** A builder whose CIDs differ from CIDv0: SetCidBuilder(b), Cid(), SetCidBuilder(nil), Cid().
      The second Cid() is still the one of `b`. */
  method NilBuilderExample() returns (first: Cid, second: Cid, right: Cid)
    ensures first == second == 1 && right == 0
  {
    var env := Env((d, ls) => [], (b, bytes) => b, b => true, b => b, 0);
    var n := new ProtoNode.NodeWithData(env, None);
    var ok := n.SetBuilder(1);
    var bytes := n.Encode(false);
    first := n.cached.value;
    n.ResetBuilder();
    bytes := n.Encode(false);
    second, right := n.cached.value, env.sum(env.v0, bytes);
  }

  /** The answers are those of the plain node at each point. */
  ghost predicate Answered(env: Env, p: Plain, ops: seq<Op>, answers: seq<Answer>) {
    && |answers| == |ops|
    && forall i :: 0 <= i < |ops| ==> answers[i] == Reply(env, PlainAfter(env, p, ops[..i]), ops[i])
  }

  lemma AnsweredNext(env: Env, p: Plain, ops: seq<Op>, answers: seq<Answer>, op: Op)
    requires Answered(env, p, ops, answers)
    ensures var now := PlainAfter(env, p, ops);
            Answered(env, p, ops + [op], answers + [Reply(env, now, op)]) && PlainAfter(env, p, ops + [op]) == Next(env, now, op)
  {
    var all := ops + [op];
    assert all[..|ops|] == ops;
    forall i | 0 <= i < |ops| ensures all[..i] == ops[..i] {}
  }

  lemma AlikeConcat(a: seq<Link>, b: seq<Link>, c: seq<Link>)
    requires Alike(a, b)
    ensures Alike(a + c, b + c)
  {
    forall name ensures With(a + c, name) == With(b + c, name) {
      WithConcat(a, c, name);
      WithConcat(b, c, name);
      assert With(a, name) == With(b, name);
    }
  }

  lemma AlikeWithout(a: seq<Link>, b: seq<Link>, name: Bytes)
    requires Alike(a, b)
    ensures Alike(Without(a, name), Without(b, name))
  {
    forall other ensures With(Without(a, name), other) == With(Without(b, name), other) {
      WithWithout(a, name, other);
      WithWithout(b, name, other);
      assert With(a, other) == With(b, other);
    }
  }

  /** Distinctly named links added in any order give the same bytes. */
  lemma InsertionOrderIsIrrelevant(env: Env, p: Plain, a: seq<Link>, b: seq<Link>)
    requires DistinctNames(p.links + a) && DistinctNames(p.links + b) && forall l :: l in a <==> l in b
    ensures PlainBytes(env, p.(links := p.links + a)) == PlainBytes(env, p.(links := p.links + b))
  {
    DistinctInAnyOrder(p.links + a, p.links + b);
  }
}
