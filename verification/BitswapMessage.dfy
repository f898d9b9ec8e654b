/**
 The Bitswap message of bitswap/message/message.go: five maps, the mutators that fill them, and
 the conversion to the version 1 protobuf and back.  Go iterates over a map in any order, so
 ToProtoV1 may list the entries of each map in any order.
 */
module BitswapMessage {
  import opened Options

  type Cid = nat
  type Prefix = nat
  type Data = seq<int>

  /** The undefined CID. */
  const UNDEF: Cid := 0

  datatype WantType = WantBlock | WantHave | WantForward
  datatype Presence = Have | DontHave | ForwardHave

  datatype Entry = Entry(cid: Cid, priority: int, wantType: WantType, cancel: bool, sendDontHave: bool)
  datatype Block = Block(cid: Cid, data: Data)
  datatype AddrInfo = AddrInfo(id: nat, addrs: seq<nat>)

  datatype Msg = Msg(
    full: bool,
    wantlist: map<Cid, Entry>,
    forwardlist: map<Cid, Entry>,
    blocks: map<Cid, Block>,
    presences: map<Cid, Presence>,
    peers: map<Cid, seq<AddrInfo>>,
    pendingBytes: int
  )

  function Empty(full: bool): (m: Msg) {
    Msg(full, map[], map[], map[], map[], map[], 0)
  }

  /** The prefix of a CID, the CID a prefix gives to data, the CID of an old-style block, and
      which bytes are peer IDs and multiaddresses. */
  datatype Env = Env(
    prefix: Cid -> Prefix, sum: (Prefix, Data) -> Option<Cid>, v0: Data -> Cid, isPeer: nat -> bool, isAddr: nat -> bool
  )

  /** The data hashes to the CID. */
  predicate Authentic(env: Env, b: Block) {
    env.sum(env.prefix(b.cid), b.data) == Some(b.cid)
  }

  /** A CID made from a prefix has that hash; so has the CID of an old-style block. */
  ghost predicate EnvOk(env: Env) {
    && (forall p, d :: env.sum(p, d).Some? ==> Authentic(env, Block(env.sum(p, d).value, d)))
    && (forall d :: Authentic(env, Block(env.v0(d), d)))
  }

  // ---------- the mutators ----------

  function WithEntry(m: Msg, c: Cid, priority: int, cancel: bool, wantType: WantType, sendDontHave: bool): (r: Msg) {
    var e :=
      if c in m.wantlist then
        var was := m.wantlist[c];
        Entry(was.cid,
              if was.wantType == wantType then priority else was.priority,
              if wantType == WantBlock && was.wantType == WantHave then WantBlock else was.wantType,
              was.cancel || cancel, was.sendDontHave || sendDontHave)
      else Entry(c, priority, wantType, cancel, sendDontHave);
    m.(wantlist := m.wantlist[c := e])
  }

  function WithForward(m: Msg, c: Cid, priority: int, cancel: bool): (r: Msg) {
    var e :=
      if c in m.forwardlist && m.forwardlist[c].cancel != cancel then m.forwardlist[c].(cancel := cancel)
      else Entry(c, priority, WantForward, cancel, true);
    m.(forwardlist := m.forwardlist[c := e])
  }

  function WithBlock(m: Msg, b: Block): (r: Msg) {
    m.(presences := m.presences - {b.cid}, blocks := m.blocks[b.cid := b])
  }

  function WithPresence(m: Msg, c: Cid, t: Presence): (r: Msg) {
    if c in m.blocks then m else m.(presences := m.presences[c := t])
  }

  function WithPeers(m: Msg, c: Cid, ps: seq<AddrInfo>): (r: Msg) {
    m.(peers := m.peers[c := (if c in m.peers then m.peers[c] else []) + ps])
  }

  class Message {
    var full: bool
    var wantlist: map<Cid, Entry>
    var forwardlist: map<Cid, Entry>
    var blocks: map<Cid, Block>
    var presences: map<Cid, Presence>
    var peers: map<Cid, seq<AddrInfo>>
    var pendingBytes: int

    function Contents(): (m: Msg)
      reads this
    {
      Msg(full, wantlist, forwardlist, blocks, presences, peers, pendingBytes)
    }

    constructor (full: bool)
      ensures Contents() == Empty(full)
    {
      this.full := full;
      wantlist, forwardlist, blocks, presences, peers, pendingBytes := map[], map[], map[], map[], map[], 0;
    }

    method AddEntry(c: Cid, priority: int, cancel: bool, wantType: WantType, sendDontHave: bool)
      modifies this
      ensures Contents() == WithEntry(old(Contents()), c, priority, cancel, wantType, sendDontHave)
    {
      if c in wantlist {
        var e := wantlist[c];
        if e.wantType == wantType { e := e.(priority := priority); }
        if cancel { e := e.(cancel := cancel); }
        if sendDontHave { e := e.(sendDontHave := sendDontHave); }
        if wantType == WantBlock && e.wantType == WantHave { e := e.(wantType := wantType); }
        wantlist := wantlist[c := e];
        return;
      }
      wantlist := wantlist[c := Entry(c, priority, wantType, cancel, sendDontHave)];
    }

    method AddForwardEntry(c: Cid, priority: int, cancel: bool)
      modifies this
      ensures Contents() == WithForward(old(Contents()), c, priority, cancel)
    {
      if c in forwardlist && forwardlist[c].cancel != cancel {
        forwardlist := forwardlist[c := forwardlist[c].(cancel := cancel)];
        return;
      }
      forwardlist := forwardlist[c := Entry(c, priority, WantForward, cancel, true)];
    }

    method Remove(c: Cid)
      modifies this
      ensures Contents() == old(Contents()).(wantlist := old(wantlist) - {c})
    {
      wantlist := wantlist - {c};
    }

    method RemoveForward(c: Cid)
      modifies this
      ensures Contents() == old(Contents()).(forwardlist := old(forwardlist) - {c})
    {
      forwardlist := forwardlist - {c};
    }

    method AddBlock(b: Block)
      modifies this
      ensures Contents() == WithBlock(old(Contents()), b)
    {
      presences := presences - {b.cid};
      blocks := blocks[b.cid := b];
    }

    method AddBlockPresence(c: Cid, t: Presence)
      modifies this
      ensures Contents() == WithPresence(old(Contents()), c, t)
    {
      if c in blocks { return; }
      presences := presences[c := t];
    }

    method AddForwardHave(c: Cid, ps: seq<AddrInfo>)
      modifies this
      ensures Contents() == WithPeers(old(Contents()), c, ps)
    {
      if c !in peers { peers := peers[c := []]; }
      peers := peers[c := peers[c] + ps];
    }
  }

  /** Everything the mutators can do. */
  datatype Op =
    | AddEntry(c: Cid, priority: int, wantType: WantType, sendDontHave: bool)
    | CancelEntry(c: Cid)
    | AddForwardEntry(c: Cid, priority: int)
    | CancelForward(c: Cid)
    | Remove(c: Cid)
    | RemoveForward(c: Cid)
    | AddBlock(b: Block)
    | AddBlockPresence(c: Cid, t: Presence)
    | AddForwardHave(c: Cid, ps: seq<AddrInfo>)
    | SetPendingBytes(n: int)
    | Reset(full: bool)

  function Apply(m: Msg, op: Op): (r: Msg) {
    match op
    case AddEntry(c, priority, wantType, sendDontHave) => WithEntry(m, c, priority, false, wantType, sendDontHave)
    case CancelEntry(c) => WithEntry(m, c, 0, true, WantBlock, false)
    case AddForwardEntry(c, priority) => WithForward(m, c, priority, false)
    case CancelForward(c) => WithForward(m, c, 0, true)
    case Remove(c) => m.(wantlist := m.wantlist - {c})
    case RemoveForward(c) => m.(forwardlist := m.forwardlist - {c})
    case AddBlock(b) => WithBlock(m, b)
    case AddBlockPresence(c, t) => WithPresence(m, c, t)
    case AddForwardHave(c, ps) => WithPeers(m, c, ps)
    case SetPendingBytes(n) => m.(pendingBytes := n)
    case Reset(full) => Empty(full)
  }

  function ApplyAll(m: Msg, ops: seq<Op>): (r: Msg) {
    if ops == [] then m else Apply(ApplyAll(m, ops[..|ops| - 1]), ops[|ops| - 1])
  }

  predicate WantsFiled(wants: map<Cid, Entry>) {
    forall c :: c in wants ==> wants[c].cid == c
  }

  predicate ForwardsFiled(forwards: map<Cid, Entry>) {
    forall c :: c in forwards ==> forwards[c].cid == c && forwards[c].wantType == WantForward && forwards[c].sendDontHave
  }

  predicate BlocksFiled(blocks: map<Cid, Block>) {
    forall c :: c in blocks ==> blocks[c].cid == c
  }

  /** Blocks and presences share no CID, and every entry is filed under its own CID. */
  predicate Consistent(m: Msg) {
    && m.blocks.Keys !! m.presences.Keys
    && WantsFiled(m.wantlist) && ForwardsFiled(m.forwardlist) && BlocksFiled(m.blocks)
  }

  lemma StepConsistent(m: Msg, op: Op)
    requires Consistent(m)
    ensures Consistent(Apply(m, op))
  {
  }

  /** Whatever the mutators are called with, in any order. */
  lemma {:induction false} AlwaysConsistent(full: bool, ops: seq<Op>)
    ensures Consistent(ApplyAll(Empty(full), ops))
  {
    if ops != [] {
      AlwaysConsistent(full, ops[..|ops| - 1]);
      StepConsistent(ApplyAll(Empty(full), ops[..|ops| - 1]), ops[|ops| - 1]);
    }
  }

  // ---------- the protobuf ----------

  datatype PbBlock = PbBlock(prefix: Prefix, data: Data)
  datatype PbPresence = PbPresence(cid: Cid, t: Presence, infos: seq<AddrInfo>)
  datatype Pb = Pb(
    full: bool, entries: seq<Entry>, oldBlocks: seq<Data>, payload: seq<PbBlock>, presences: seq<PbPresence>, pendingBytes: int
  )

  /** An order in which Go may visit the keys of a map. */
  ghost predicate Visits(order: seq<Cid>, keys: set<Cid>) {
    && (forall c :: c in order <==> c in keys)
    && forall i, j :: 0 <= i < j < |order| ==> order[i] != order[j]
  }

  /** The orders in which the five maps are visited. */
  datatype Orders = Orders(wants: seq<Cid>, forwards: seq<Cid>, blocks: seq<Cid>, presences: seq<Cid>, peers: seq<Cid>)

  ghost predicate OrdersOf(m: Msg, o: Orders) {
    && Visits(o.wants, m.wantlist.Keys) && Visits(o.forwards, m.forwardlist.Keys) && Visits(o.blocks, m.blocks.Keys)
    && Visits(o.presences, m.presences.Keys) && Visits(o.peers, m.peers.Keys)
  }

  function EntriesIn(entries: map<Cid, Entry>, order: seq<Cid>): (r: seq<Entry>)
    requires forall c :: c in order ==> c in entries
  {
    seq(|order|, i requires 0 <= i < |order| => entries[order[i]])
  }

  function PayloadIn(env: Env, blocks: map<Cid, Block>, order: seq<Cid>): (r: seq<PbBlock>)
    requires forall c :: c in order ==> c in blocks
  {
    seq(|order|, i requires 0 <= i < |order| => PbBlock(env.prefix(blocks[order[i]].cid), blocks[order[i]].data))
  }

  function PresencesIn(presences: map<Cid, Presence>, order: seq<Cid>): (r: seq<PbPresence>)
    requires forall c :: c in order ==> c in presences
  {
    seq(|order|, i requires 0 <= i < |order| => PbPresence(order[i], presences[order[i]], []))
  }

  function PeersIn(peers: map<Cid, seq<AddrInfo>>, order: seq<Cid>): (r: seq<PbPresence>)
    requires forall c :: c in order ==> c in peers
  {
    seq(|order|, i requires 0 <= i < |order| => PbPresence(order[i], ForwardHave, peers[order[i]]))
  }

  ghost function ToProto(env: Env, m: Msg, o: Orders): Pb
    requires OrdersOf(m, o)
  {
    Pb(m.full, EntriesIn(m.wantlist, o.wants) + EntriesIn(m.forwardlist, o.forwards), [],
       PayloadIn(env, m.blocks, o.blocks), PresencesIn(m.presences, o.presences) + PeersIn(m.peers, o.peers), m.pendingBytes)
  }

  /** The protobuf is one that some orders give. */
  ghost predicate IsProtoOf(env: Env, m: Msg, p: Pb) {
    exists o :: OrdersOf(m, o) && p == ToProto(env, m, o)
  }

  // ---------- reading a protobuf ----------

  datatype Result = Ok(m: Msg) | MissingCid | BadBlock

  function ReadEntry(r: Result, e: Entry): (r': Result) {
    if !r.Ok? then r
    else if e.cid == UNDEF then MissingCid
    else if e.wantType == WantForward then Ok(WithForward(r.m, e.cid, e.priority, e.cancel))
    else Ok(WithEntry(r.m, e.cid, e.priority, e.cancel, e.wantType, e.sendDontHave))
  }

  function ReadBlock(env: Env, r: Result, b: PbBlock): (r': Result) {
    if !r.Ok? then r
    else var c := env.sum(b.prefix, b.data); if c.None? then BadBlock else Ok(WithBlock(r.m, Block(c.value, b.data)))
  }

  /** Addresses and peers that do not parse are dropped. */
  function KeepAddrs(env: Env, addrs: seq<nat>): (r: seq<nat>) {
    if addrs == [] then []
    else KeepAddrs(env, addrs[..|addrs| - 1]) + (if env.isAddr(addrs[|addrs| - 1]) then [addrs[|addrs| - 1]] else [])
  }

  function KeepPeers(env: Env, infos: seq<AddrInfo>): (r: seq<AddrInfo>) {
    if infos == [] then []
    else
      var last := infos[|infos| - 1];
      KeepPeers(env, infos[..|infos| - 1]) + (if env.isPeer(last.id) then [AddrInfo(last.id, KeepAddrs(env, last.addrs))] else [])
  }

  function ReadPresence(env: Env, r: Result, p: PbPresence): (r': Result) {
    if !r.Ok? then r
    else if p.cid == UNDEF then MissingCid
    else if p.t == ForwardHave then Ok(WithPeers(r.m, p.cid, KeepPeers(env, p.infos)))
    else Ok(WithPresence(r.m, p.cid, p.t))
  }

  function ReadEntries(r: Result, es: seq<Entry>): (r': Result) {
    if es == [] then r else ReadEntry(ReadEntries(r, es[..|es| - 1]), es[|es| - 1])
  }

  function ReadOldBlocks(env: Env, r: Result, ds: seq<Data>): (r': Result) {
    if ds == [] then r
    else
      var before := ReadOldBlocks(env, r, ds[..|ds| - 1]);
      var d := ds[|ds| - 1];
      if before.Ok? then Ok(WithBlock(before.m, Block(env.v0(d), d))) else before
  }

  function ReadPayload(env: Env, r: Result, bs: seq<PbBlock>): (r': Result) {
    if bs == [] then r else ReadBlock(env, ReadPayload(env, r, bs[..|bs| - 1]), bs[|bs| - 1])
  }

  function ReadPresences(env: Env, r: Result, ps: seq<PbPresence>): (r': Result) {
    if ps == [] then r else ReadPresence(env, ReadPresences(env, r, ps[..|ps| - 1]), ps[|ps| - 1])
  }

  function FromProto(env: Env, p: Pb): (r: Result) {
    var r1 := ReadEntries(Ok(Empty(p.full)), p.entries);
    var r2 := ReadOldBlocks(env, r1, p.oldBlocks);
    var r3 := ReadPayload(env, r2, p.payload);
    var r4 := ReadPresences(env, r3, p.presences);
    if r4.Ok? then Ok(r4.m.(pendingBytes := p.pendingBytes)) else r4
  }

  // ---------- the conversions as loops ----------

  lemma VisitsNext(order: seq<Cid>, keys: set<Cid>, todo: set<Cid>, c: Cid)
    requires todo <= keys && c in todo && Visits(order, keys - todo)
    ensures Visits(order + [c], keys - (todo - {c}))
  {
  }

  /** A loop over a map of entries, in whatever order. */
  method ListEntries(entries: map<Cid, Entry>) returns (es: seq<Entry>, ghost order: seq<Cid>)
    ensures Visits(order, entries.Keys) && es == EntriesIn(entries, order)
  {
    es, order := [], [];
    var todo := entries.Keys;
    while todo != {}
      invariant todo <= entries.Keys && Visits(order, entries.Keys - todo) && es == EntriesIn(entries, order)
      decreases |todo|
    {
      var c :| c in todo;
      VisitsNext(order, entries.Keys, todo, c);
      es, order, todo := es + [entries[c]], order + [c], todo - {c};
    }
  }

  method ListBlocks(env: Env, blocks: map<Cid, Block>) returns (bs: seq<PbBlock>, ghost order: seq<Cid>)
    ensures Visits(order, blocks.Keys) && bs == PayloadIn(env, blocks, order)
  {
    bs, order := [], [];
    var todo := blocks.Keys;
    while todo != {}
      invariant todo <= blocks.Keys && Visits(order, blocks.Keys - todo) && bs == PayloadIn(env, blocks, order)
      decreases |todo|
    {
      var c :| c in todo;
      VisitsNext(order, blocks.Keys, todo, c);
      bs, order, todo := bs + [PbBlock(env.prefix(blocks[c].cid), blocks[c].data)], order + [c], todo - {c};
    }
  }

  method ListPresences(presences: map<Cid, Presence>) returns (ps: seq<PbPresence>, ghost order: seq<Cid>)
    ensures Visits(order, presences.Keys) && ps == PresencesIn(presences, order)
  {
    ps, order := [], [];
    var todo := presences.Keys;
    while todo != {}
      invariant todo <= presences.Keys && Visits(order, presences.Keys - todo) && ps == PresencesIn(presences, order)
      decreases |todo|
    {
      var c :| c in todo;
      VisitsNext(order, presences.Keys, todo, c);
      ps, order, todo := ps + [PbPresence(c, presences[c], [])], order + [c], todo - {c};
    }
  }

  method ListPeers(peers: map<Cid, seq<AddrInfo>>) returns (ps: seq<PbPresence>, ghost order: seq<Cid>)
    ensures Visits(order, peers.Keys) && ps == PeersIn(peers, order)
  {
    ps, order := [], [];
    var todo := peers.Keys;
    while todo != {}
      invariant todo <= peers.Keys && Visits(order, peers.Keys - todo) && ps == PeersIn(peers, order)
      decreases |todo|
    {
      var c :| c in todo;
      VisitsNext(order, peers.Keys, todo, c);
      ps, order, todo := ps + [PbPresence(c, ForwardHave, peers[c])], order + [c], todo - {c};
    }
  }

  method ToProtoV1(env: Env, m: Message) returns (p: Pb)
    ensures IsProtoOf(env, m.Contents(), p)
  {
    var wants, forwards, bs, ps, qs;
    ghost var o1, o2, o3, o4, o5;
    wants, o1 := ListEntries(m.wantlist);
    forwards, o2 := ListEntries(m.forwardlist);
    bs, o3 := ListBlocks(env, m.blocks);
    ps, o4 := ListPresences(m.presences);
    qs, o5 := ListPeers(m.peers);
    p := Pb(m.full, wants + forwards, [], bs, ps + qs, m.pendingBytes);
    ghost var o := Orders(o1, o2, o3, o4, o5);
    assert OrdersOf(m.Contents(), o) && p == ToProto(env, m.Contents(), o);
  }

  method KeepAddrList(env: Env, addrs: seq<nat>) returns (r: seq<nat>)
    ensures r == KeepAddrs(env, addrs)
  {
    r := [];
    for i := 0 to |addrs|
      invariant r == KeepAddrs(env, addrs[..i])
    {
      assert addrs[..i + 1][..i] == addrs[..i];
      if env.isAddr(addrs[i]) { r := r + [addrs[i]]; }
    }
    assert addrs[..|addrs|] == addrs;
  }

  method KeepPeerList(env: Env, infos: seq<AddrInfo>) returns (r: seq<AddrInfo>)
    ensures r == KeepPeers(env, infos)
  {
    r := [];
    for i := 0 to |infos|
      invariant r == KeepPeers(env, infos[..i])
    {
      assert infos[..i + 1][..i] == infos[..i];
      var addrs := KeepAddrList(env, infos[i].addrs);
      if env.isPeer(infos[i].id) { r := r + [AddrInfo(infos[i].id, addrs)]; }
    }
    assert infos[..|infos|] == infos;
  }

  /** A failure ends reading: what comes after it makes no difference. */
  lemma {:induction false} EntriesFail(r: Result, es: seq<Entry>, i: nat)
    requires i <= |es| && !ReadEntries(r, es[..i]).Ok?
    ensures ReadEntries(r, es) == ReadEntries(r, es[..i])
    decreases |es|
  {
    if i == |es| {
      assert es[..i] == es;
    } else {
      var n := |es| - 1;
      assert es[..n][..i] == es[..i];
      EntriesFail(r, es[..n], i);
    }
  }

  lemma {:induction false} PayloadFails(env: Env, r: Result, bs: seq<PbBlock>, i: nat)
    requires i <= |bs| && !ReadPayload(env, r, bs[..i]).Ok?
    ensures ReadPayload(env, r, bs) == ReadPayload(env, r, bs[..i])
    decreases |bs|
  {
    if i == |bs| {
      assert bs[..i] == bs;
    } else {
      var n := |bs| - 1;
      assert bs[..n][..i] == bs[..i];
      PayloadFails(env, r, bs[..n], i);
    }
  }

  lemma {:induction false} PresencesFail(env: Env, r: Result, ps: seq<PbPresence>, i: nat)
    requires i <= |ps| && !ReadPresences(env, r, ps[..i]).Ok?
    ensures ReadPresences(env, r, ps) == ReadPresences(env, r, ps[..i])
    decreases |ps|
  {
    if i == |ps| {
      assert ps[..i] == ps;
    } else {
      var n := |ps| - 1;
      assert ps[..n][..i] == ps[..i];
      PresencesFail(env, r, ps[..n], i);
    }
  }

  lemma {:induction false} NothingAfterFailure(env: Env, r: Result, ds: seq<Data>, bs: seq<PbBlock>, ps: seq<PbPresence>)
    requires !r.Ok?
    ensures ReadOldBlocks(env, r, ds) == r && ReadPayload(env, r, bs) == r && ReadPresences(env, r, ps) == r
    decreases |ds|
  {
    if ds != [] { NothingAfterFailure(env, r, ds[..|ds| - 1], bs, ps); }
    assert bs[..0] == [] && ps[..0] == [];
    PayloadFails(env, r, bs, 0);
    PresencesFail(env, r, ps, 0);
  }

  method TakeEntries(msg: Message, es: seq<Entry>) returns (r: Result)
    modifies msg
    ensures r == ReadEntries(Ok(old(msg.Contents())), es) && (r.Ok? ==> msg.Contents() == r.m)
  {
    ghost var start := Ok(msg.Contents());
    for i := 0 to |es|
      invariant ReadEntries(start, es[..i]) == Ok(msg.Contents())
    {
      assert es[..i + 1][..i] == es[..i];
      var e := es[i];
      if e.cid == UNDEF {
        EntriesFail(start, es, i + 1);
        return MissingCid;
      }
      if e.wantType == WantForward {
        msg.AddForwardEntry(e.cid, e.priority, e.cancel);
      } else {
        msg.AddEntry(e.cid, e.priority, e.cancel, e.wantType, e.sendDontHave);
      }
    }
    assert es[..|es|] == es;
    r := Ok(msg.Contents());
  }

  method TakeOldBlocks(env: Env, msg: Message, ds: seq<Data>)
    modifies msg
    ensures ReadOldBlocks(env, Ok(old(msg.Contents())), ds) == Ok(msg.Contents())
  {
    ghost var start := Ok(msg.Contents());
    for i := 0 to |ds|
      invariant ReadOldBlocks(env, start, ds[..i]) == Ok(msg.Contents())
    {
      assert ds[..i + 1][..i] == ds[..i];
      msg.AddBlock(Block(env.v0(ds[i]), ds[i]));
    }
    assert ds[..|ds|] == ds;
  }

  method TakePayload(env: Env, msg: Message, bs: seq<PbBlock>) returns (r: Result)
    modifies msg
    ensures r == ReadPayload(env, Ok(old(msg.Contents())), bs) && (r.Ok? ==> msg.Contents() == r.m)
  {
    ghost var start := Ok(msg.Contents());
    for i := 0 to |bs|
      invariant ReadPayload(env, start, bs[..i]) == Ok(msg.Contents())
    {
      assert bs[..i + 1][..i] == bs[..i];
      var c := env.sum(bs[i].prefix, bs[i].data);
      if c.None? {
        PayloadFails(env, start, bs, i + 1);
        return BadBlock;
      }
      msg.AddBlock(Block(c.value, bs[i].data));
    }
    assert bs[..|bs|] == bs;
    r := Ok(msg.Contents());
  }

  method TakePresences(env: Env, msg: Message, ps: seq<PbPresence>) returns (r: Result)
    modifies msg
    ensures r == ReadPresences(env, Ok(old(msg.Contents())), ps) && (r.Ok? ==> msg.Contents() == r.m)
  {
    ghost var start := Ok(msg.Contents());
    for i := 0 to |ps|
      invariant ReadPresences(env, start, ps[..i]) == Ok(msg.Contents())
    {
      assert ps[..i + 1][..i] == ps[..i];
      if ps[i].cid == UNDEF {
        PresencesFail(env, start, ps, i + 1);
        return MissingCid;
      }
      if ps[i].t == ForwardHave {
        var peers := KeepPeerList(env, ps[i].infos);
        msg.AddForwardHave(ps[i].cid, peers);
      } else {
        msg.AddBlockPresence(ps[i].cid, ps[i].t);
      }
    }
    assert ps[..|ps|] == ps;
    r := Ok(msg.Contents());
  }

  method NewMessageFromProto(env: Env, p: Pb) returns (msg: Message, r: Result)
    ensures fresh(msg) && r == FromProto(env, p) && (r.Ok? ==> msg.Contents() == r.m)
  {
    msg := new Message(p.full);
    r := TakeEntries(msg, p.entries);
    if !r.Ok? {
      NothingAfterFailure(env, r, p.oldBlocks, p.payload, p.presences);
      return;
    }
    TakeOldBlocks(env, msg, p.oldBlocks);
    r := TakePayload(env, msg, p.payload);
    if !r.Ok? {
      NothingAfterFailure(env, r, [], [], p.presences);
      return;
    }
    r := TakePresences(env, msg, p.presences);
    if !r.Ok? { return; }
    msg.pendingBytes := p.pendingBytes;
    r := Ok(msg.Contents());
  }

  // ---------- the round trip ----------

  predicate AddrsOk(env: Env, addrs: seq<nat>) {
    forall j :: 0 <= j < |addrs| ==> env.isAddr(addrs[j])
  }

  predicate PeersOk(env: Env, infos: seq<AddrInfo>) {
    forall i :: 0 <= i < |infos| ==> env.isPeer(infos[i].id) && AddrsOk(env, infos[i].addrs)
  }

  predicate WantsOk(wants: map<Cid, Entry>) {
    forall c :: c in wants ==> c != UNDEF && wants[c].wantType != WantForward
  }

  predicate ForwardsOk(forwards: map<Cid, Entry>) {
    forall c :: c in forwards ==> c != UNDEF
  }

  predicate BlocksOk(env: Env, blocks: map<Cid, Block>) {
    forall c :: c in blocks ==> Authentic(env, blocks[c])
  }

  predicate PresencesOk(presences: map<Cid, Presence>) {
    forall c :: c in presences ==> c != UNDEF && presences[c] != ForwardHave
  }

  predicate ForwardHavesOk(env: Env, peers: map<Cid, seq<AddrInfo>>) {
    forall c :: c in peers ==> c != UNDEF && PeersOk(env, peers[c])
  }

  /** What a message read from a protobuf looks like. */
  predicate Canonical(env: Env, m: Msg) {
    && Consistent(m) && WantsOk(m.wantlist) && ForwardsOk(m.forwardlist)
    && BlocksOk(env, m.blocks) && PresencesOk(m.presences) && ForwardHavesOk(env, m.peers)
  }

  /** Mutator calls that pass defined CIDs, blocks whose data hashes to their CID, peers with
      valid addresses, and the forward types only where they belong. */
  predicate Sound(env: Env, op: Op) {
    match op
    case AddEntry(c, _, wantType, _) => c != UNDEF && wantType != WantForward
    case CancelEntry(c) => c != UNDEF
    case AddForwardEntry(c, _) => c != UNDEF
    case CancelForward(c) => c != UNDEF
    case AddBlock(b) => Authentic(env, b)
    case AddBlockPresence(c, t) => c != UNDEF && t != ForwardHave
    case AddForwardHave(c, ps) => c != UNDEF && PeersOk(env, ps)
    case _ => true
  }

  lemma EntryStaysCanonical(env: Env, m: Msg, c: Cid, priority: int, cancel: bool, wantType: WantType, sendDontHave: bool)
    requires Canonical(env, m) && c != UNDEF && wantType != WantForward
    ensures Canonical(env, WithEntry(m, c, priority, cancel, wantType, sendDontHave))
  {
    var m' := WithEntry(m, c, priority, cancel, wantType, sendDontHave);
    assert WantsFiled(m'.wantlist) && WantsOk(m'.wantlist);
  }

  lemma ForwardStaysCanonical(env: Env, m: Msg, c: Cid, priority: int, cancel: bool)
    requires Canonical(env, m) && c != UNDEF
    ensures Canonical(env, WithForward(m, c, priority, cancel))
  {
    var m' := WithForward(m, c, priority, cancel);
    assert ForwardsFiled(m'.forwardlist) && ForwardsOk(m'.forwardlist);
  }

  lemma BlockStaysCanonical(env: Env, m: Msg, b: Block)
    requires Canonical(env, m) && Authentic(env, b)
    ensures Canonical(env, WithBlock(m, b))
  {
    var m' := WithBlock(m, b);
    assert BlocksFiled(m'.blocks) && BlocksOk(env, m'.blocks) && PresencesOk(m'.presences);
  }

  lemma PresenceStaysCanonical(env: Env, m: Msg, c: Cid, t: Presence)
    requires Canonical(env, m) && c != UNDEF && t != ForwardHave
    ensures Canonical(env, WithPresence(m, c, t))
  {
    var m' := WithPresence(m, c, t);
    assert PresencesOk(m'.presences);
  }

  lemma PeersConcat(env: Env, a: seq<AddrInfo>, b: seq<AddrInfo>)
    requires PeersOk(env, a) && PeersOk(env, b)
    ensures PeersOk(env, a + b)
  {
  }

  lemma PeersStayCanonical(env: Env, m: Msg, c: Cid, ps: seq<AddrInfo>)
    requires Canonical(env, m) && c != UNDEF && PeersOk(env, ps)
    ensures Canonical(env, WithPeers(m, c, ps))
  {
    var m' := WithPeers(m, c, ps);
    PeersConcat(env, if c in m.peers then m.peers[c] else [], ps);
    assert ForwardHavesOk(env, m'.peers);
  }

  lemma StepCanonical(env: Env, m: Msg, op: Op)
    requires Canonical(env, m) && Sound(env, op)
    ensures Canonical(env, Apply(m, op))
  {
    match op
    case AddEntry(c, priority, wantType, dontHave) => EntryStaysCanonical(env, m, c, priority, false, wantType, dontHave);
    case CancelEntry(c) => EntryStaysCanonical(env, m, c, 0, true, WantBlock, false);
    case AddForwardEntry(c, priority) => ForwardStaysCanonical(env, m, c, priority, false);
    case CancelForward(c) => ForwardStaysCanonical(env, m, c, 0, true);
    case AddBlock(b) => BlockStaysCanonical(env, m, b);
    case AddBlockPresence(c, t) => PresenceStaysCanonical(env, m, c, t);
    case AddForwardHave(c, ps) => PeersStayCanonical(env, m, c, ps);
    case _ =>
  }

  lemma {:induction false} SoundCallsStayCanonical(env: Env, full: bool, ops: seq<Op>)
    requires forall op :: op in ops ==> Sound(env, op)
    ensures Canonical(env, ApplyAll(Empty(full), ops))
  {
    if ops != [] {
      var n := |ops| - 1;
      SoundCallsStayCanonical(env, full, ops[..n]);
      StepCanonical(env, ApplyAll(Empty(full), ops[..n]), ops[n]);
    }
  }

  function Restrict<V>(mp: map<Cid, V>, ks: seq<Cid>): (r: map<Cid, V>) {
    map k | k in mp && k in ks :: mp[k]
  }

  lemma RestrictNext<V>(mp: map<Cid, V>, order: seq<Cid>, i: nat)
    requires Visits(order, mp.Keys) && i < |order|
    ensures order[i] in mp && order[i] !in order[..i]
    ensures Restrict(mp, order[..i + 1]) == Restrict(mp, order[..i])[order[i] := mp[order[i]]]
  {
    assert order[..i + 1] == order[..i] + [order[i]];
    assert order[i] in order;
  }

  lemma RestrictAll<V>(mp: map<Cid, V>, order: seq<Cid>)
    requires Visits(order, mp.Keys)
    ensures Restrict(mp, order[..|order|]) == mp
  {
    assert order[..|order|] == order;
  }

  lemma {:induction false} ReadsWants(m0: Msg, entries: map<Cid, Entry>, order: seq<Cid>, i: nat)
    requires Visits(order, entries.Keys) && i <= |order| && m0.wantlist == map[]
    requires WantsFiled(entries) && WantsOk(entries)
    ensures ReadEntries(Ok(m0), EntriesIn(entries, order)[..i]) == Ok(m0.(wantlist := Restrict(entries, order[..i])))
  {
    if i == 0 {
      assert Restrict(entries, order[..0]) == map[];
    } else {
      ReadsWants(m0, entries, order, i - 1);
      RestrictNext(entries, order, i - 1);
      var es := EntriesIn(entries, order)[..i];
      assert es[..i - 1] == EntriesIn(entries, order)[..i - 1];
    }
  }

  lemma {:induction false} ReadsForwards(m0: Msg, entries: map<Cid, Entry>, order: seq<Cid>, i: nat)
    requires Visits(order, entries.Keys) && i <= |order| && m0.forwardlist == map[]
    requires ForwardsFiled(entries) && ForwardsOk(entries)
    ensures ReadEntries(Ok(m0), EntriesIn(entries, order)[..i]) == Ok(m0.(forwardlist := Restrict(entries, order[..i])))
  {
    if i == 0 {
      assert Restrict(entries, order[..0]) == map[];
    } else {
      ReadsForwards(m0, entries, order, i - 1);
      RestrictNext(entries, order, i - 1);
      var es := EntriesIn(entries, order)[..i];
      assert es[..i - 1] == EntriesIn(entries, order)[..i - 1];
    }
  }

  lemma {:induction false} ReadsPayload(env: Env, m0: Msg, blocks: map<Cid, Block>, order: seq<Cid>, i: nat)
    requires Visits(order, blocks.Keys) && i <= |order| && m0.blocks == map[] && m0.presences == map[]
    requires BlocksFiled(blocks) && BlocksOk(env, blocks)
    ensures ReadPayload(env, Ok(m0), PayloadIn(env, blocks, order)[..i]) == Ok(m0.(blocks := Restrict(blocks, order[..i])))
  {
    if i == 0 {
      assert Restrict(blocks, order[..0]) == map[];
    } else {
      ReadsPayload(env, m0, blocks, order, i - 1);
      RestrictNext(blocks, order, i - 1);
      var bs := PayloadIn(env, blocks, order)[..i];
      assert bs[..i - 1] == PayloadIn(env, blocks, order)[..i - 1];
      assert map[] - {order[i - 1]} == m0.presences;
    }
  }

  lemma {:induction false} ReadsPresences(env: Env, m0: Msg, presences: map<Cid, Presence>, order: seq<Cid>, i: nat)
    requires Visits(order, presences.Keys) && i <= |order| && m0.presences == map[] && m0.blocks.Keys !! presences.Keys
    requires PresencesOk(presences)
    ensures ReadPresences(env, Ok(m0), PresencesIn(presences, order)[..i]) == Ok(m0.(presences := Restrict(presences, order[..i])))
  {
    if i == 0 {
      assert Restrict(presences, order[..0]) == map[];
    } else {
      ReadsPresences(env, m0, presences, order, i - 1);
      RestrictNext(presences, order, i - 1);
      var c, ps := order[i - 1], PresencesIn(presences, order)[..i];
      assert ps[..i - 1] == PresencesIn(presences, order)[..i - 1] && ps[i - 1] == PbPresence(c, presences[c], []);
      assert c in presences.Keys && c !in m0.blocks;
    }
  }

  lemma {:induction false} KeepsAddrs(env: Env, addrs: seq<nat>)
    requires AddrsOk(env, addrs)
    ensures KeepAddrs(env, addrs) == addrs
  {
    if addrs != [] { KeepsAddrs(env, addrs[..|addrs| - 1]); }
  }

  lemma {:induction false} KeepsPeers(env: Env, infos: seq<AddrInfo>)
    requires PeersOk(env, infos)
    ensures KeepPeers(env, infos) == infos
  {
    if infos != [] {
      var n := |infos| - 1;
      KeepsPeers(env, infos[..n]);
      KeepsAddrs(env, infos[n].addrs);
      assert infos[..n] + [infos[n]] == infos;
    }
  }

  lemma {:induction false} ReadsPeers(env: Env, m0: Msg, peers: map<Cid, seq<AddrInfo>>, order: seq<Cid>, i: nat)
    requires Visits(order, peers.Keys) && i <= |order| && m0.peers == map[]
    requires ForwardHavesOk(env, peers)
    ensures ReadPresences(env, Ok(m0), PeersIn(peers, order)[..i]) == Ok(m0.(peers := Restrict(peers, order[..i])))
  {
    if i == 0 {
      assert Restrict(peers, order[..0]) == map[];
    } else {
      ReadsPeers(env, m0, peers, order, i - 1);
      RestrictNext(peers, order, i - 1);
      KeepsPeers(env, peers[order[i - 1]]);
      assert [] + peers[order[i - 1]] == peers[order[i - 1]];
      var ps := PeersIn(peers, order)[..i];
      assert ps[..i - 1] == PeersIn(peers, order)[..i - 1];
    }
  }

  lemma {:induction false} EntriesConcat(r: Result, a: seq<Entry>, b: seq<Entry>)
    ensures ReadEntries(r, a + b) == ReadEntries(ReadEntries(r, a), b)
    decreases |b|
  {
    if b == [] {
      assert a + b == a;
    } else {
      EntriesConcat(r, a, b[..|b| - 1]);
      assert (a + b)[..|a + b| - 1] == a + b[..|b| - 1];
    }
  }

  lemma {:induction false} PresencesConcat(env: Env, r: Result, a: seq<PbPresence>, b: seq<PbPresence>)
    ensures ReadPresences(env, r, a + b) == ReadPresences(env, ReadPresences(env, r, a), b)
    decreases |b|
  {
    if b == [] {
      assert a + b == a;
    } else {
      PresencesConcat(env, r, a, b[..|b| - 1]);
      assert (a + b)[..|a + b| - 1] == a + b[..|b| - 1];
    }
  }

  lemma EntriesReadBack(m: Msg, o: Orders, m0: Msg)
    requires Consistent(m) && OrdersOf(m, o) && m0.wantlist == map[] && m0.forwardlist == map[]
    requires WantsOk(m.wantlist) && ForwardsOk(m.forwardlist)
    ensures ReadEntries(Ok(m0), EntriesIn(m.wantlist, o.wants) + EntriesIn(m.forwardlist, o.forwards)) ==
              Ok(m0.(wantlist := m.wantlist, forwardlist := m.forwardlist))
  {
    var a, b := EntriesIn(m.wantlist, o.wants), EntriesIn(m.forwardlist, o.forwards);
    AllWants(m0, m.wantlist, o.wants);
    AllForwards(m0.(wantlist := m.wantlist), m.forwardlist, o.forwards);
    EntriesConcat(Ok(m0), a, b);
  }

  lemma AllWants(m0: Msg, entries: map<Cid, Entry>, order: seq<Cid>)
    requires Visits(order, entries.Keys) && m0.wantlist == map[] && WantsFiled(entries) && WantsOk(entries)
    ensures ReadEntries(Ok(m0), EntriesIn(entries, order)) == Ok(m0.(wantlist := entries))
  {
    ReadsWants(m0, entries, order, |order|);
    RestrictAll(entries, order);
    assert EntriesIn(entries, order)[..|order|] == EntriesIn(entries, order);
  }

  lemma AllForwards(m0: Msg, entries: map<Cid, Entry>, order: seq<Cid>)
    requires Visits(order, entries.Keys) && m0.forwardlist == map[] && ForwardsFiled(entries) && ForwardsOk(entries)
    ensures ReadEntries(Ok(m0), EntriesIn(entries, order)) == Ok(m0.(forwardlist := entries))
  {
    ReadsForwards(m0, entries, order, |order|);
    RestrictAll(entries, order);
    assert EntriesIn(entries, order)[..|order|] == EntriesIn(entries, order);
  }

  lemma AllPresences(env: Env, m0: Msg, presences: map<Cid, Presence>, order: seq<Cid>)
    requires Visits(order, presences.Keys) && m0.presences == map[] && m0.blocks.Keys !! presences.Keys && PresencesOk(presences)
    ensures ReadPresences(env, Ok(m0), PresencesIn(presences, order)) == Ok(m0.(presences := presences))
  {
    ReadsPresences(env, m0, presences, order, |order|);
    RestrictAll(presences, order);
    assert PresencesIn(presences, order)[..|order|] == PresencesIn(presences, order);
  }

  lemma AllPeers(env: Env, m0: Msg, peers: map<Cid, seq<AddrInfo>>, order: seq<Cid>)
    requires Visits(order, peers.Keys) && m0.peers == map[] && ForwardHavesOk(env, peers)
    ensures ReadPresences(env, Ok(m0), PeersIn(peers, order)) == Ok(m0.(peers := peers))
  {
    ReadsPeers(env, m0, peers, order, |order|);
    RestrictAll(peers, order);
    assert PeersIn(peers, order)[..|order|] == PeersIn(peers, order);
  }

  lemma PresencesReadBack(env: Env, m: Msg, o: Orders, m0: Msg)
    requires Canonical(env, m) && OrdersOf(m, o) && m0.presences == map[] && m0.peers == map[] && m0.blocks == m.blocks
    ensures ReadPresences(env, Ok(m0), PresencesIn(m.presences, o.presences) + PeersIn(m.peers, o.peers)) ==
              Ok(m0.(presences := m.presences, peers := m.peers))
  {
    var a, b := PresencesIn(m.presences, o.presences), PeersIn(m.peers, o.peers);
    AllPresences(env, m0, m.presences, o.presences);
    AllPeers(env, m0.(presences := m.presences), m.peers, o.peers);
    PresencesConcat(env, Ok(m0), a, b);
  }

  lemma PayloadReadsBack(env: Env, m: Msg, o: Orders, m0: Msg)
    requires Canonical(env, m) && OrdersOf(m, o) && m0.presences == map[] && m0.blocks == map[]
    ensures ReadPayload(env, Ok(m0), PayloadIn(env, m.blocks, o.blocks)) == Ok(m0.(blocks := m.blocks))
  {
    var bs := PayloadIn(env, m.blocks, o.blocks);
    ReadsPayload(env, m0, m.blocks, o.blocks, |o.blocks|);
    RestrictAll(m.blocks, o.blocks);
    assert bs[..|o.blocks|] == bs;
  }

  /** Converting to the protobuf, in whatever order the maps are visited, and back. */
  lemma RoundTrip(env: Env, m: Msg, o: Orders)
    requires Canonical(env, m) && OrdersOf(m, o)
    ensures FromProto(env, ToProto(env, m, o)) == Ok(m)
  {
    var m0 := Empty(m.full);
    EntriesReadBack(m, o, m0);
    var m1 := m0.(wantlist := m.wantlist, forwardlist := m.forwardlist);
    assert ReadOldBlocks(env, Ok(m1), []) == Ok(m1);
    PayloadReadsBack(env, m, o, m1);
    var m2 := m1.(blocks := m.blocks);
    PresencesReadBack(env, m, o, m2);
  }

  // ---------- and only then ----------

  lemma {:induction false} EntriesStayCanonical(env: Env, r: Result, es: seq<Entry>)
    requires r.Ok? ==> Canonical(env, r.m)
    ensures ReadEntries(r, es).Ok? ==> Canonical(env, ReadEntries(r, es).m)
  {
    if es != [] {
      var n := |es| - 1;
      EntriesStayCanonical(env, r, es[..n]);
      var before := ReadEntries(r, es[..n]);
      var e := es[n];
      if before.Ok? && e.cid != UNDEF {
        if e.wantType == WantForward {
          ForwardStaysCanonical(env, before.m, e.cid, e.priority, e.cancel);
        } else {
          EntryStaysCanonical(env, before.m, e.cid, e.priority, e.cancel, e.wantType, e.sendDontHave);
        }
      }
    }
  }

  lemma {:induction false} OldBlocksStayCanonical(env: Env, r: Result, ds: seq<Data>)
    requires EnvOk(env) && (r.Ok? ==> Canonical(env, r.m))
    ensures ReadOldBlocks(env, r, ds).Ok? ==> Canonical(env, ReadOldBlocks(env, r, ds).m)
  {
    if ds != [] {
      var n := |ds| - 1;
      OldBlocksStayCanonical(env, r, ds[..n]);
      var before := ReadOldBlocks(env, r, ds[..n]);
      if before.Ok? { BlockStaysCanonical(env, before.m, Block(env.v0(ds[n]), ds[n])); }
    }
  }

  lemma {:induction false} PayloadStaysCanonical(env: Env, r: Result, bs: seq<PbBlock>)
    requires EnvOk(env) && (r.Ok? ==> Canonical(env, r.m))
    ensures ReadPayload(env, r, bs).Ok? ==> Canonical(env, ReadPayload(env, r, bs).m)
  {
    if bs != [] {
      var n := |bs| - 1;
      PayloadStaysCanonical(env, r, bs[..n]);
      var before := ReadPayload(env, r, bs[..n]);
      var c := env.sum(bs[n].prefix, bs[n].data);
      if before.Ok? && c.Some? { BlockStaysCanonical(env, before.m, Block(c.value, bs[n].data)); }
    }
  }

  lemma {:induction false} KeptAddrsAreOk(env: Env, addrs: seq<nat>)
    ensures AddrsOk(env, KeepAddrs(env, addrs))
  {
    if addrs != [] { KeptAddrsAreOk(env, addrs[..|addrs| - 1]); }
  }

  lemma {:induction false} KeptPeersAreOk(env: Env, infos: seq<AddrInfo>)
    ensures PeersOk(env, KeepPeers(env, infos))
  {
    if infos != [] {
      KeptPeersAreOk(env, infos[..|infos| - 1]);
      KeptAddrsAreOk(env, infos[|infos| - 1].addrs);
    }
  }

  lemma {:induction false} PresencesStayCanonical(env: Env, r: Result, ps: seq<PbPresence>)
    requires r.Ok? ==> Canonical(env, r.m)
    ensures ReadPresences(env, r, ps).Ok? ==> Canonical(env, ReadPresences(env, r, ps).m)
  {
    if ps != [] {
      var n := |ps| - 1;
      PresencesStayCanonical(env, r, ps[..n]);
      var before := ReadPresences(env, r, ps[..n]);
      var p := ps[n];
      if before.Ok? && p.cid != UNDEF {
        if p.t == ForwardHave {
          KeptPeersAreOk(env, p.infos);
          PeersStayCanonical(env, before.m, p.cid, KeepPeers(env, p.infos));
        } else {
          PresenceStaysCanonical(env, before.m, p.cid, p.t);
        }
      }
    }
  }

  /** Every message read from any protobuf is canonical. */
  lemma ReadIsCanonical(env: Env, p: Pb)
    requires EnvOk(env) && FromProto(env, p).Ok?
    ensures Canonical(env, FromProto(env, p).m)
  {
    var r1 := ReadEntries(Ok(Empty(p.full)), p.entries);
    EntriesStayCanonical(env, Ok(Empty(p.full)), p.entries);
    var r2 := ReadOldBlocks(env, r1, p.oldBlocks);
    OldBlocksStayCanonical(env, r1, p.oldBlocks);
    var r3 := ReadPayload(env, r2, p.payload);
    PayloadStaysCanonical(env, r2, p.payload);
    PresencesStayCanonical(env, r3, p.presences);
  }

  /** The conversion restores a message if and only if the message is canonical, whatever the
      order of the maps. */
  lemma RoundTripIff(env: Env, m: Msg, o: Orders)
    requires EnvOk(env) && OrdersOf(m, o)
    ensures FromProto(env, ToProto(env, m, o)) == Ok(m) <==> Canonical(env, m)
  {
    if Canonical(env, m) { RoundTrip(env, m, o); }
    if FromProto(env, ToProto(env, m, o)) == Ok(m) { ReadIsCanonical(env, ToProto(env, m, o)); }
  }

  /** A want of the forward type passed to AddEntry: the message comes back without it in the
      wantlist. */
  lemma ForwardWantExample() returns (env: Env, m: Msg, o: Orders)
    ensures EnvOk(env) && m == ApplyAll(Empty(false), [AddEntry(1, 0, WantForward, false)]) && OrdersOf(m, o)
    ensures FromProto(env, ToProto(env, m, o)) != Ok(m)
  {
    env := Env(c => 0, (p, d) => Some(1), d => 1, i => true, a => true);
    var op := AddEntry(1, 0, WantForward, false);
    m := Apply(Empty(false), op);
    assert [op][..0] == [];
    o := Orders([1], [], [], [], []);
    assert 1 in m.wantlist && m.wantlist[1].wantType == WantForward;
    RoundTripIff(env, m, o);
  }

  /** So every message built by sound calls survives the wire. */
  lemma SoundMessagesSurvive(env: Env, full: bool, ops: seq<Op>, o: Orders)
    requires (forall op :: op in ops ==> Sound(env, op)) && OrdersOf(ApplyAll(Empty(full), ops), o)
    ensures var m := ApplyAll(Empty(full), ops); FromProto(env, ToProto(env, m, o)) == Ok(m)
  {
    SoundCallsStayCanonical(env, full, ops);
    RoundTrip(env, ApplyAll(Empty(full), ops), o);
  }
}
