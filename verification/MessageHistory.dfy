/**
 What a Bitswap message holds, told by the calls that were made: for every CID the entries, blocks,
 presences and peers are those that the calls about this CID add up to, however often it is
 repeated.  The same holds of a protobuf that repeats a CID.
 */
module MessageHistory {
  import opened Options
  import opened BitswapMessage

  // ---------- wants ----------

  /** A call of addEntry about one CID. */
  datatype WantCall = WantCall(priority: int, wantType: WantType, cancel: bool, sendDontHave: bool)

  /** A have that is followed by a block becomes a block; else the first call decides. */
  function TypeOf(calls: seq<WantCall>): (t: WantType)
    requires calls != []
  {
    if calls[0].wantType == WantHave && exists k :: 0 <= k < |calls| && calls[k].wantType == WantBlock then WantBlock
    else calls[0].wantType
  }

  /** The call sets the priority: it is the first one, or asks for what is in the entry by then. */
  predicate SetsPriority(calls: seq<WantCall>, k: nat)
    requires k < |calls|
  {
    k == 0 || calls[k].wantType == TypeOf(calls[..k])
  }

  ghost predicate PriorityIs(calls: seq<WantCall>, p: int, k: nat) {
    && k < |calls| && SetsPriority(calls, k) && p == calls[k].priority
    && forall j: nat :: k < j < |calls| ==> !SetsPriority(calls, j)
  }

  /** The entry that calls about one CID leave: a cancel or a request for DONT_HAVE is never taken
      back, and the priority is that of the last call that sets it. */
  ghost predicate IsWant(c: Cid, calls: seq<WantCall>, e: Entry) {
    && calls != [] && e.cid == c && e.wantType == TypeOf(calls)
    && (e.cancel <==> exists k :: 0 <= k < |calls| && calls[k].cancel)
    && (e.sendDontHave <==> exists k :: 0 <= k < |calls| && calls[k].sendDontHave)
    && exists k: nat :: PriorityIs(calls, e.priority, k)
  }

  ghost predicate WantsAre(m: Msg, c: Cid, calls: seq<WantCall>) {
    && (c in m.wantlist <==> calls != [])
    && (c in m.wantlist ==> IsWant(c, calls, m.wantlist[c]))
  }

  lemma TypeNext(calls: seq<WantCall>, call: WantCall)
    requires calls != []
    ensures TypeOf(calls + [call]) ==
              if call.wantType == WantBlock && TypeOf(calls) == WantHave then WantBlock else TypeOf(calls)
  {
    var more := calls + [call];
    forall k | 0 <= k < |calls| ensures more[k] == calls[k] { }
    assert more[|calls|] == call;
  }

  lemma SetsNext(calls: seq<WantCall>, call: WantCall, k: nat)
    requires k < |calls|
    ensures SetsPriority(calls + [call], k) == SetsPriority(calls, k)
  {
    assert (calls + [call])[..k] == calls[..k];
  }

  lemma PriorityNext(calls: seq<WantCall>, call: WantCall, p: int, k: nat) returns (k': nat)
    requires PriorityIs(calls, p, k)
    ensures PriorityIs(calls + [call], if call.wantType == TypeOf(calls) then call.priority else p, k')
  {
    var (more, n) := (calls + [call], |calls|);
    assert more[..n] == calls;
    forall j: nat | j < n ensures SetsPriority(more, j) == SetsPriority(calls, j) { SetsNext(calls, call, j); }
    if call.wantType == TypeOf(calls) {
      k' := n;
    } else {
      k' := k;
    }
  }

  /** One more call about the CID. */
  lemma WantNext(m: Msg, c: Cid, calls: seq<WantCall>, call: WantCall)
    requires WantsAre(m, c, calls)
    ensures WantsAre(WithEntry(m, c, call.priority, call.cancel, call.wantType, call.sendDontHave), c, calls + [call])
  {
    var m' := WithEntry(m, c, call.priority, call.cancel, call.wantType, call.sendDontHave);
    var more := calls + [call];
    assert more[|calls|] == call;
    if calls == [] {
      assert PriorityIs(more, call.priority, 0);
    } else {
      var e := m.wantlist[c];
      var k: nat :| PriorityIs(calls, e.priority, k);
      TypeNext(calls, call);
      var k' := PriorityNext(calls, call, e.priority, k);
      assert PriorityIs(more, m'.wantlist[c].priority, k');
      FlagsNext(calls, call);
    }
  }

  lemma FlagsNext(calls: seq<WantCall>, call: WantCall)
    ensures var more := calls + [call];
            && ((exists k :: 0 <= k < |more| && more[k].cancel) <==> (exists k :: 0 <= k < |calls| && calls[k].cancel) || call.cancel)
            && ((exists k :: 0 <= k < |more| && more[k].sendDontHave) <==>
                  (exists k :: 0 <= k < |calls| && calls[k].sendDontHave) || call.sendDontHave)
  {
    var more := calls + [call];
    assert more[|calls|] == call;
    forall k | 0 <= k < |calls| ensures more[k] == calls[k] { }
  }

  // ---------- forwards ----------

  /** A call of addForwardEntry about one CID. */
  datatype ForwardCall = ForwardCall(priority: int, cancel: bool)

  /** The call makes a new entry: it is the first one, or says the same about cancelling as the
      call before. */
  predicate Replaces(calls: seq<ForwardCall>, k: nat)
    requires k < |calls|
  {
    k == 0 || calls[k].cancel == calls[k - 1].cancel
  }

  ghost predicate ForwardPriorityIs(calls: seq<ForwardCall>, p: int, k: nat) {
    && k < |calls| && Replaces(calls, k) && p == calls[k].priority
    && forall j: nat :: k < j < |calls| ==> !Replaces(calls, j)
  }

  /** The last call decides about cancelling, the last one that makes a new entry about priority. */
  ghost predicate IsForward(c: Cid, calls: seq<ForwardCall>, e: Entry) {
    && calls != [] && e.cid == c && e.wantType == WantForward && e.sendDontHave
    && e.cancel == calls[|calls| - 1].cancel
    && exists k: nat :: ForwardPriorityIs(calls, e.priority, k)
  }

  ghost predicate ForwardsAre(m: Msg, c: Cid, calls: seq<ForwardCall>) {
    && (c in m.forwardlist <==> calls != [])
    && (c in m.forwardlist ==> IsForward(c, calls, m.forwardlist[c]))
  }

  lemma ForwardNext(m: Msg, c: Cid, calls: seq<ForwardCall>, call: ForwardCall)
    requires ForwardsAre(m, c, calls)
    ensures ForwardsAre(WithForward(m, c, call.priority, call.cancel), c, calls + [call])
  {
    var (more, n) := (calls + [call], |calls|);
    var e' := WithForward(m, c, call.priority, call.cancel).forwardlist[c];
    forall j: nat | j < n ensures Replaces(more, j) == Replaces(calls, j) { }
    if calls != [] && calls[n - 1].cancel != call.cancel {
      var k: nat :| ForwardPriorityIs(calls, m.forwardlist[c].priority, k);
      assert ForwardPriorityIs(more, e'.priority, k);
    } else {
      assert ForwardPriorityIs(more, e'.priority, n);
    }
  }

  // ---------- the calls about one CID, since they last counted ----------

  function WantsThen(before: seq<WantCall>, op: Op, c: Cid): (r: seq<WantCall>) {
    match op
    case AddEntry(d, p, t, s) => if d == c then before + [WantCall(p, t, false, s)] else before
    case CancelEntry(d) => if d == c then before + [WantCall(0, WantBlock, true, false)] else before
    case Remove(d) => if d == c then [] else before
    case Reset(_) => []
    case _ => before
  }

  function WantCalls(ops: seq<Op>, c: Cid): (r: seq<WantCall>) {
    if ops == [] then [] else WantsThen(WantCalls(ops[..|ops| - 1], c), ops[|ops| - 1], c)
  }

  function ForwardsThen(before: seq<ForwardCall>, op: Op, c: Cid): (r: seq<ForwardCall>) {
    match op
    case AddForwardEntry(d, p) => if d == c then before + [ForwardCall(p, false)] else before
    case CancelForward(d) => if d == c then before + [ForwardCall(0, true)] else before
    case RemoveForward(d) => if d == c then [] else before
    case Reset(_) => []
    case _ => before
  }

  function ForwardCalls(ops: seq<Op>, c: Cid): (r: seq<ForwardCall>) {
    if ops == [] then [] else ForwardsThen(ForwardCalls(ops[..|ops| - 1], c), ops[|ops| - 1], c)
  }

  lemma CallsThen(ops: seq<Op>, op: Op, c: Cid)
    ensures WantCalls(ops + [op], c) == WantsThen(WantCalls(ops, c), op, c)
    ensures ForwardCalls(ops + [op], c) == ForwardsThen(ForwardCalls(ops, c), op, c)
  {
    assert (ops + [op])[..|ops|] == ops;
  }

  /** The operations since the last Reset. */
  function Recent(ops: seq<Op>): (r: seq<Op>) {
    if ops == [] || ops[|ops| - 1].Reset? then [] else Recent(ops[..|ops| - 1]) + [ops[|ops| - 1]]
  }

  predicate AddsBlock(op: Op, c: Cid) {
    op.AddBlock? && op.b.cid == c
  }

  predicate AddsPresence(op: Op, c: Cid) {
    op.AddBlockPresence? && op.c == c
  }

  /** Place `k` has the last operation that does so. */
  ghost predicate LastBlock(ops: seq<Op>, c: Cid, k: nat) {
    k < |ops| && AddsBlock(ops[k], c) && forall j :: k < j < |ops| ==> !AddsBlock(ops[j], c)
  }

  ghost predicate LastPresence(ops: seq<Op>, c: Cid, k: nat) {
    k < |ops| && AddsPresence(ops[k], c) && forall j :: k < j < |ops| ==> !AddsPresence(ops[j], c)
  }

  ghost predicate AnyBlock(ops: seq<Op>, c: Cid) {
    exists k :: 0 <= k < |ops| && AddsBlock(ops[k], c)
  }

  ghost predicate AnyPresence(ops: seq<Op>, c: Cid) {
    exists k :: 0 <= k < |ops| && AddsPresence(ops[k], c)
  }

  lemma AnyNext(ops: seq<Op>, op: Op, c: Cid)
    ensures AnyBlock(ops + [op], c) <==> AnyBlock(ops, c) || AddsBlock(op, c)
    ensures AnyPresence(ops + [op], c) <==> AnyPresence(ops, c) || AddsPresence(op, c)
  {
    var more := ops + [op];
    assert more[|ops|] == op;
    forall k | 0 <= k < |ops| ensures more[k] == ops[k] { }
  }

  lemma LastNext(ops: seq<Op>, op: Op, c: Cid, k: nat)
    ensures LastBlock(ops + [op], c, k) <==> if AddsBlock(op, c) then k == |ops| else LastBlock(ops, c, k)
    ensures LastPresence(ops + [op], c, k) <==> if AddsPresence(op, c) then k == |ops| else LastPresence(ops, c, k)
  {
    var more := ops + [op];
    assert more[|ops|] == op;
    forall j | 0 <= j < |ops| ensures more[j] == ops[j] { }
  }

  /** The block last added; a presence only if no block was added before it or after it. */
  ghost predicate BlocksAre(m: Msg, c: Cid, ops: seq<Op>) {
    && (c in m.blocks <==> AnyBlock(ops, c))
    && (forall k: nat :: LastBlock(ops, c, k) ==> c in m.blocks && m.blocks[c] == ops[k].b)
  }

  ghost predicate PresencesAre(m: Msg, c: Cid, ops: seq<Op>) {
    && (c in m.presences <==> AnyPresence(ops, c) && c !in m.blocks)
    && (forall k: nat :: LastPresence(ops, c, k) && c in m.presences ==> m.presences[c] == ops[k].t)
  }

  /** All peers handed over for the CID, in order. */
  function PeersGiven(ops: seq<Op>, c: Cid): (r: seq<AddrInfo>) {
    if ops == [] then []
    else
      var (before, op) := (PeersGiven(ops[..|ops| - 1], c), ops[|ops| - 1]);
      if op.AddForwardHave? && op.c == c then before + op.ps else before
  }

  ghost predicate PeersAre(m: Msg, c: Cid, ops: seq<Op>) {
    && (c in m.peers <==> exists k :: 0 <= k < |ops| && ops[k].AddForwardHave? && ops[k].c == c)
    && (c in m.peers ==> m.peers[c] == PeersGiven(ops, c))
    && (c !in m.peers ==> PeersGiven(ops, c) == [])
  }

  ghost predicate Told(m: Msg, ops: seq<Op>, c: Cid) {
    && WantsAre(m, c, WantCalls(ops, c)) && ForwardsAre(m, c, ForwardCalls(ops, c))
    && BlocksAre(m, c, Recent(ops)) && PresencesAre(m, c, Recent(ops)) && PeersAre(m, c, Recent(ops))
  }

  lemma WantsKept(m: Msg, m': Msg, c: Cid, calls: seq<WantCall>)
    requires WantsAre(m, c, calls) && (c in m'.wantlist <==> c in m.wantlist)
    requires c in m.wantlist ==> m'.wantlist[c] == m.wantlist[c]
    ensures WantsAre(m', c, calls)
  {
  }

  lemma WantsStep(m: Msg, calls: seq<WantCall>, op: Op, c: Cid)
    requires WantsAre(m, c, calls)
    ensures WantsAre(Apply(m, op), c, WantsThen(calls, op, c))
  {
    if op.AddEntry? && op.c == c {
      WantNext(m, c, calls, WantCall(op.priority, op.wantType, false, op.sendDontHave));
    } else if op.CancelEntry? && op.c == c {
      WantNext(m, c, calls, WantCall(0, WantBlock, true, false));
    } else if !op.Reset? && !(op.Remove? && op.c == c) {
      WantsKept(m, Apply(m, op), c, calls);
    }
  }

  lemma ForwardsKept(m: Msg, m': Msg, c: Cid, calls: seq<ForwardCall>)
    requires ForwardsAre(m, c, calls) && (c in m'.forwardlist <==> c in m.forwardlist)
    requires c in m.forwardlist ==> m'.forwardlist[c] == m.forwardlist[c]
    ensures ForwardsAre(m', c, calls)
  {
  }

  lemma ForwardsStep(m: Msg, calls: seq<ForwardCall>, op: Op, c: Cid)
    requires ForwardsAre(m, c, calls)
    ensures ForwardsAre(Apply(m, op), c, ForwardsThen(calls, op, c))
  {
    if op.AddForwardEntry? && op.c == c {
      ForwardNext(m, c, calls, ForwardCall(op.priority, false));
    } else if op.CancelForward? && op.c == c {
      ForwardNext(m, c, calls, ForwardCall(0, true));
    } else if !op.Reset? && !(op.RemoveForward? && op.c == c) {
      ForwardsKept(m, Apply(m, op), c, calls);
    }
  }

  lemma RecentStep(ops: seq<Op>, op: Op)
    ensures Recent(ops + [op]) == if op.Reset? then [] else Recent(ops) + [op]
  {
    assert (ops + [op])[..|ops|] == ops;
  }

  lemma BlocksStep(m: Msg, ops: seq<Op>, op: Op, c: Cid)
    requires BlocksAre(m, c, ops) && !op.Reset?
    ensures BlocksAre(Apply(m, op), c, ops + [op])
  {
    var (m', more) := (Apply(m, op), ops + [op]);
    AnyNext(ops, op, c);
    forall k: nat | LastBlock(more, c, k) ensures c in m'.blocks && m'.blocks[c] == more[k].b { LastNext(ops, op, c, k); }
  }

  lemma PresencesStep(m: Msg, ops: seq<Op>, op: Op, c: Cid)
    requires BlocksAre(m, c, ops) && PresencesAre(m, c, ops) && !op.Reset?
    ensures PresencesAre(Apply(m, op), c, ops + [op])
  {
    var (m', more) := (Apply(m, op), ops + [op]);
    AnyNext(ops, op, c);
    forall k: nat | LastPresence(more, c, k) && c in m'.presences ensures m'.presences[c] == more[k].t { LastNext(ops, op, c, k); }
  }

  lemma PeersStep(m: Msg, ops: seq<Op>, op: Op, c: Cid)
    requires PeersAre(m, c, ops) && !op.Reset?
    ensures PeersAre(Apply(m, op), c, ops + [op])
  {
    var (m', more, n) := (Apply(m, op), ops + [op], |ops|);
    assert more[n] == op && more[..n] == ops;
    forall k | 0 <= k < n ensures more[k] == ops[k] { }
  }

  lemma ToldStep(m: Msg, ops: seq<Op>, op: Op, c: Cid)
    requires Told(m, ops, c)
    ensures Told(Apply(m, op), ops + [op], c)
  {
    CallsThen(ops, op, c);
    WantsStep(m, WantCalls(ops, c), op, c);
    ForwardsStep(m, ForwardCalls(ops, c), op, c);
    RecentStep(ops, op);
    if !op.Reset? {
      BlocksStep(m, Recent(ops), op, c);
      PresencesStep(m, Recent(ops), op, c);
      PeersStep(m, Recent(ops), op, c);
    }
  }

  lemma ToldAtFirst(full: bool, c: Cid)
    ensures Told(Empty(full), [], c)
  {
  }

  lemma ApplyLast(m: Msg, ops: seq<Op>, op: Op)
    ensures ApplyAll(m, ops + [op]) == Apply(ApplyAll(m, ops), op)
  {
    assert (ops + [op])[..|ops|] == ops;
  }

  lemma ToldNext(m: Msg, m': Msg, ops: seq<Op>, op: Op, ops': seq<Op>, c: Cid)
    requires Told(m, ops, c) && m' == Apply(m, op) && ops' == ops + [op]
    ensures Told(m', ops', c)
  {
    ToldStep(m, ops, op, c);
  }

  /** After any calls in any order, what the message holds about a CID is what the calls about this
      CID say. */
  lemma {:induction false} MessageIsItsHistory(full: bool, ops: seq<Op>, c: Cid)
    ensures Told(ApplyAll(Empty(full), ops), ops, c)
  {
    if ops == [] {
      ToldAtFirst(full, c);
    } else {
      var n := |ops| - 1;
      MessageIsItsHistory(full, ops[..n], c);
      assert ops[..n] + [ops[n]] == ops;
      ApplyLast(Empty(full), ops[..n], ops[n]);
      ToldNext(ApplyAll(Empty(full), ops[..n]), ApplyAll(Empty(full), ops), ops[..n], ops[n], ops, c);
    }
  }

  // ---------- a protobuf that repeats CIDs ----------

  function WantsListed(es: seq<Entry>, c: Cid): (r: seq<WantCall>) {
    if es == [] then []
    else
      var (before, e) := (WantsListed(es[..|es| - 1], c), es[|es| - 1]);
      if e.cid == c && e.wantType != WantForward
      then before + [WantCall(e.priority, e.wantType, e.cancel, e.sendDontHave)] else before
  }

  function ForwardsListed(es: seq<Entry>, c: Cid): (r: seq<ForwardCall>) {
    if es == [] then []
    else
      var (before, e) := (ForwardsListed(es[..|es| - 1], c), es[|es| - 1]);
      if e.cid == c && e.wantType == WantForward then before + [ForwardCall(e.priority, e.cancel)] else before
  }

  lemma {:induction false} ListedEntriesAreRead(full: bool, es: seq<Entry>, c: Cid)
    requires ReadEntries(Ok(Empty(full)), es).Ok?
    ensures var m := ReadEntries(Ok(Empty(full)), es).m;
            WantsAre(m, c, WantsListed(es, c)) && ForwardsAre(m, c, ForwardsListed(es, c))
  {
    if es != [] {
      var (init, e) := (es[..|es| - 1], es[|es| - 1]);
      ListedEntriesAreRead(full, init, c);
      var m := ReadEntries(Ok(Empty(full)), init).m;
      if e.cid == c {
        if e.wantType == WantForward {
          ForwardNext(m, c, ForwardsListed(init, c), ForwardCall(e.priority, e.cancel));
        } else {
          WantNext(m, c, WantsListed(init, c), WantCall(e.priority, e.wantType, e.cancel, e.sendDontHave));
        }
      }
    }
  }

  lemma {:induction false} PresencesLeaveEntries(env: Env, r: Result, ps: seq<PbPresence>)
    requires ReadPresences(env, r, ps).Ok?
    ensures r.Ok?
    ensures var m := ReadPresences(env, r, ps).m; m.wantlist == r.m.wantlist && m.forwardlist == r.m.forwardlist
  {
    if ps != [] { PresencesLeaveEntries(env, r, ps[..|ps| - 1]); }
  }

  lemma {:induction false} PayloadLeavesEntries(env: Env, r: Result, bs: seq<PbBlock>)
    requires ReadPayload(env, r, bs).Ok?
    ensures r.Ok?
    ensures var m := ReadPayload(env, r, bs).m; m.wantlist == r.m.wantlist && m.forwardlist == r.m.forwardlist
  {
    if bs != [] { PayloadLeavesEntries(env, r, bs[..|bs| - 1]); }
  }

  lemma {:induction false} OldBlocksLeaveEntries(env: Env, r: Result, ds: seq<Data>)
    requires ReadOldBlocks(env, r, ds).Ok?
    ensures r.Ok?
    ensures var m := ReadOldBlocks(env, r, ds).m; m.wantlist == r.m.wantlist && m.forwardlist == r.m.forwardlist
  {
    if ds != [] { OldBlocksLeaveEntries(env, r, ds[..|ds| - 1]); }
  }

  /** Reading a protobuf merges the entries that repeat a CID as the same calls would. */
  lemma RepeatedEntriesMerge(env: Env, p: Pb, c: Cid)
    requires FromProto(env, p).Ok?
    ensures var m := FromProto(env, p).m;
            WantsAre(m, c, WantsListed(p.entries, c)) && ForwardsAre(m, c, ForwardsListed(p.entries, c))
  {
    var r1 := ReadEntries(Ok(Empty(p.full)), p.entries);
    var r2 := ReadOldBlocks(env, r1, p.oldBlocks);
    var r3 := ReadPayload(env, r2, p.payload);
    PresencesLeaveEntries(env, r3, p.presences);
    PayloadLeavesEntries(env, r2, p.payload);
    OldBlocksLeaveEntries(env, r1, p.oldBlocks);
    ListedEntriesAreRead(p.full, p.entries, c);
  }

  // ---------- what a protobuf must be to be read ----------

  ghost predicate EntriesDefined(es: seq<Entry>) {
    forall k :: 0 <= k < |es| ==> es[k].cid != UNDEF
  }

  ghost predicate PayloadHashes(env: Env, bs: seq<PbBlock>) {
    forall k :: 0 <= k < |bs| ==> env.sum(bs[k].prefix, bs[k].data).Some?
  }

  ghost predicate PresencesDefined(ps: seq<PbPresence>) {
    forall k :: 0 <= k < |ps| ==> ps[k].cid != UNDEF
  }

  lemma {:induction false} EntriesReadIff(m: Msg, es: seq<Entry>)
    ensures ReadEntries(Ok(m), es).Ok? <==> EntriesDefined(es)
    ensures !EntriesDefined(es) ==> ReadEntries(Ok(m), es) == MissingCid
    ensures EntriesDefined(es) ==>
              var r := ReadEntries(Ok(m), es).m;
              r.blocks == m.blocks && r.presences == m.presences && r.peers == m.peers && r.full == m.full
  {
    if es != [] {
      var n := |es| - 1;
      EntriesReadIff(m, es[..n]);
      assert EntriesDefined(es) <==> EntriesDefined(es[..n]) && es[n].cid != UNDEF;
    }
  }

  /** The calls that the blocks and presences of a protobuf stand for. */
  function OldOps(env: Env, ds: seq<Data>): (r: seq<Op>) {
    seq(|ds|, i requires 0 <= i < |ds| => AddBlock(Block(env.v0(ds[i]), ds[i])))
  }

  function HashOf(env: Env, b: PbBlock): (c: Cid) {
    var c := env.sum(b.prefix, b.data); if c.Some? then c.value else UNDEF
  }

  function PayloadOps(env: Env, bs: seq<PbBlock>): (r: seq<Op>) {
    seq(|bs|, i requires 0 <= i < |bs| =>
      AddBlock(Block(HashOf(env, bs[i]), bs[i].data)))
  }

  function PresenceOp(env: Env, p: PbPresence): (op: Op) {
    if p.t == ForwardHave then AddForwardHave(p.cid, KeepPeers(env, p.infos)) else AddBlockPresence(p.cid, p.t)
  }

  function PresenceOps(env: Env, ps: seq<PbPresence>): (r: seq<Op>) {
    seq(|ps|, i requires 0 <= i < |ps| => PresenceOp(env, ps[i]))
  }

  lemma PresenceIsCall(env: Env, m: Msg, p: PbPresence)
    ensures ReadPresence(env, Ok(m), p) == if p.cid != UNDEF then Ok(Apply(m, PresenceOp(env, p))) else MissingCid
  {
  }

  lemma {:induction false} OldBlocksAreCalls(env: Env, m: Msg, ds: seq<Data>)
    ensures ReadOldBlocks(env, Ok(m), ds) == Ok(ApplyAll(m, OldOps(env, ds)))
  {
    if ds != [] {
      var n := |ds| - 1;
      OldBlocksAreCalls(env, m, ds[..n]);
      assert OldOps(env, ds) == OldOps(env, ds[..n]) + [OldOps(env, ds)[n]];
      ApplyLast(m, OldOps(env, ds[..n]), OldOps(env, ds)[n]);
    }
  }

  lemma {:induction false} PayloadIsCalls(env: Env, m: Msg, bs: seq<PbBlock>)
    ensures ReadPayload(env, Ok(m), bs) == if PayloadHashes(env, bs) then Ok(ApplyAll(m, PayloadOps(env, bs))) else BadBlock
  {
    if bs != [] {
      var n := |bs| - 1;
      PayloadIsCalls(env, m, bs[..n]);
      assert PayloadHashes(env, bs) <==> PayloadHashes(env, bs[..n]) && env.sum(bs[n].prefix, bs[n].data).Some?;
      assert PayloadOps(env, bs) == PayloadOps(env, bs[..n]) + [PayloadOps(env, bs)[n]];
      ApplyLast(m, PayloadOps(env, bs[..n]), PayloadOps(env, bs)[n]);
    }
  }

  lemma {:induction false} PresencesAreCalls(env: Env, m: Msg, ps: seq<PbPresence>)
    ensures ReadPresences(env, Ok(m), ps) == if PresencesDefined(ps) then Ok(ApplyAll(m, PresenceOps(env, ps))) else MissingCid
  {
    if ps != [] {
      var n := |ps| - 1;
      PresencesAreCalls(env, m, ps[..n]);
      var (init, op) := (PresenceOps(env, ps[..n]), PresenceOp(env, ps[n]));
      assert PresencesDefined(ps) <==> PresencesDefined(ps[..n]) && ps[n].cid != UNDEF;
      assert PresenceOps(env, ps) == init + [op];
      ApplyLast(m, init, op);
      PresenceIsCall(env, ApplyAll(m, init), ps[n]);
    }
  }

  lemma {:induction false} ApplyJoined(m: Msg, a: seq<Op>, b: seq<Op>)
    ensures ApplyAll(m, a + b) == ApplyAll(ApplyAll(m, a), b)
    decreases |b|
  {
    if b == [] {
      assert a + b == a;
    } else {
      var n := |b| - 1;
      ApplyJoined(m, a, b[..n]);
      assert a + b == (a + b[..n]) + [b[n]] && b == b[..n] + [b[n]];
      ApplyLast(m, a + b[..n], b[n]);
      ApplyLast(ApplyAll(m, a), b[..n], b[n]);
    }
  }

  function OpsOf(env: Env, p: Pb): (r: seq<Op>) {
    OldOps(env, p.oldBlocks) + PayloadOps(env, p.payload) + PresenceOps(env, p.presences)
  }

  /** A protobuf is read exactly if every CID in it is defined and every payload block has a hash;
      else the error is that of the first part that fails. */
  lemma ReadSucceedsIff(env: Env, p: Pb)
    ensures FromProto(env, p).Ok? <==> EntriesDefined(p.entries) && PayloadHashes(env, p.payload) && PresencesDefined(p.presences)
    ensures FromProto(env, p) == BadBlock <==> EntriesDefined(p.entries) && !PayloadHashes(env, p.payload)
    ensures FromProto(env, p).Ok? ==>
              var r1 := ReadEntries(Ok(Empty(p.full)), p.entries);
              r1.Ok? && FromProto(env, p).m == ApplyAll(r1.m, OpsOf(env, p)).(pendingBytes := p.pendingBytes)
  {
    EntriesReadIff(Empty(p.full), p.entries);
    var r1 := ReadEntries(Ok(Empty(p.full)), p.entries);
    if r1.Ok? {
      OldBlocksAreCalls(env, r1.m, p.oldBlocks);
      var r2 := ReadOldBlocks(env, r1, p.oldBlocks);
      PayloadIsCalls(env, r2.m, p.payload);
      var r3 := ReadPayload(env, r2, p.payload);
      if r3.Ok? {
        PresencesAreCalls(env, r3.m, p.presences);
        ApplyJoined(r1.m, OldOps(env, p.oldBlocks), PayloadOps(env, p.payload));
        ApplyJoined(r1.m, OldOps(env, p.oldBlocks) + PayloadOps(env, p.payload), PresenceOps(env, p.presences));
      } else {
        FailureStays(env, r3, p.presences);
      }
    } else {
      FailureStaysAll(env, r1, p.oldBlocks, p.payload, p.presences);
    }
  }

  lemma {:induction false} FailureStays(env: Env, r: Result, ps: seq<PbPresence>)
    requires !r.Ok?
    ensures ReadPresences(env, r, ps) == r
  {
    if ps != [] { FailureStays(env, r, ps[..|ps| - 1]); }
  }

  lemma {:induction false} FailureStaysAll(env: Env, r: Result, ds: seq<Data>, bs: seq<PbBlock>, ps: seq<PbPresence>)
    requires !r.Ok?
    ensures ReadOldBlocks(env, r, ds) == r && ReadPayload(env, r, bs) == r && ReadPresences(env, r, ps) == r
    decreases |ds| + |bs|
  {
    FailureStays(env, r, ps);
    if ds != [] {
      FailureStaysAll(env, r, ds[..|ds| - 1], bs, ps);
    } else if bs != [] {
      FailureStaysAll(env, r, ds, bs[..|bs| - 1], ps);
    }
  }

  // ---------- and what it is read as ----------

  ghost predicate RestIs(m: Msg, c: Cid, ops: seq<Op>) {
    BlocksAre(m, c, ops) && PresencesAre(m, c, ops) && PeersAre(m, c, ops)
  }

  lemma {:induction false} RestIsHistory(m: Msg, ops: seq<Op>, c: Cid)
    requires m.blocks == map[] && m.presences == map[] && m.peers == map[]
    requires forall k :: 0 <= k < |ops| ==> !ops[k].Reset?
    ensures RestIs(ApplyAll(m, ops), c, ops)
  {
    if ops != [] {
      var n := |ops| - 1;
      var before := ApplyAll(m, ops[..n]);
      RestIsHistory(m, ops[..n], c);
      assert ops == ops[..n] + [ops[n]];
      ApplyLast(m, ops[..n], ops[n]);
      BlocksStep(before, ops[..n], ops[n], c);
      PresencesStep(before, ops[..n], ops[n], c);
      PeersStep(before, ops[..n], ops[n], c);
    }
  }

  /** Reading a protobuf merges blocks, presences and peers that repeat a CID as the same calls
      would: the last block counts, a presence only where there is no block, and peers add up. */
  lemma RepeatedPartsMerge(env: Env, p: Pb, c: Cid)
    requires FromProto(env, p).Ok?
    ensures RestIs(FromProto(env, p).m, c, OpsOf(env, p))
  {
    ReadSucceedsIff(env, p);
    EntriesReadIff(Empty(p.full), p.entries);
    var m := ReadEntries(Ok(Empty(p.full)), p.entries).m;
    RestIsHistory(m, OpsOf(env, p), c);
    RestSame(ApplyAll(m, OpsOf(env, p)), FromProto(env, p).m, c, OpsOf(env, p));
  }

  lemma RestSame(m: Msg, m': Msg, c: Cid, ops: seq<Op>)
    requires RestIs(m, c, ops) && m'.blocks == m.blocks && m'.presences == m.presences && m'.peers == m.peers
    ensures RestIs(m', c, ops)
  {
  }
}
