/**
 The stack that blockstore/caching.go builds: the bloom cache over the ARC cache over a block
 store.  Calls do not overlap here, but the filter is built and the ARC cache forgets entries
 in between.  The stack is compared with the plain store given the same calls.  The store may
 fail any call, and a write that fails may have taken effect, for a batch on some of its keys.
 */
module CacheStack {
  import A = ArcCache
  import B = BloomFilter

  type Key = nat

  datatype Call = Has(k: Key) | GetSize(k: Key) | Get(k: Key) | Put(k: Key) | PutMany(ks: seq<Key>) | DeleteBlock(k: Key)

  datatype Answer = Yes | No | Size(n: nat) | Missing | Block(k: Key) | Done | Failed

  /** What the store does if a call gets through to it: work, or fail with the writes of
      `landed` done. */
  datatype Fault = Works | Fails(landed: set<Key>)

  function OpOf(call: Call): (op: A.Op) {
    match call
    case Has(k) => A.HasOp(k)
    case GetSize(k) => A.SizeOp(k)
    case Get(k) => A.GetOp(k)
    case Put(k) => A.PutOp(k)
    case PutMany(ks) => A.PutManyOp(ks)
    case DeleteBlock(k) => A.DeleteOp(k)
  }

  // ---------- the plain store ----------

  function Reply(size: Key -> nat, present: set<Key>, call: Call): (r: Answer) {
    match call
    case Has(k) => if k in present then Yes else No
    case GetSize(k) => if k in present then Size(size(k)) else Missing
    case Get(k) => if k in present then Block(k) else Missing
    case _ => Done
  }

  /** One call, what the store would do with it, and the answer it got. */
  datatype Event = Event(call: Call, fault: Fault, answer: Answer)

  function Landed(fault: Fault): (r: set<Key>) {
    if fault.Fails? then fault.landed else {}
  }

  function After(present: set<Key>, e: Event): (r: set<Key>) {
    A.StoreAfter(OpOf(e.call), e.answer != Failed, Landed(e.fault), present)
  }

  /** What the plain store may answer. */
  predicate Plain(size: Key -> nat, present: set<Key>, e: Event) {
    e.answer == Reply(size, present, e.call) || (e.fault.Fails? && e.answer == Failed)
  }

  /** The plain store after a history. */
  function StoreAfter(present: set<Key>, events: seq<Event>): (r: set<Key>) {
    if events == [] then present else After(StoreAfter(present, events[..|events| - 1]), events[|events| - 1])
  }

  /** The keys that some put wrote although it failed, and that no put has written with success
      since. */
  function Unsure(events: seq<Event>): (r: set<Key>) {
    if events == [] then {} else UnsureAfter(Unsure(events[..|events| - 1]), events[|events| - 1])
  }

  function UnsureAfter(unsure: set<Key>, e: Event): (r: set<Key>) {
    if !e.call.Put? && !e.call.PutMany? then unsure
    else if e.answer == Failed then unsure + A.SeqSet(A.Keys(OpOf(e.call))) * Landed(e.fault)
    else unsure - A.SeqSet(A.Keys(OpOf(e.call)))
  }

  predicate Reads(call: Call) {
    call.Has? || call.GetSize? || call.Get?
  }

  /** The answer is one the plain store gives, or is about a key in doubt. */
  predicate AnswerOk(size: Key -> nat, present: set<Key>, unsure: set<Key>, e: Event) {
    Plain(size, present, e) || (Reads(e.call) && e.call.k in unsure)
  }

  predicate PlainRun(size: Key -> nat, present: set<Key>, events: seq<Event>) {
    forall i :: 0 <= i < |events| ==> AnswerOk(size, StoreAfter(present, events[..i]), Unsure(events[..i]), events[i])
  }

  lemma ExtendRun(size: Key -> nat, present: set<Key>, events: seq<Event>, e: Event)
    requires PlainRun(size, present, events) && AnswerOk(size, StoreAfter(present, events), Unsure(events), e)
    ensures PlainRun(size, present, events + [e])
    ensures StoreAfter(present, events + [e]) == After(StoreAfter(present, events), e)
    ensures Unsure(events + [e]) == UnsureAfter(Unsure(events), e)
  {
    var all := events + [e];
    assert all[..|events|] == events;
    forall i | 0 <= i < |all| ensures AnswerOk(size, StoreAfter(present, all[..i]), Unsure(all[..i]), all[i]) {
      if i < |events| { assert all[..i] == events[..i]; }
    }
  }

  /** Without writes that fail and land, no key is ever in doubt. */
  lemma {:induction false} NothingUnsure(events: seq<Event>)
    requires forall e :: e in events ==> Landed(e.fault) == {}
    ensures Unsure(events) == {}
  {
    if events != [] {
      var n := |events| - 1;
      NothingUnsure(events[..n]);
      assert events[n] in events;
    }
  }

  /** The call writes `k`: it succeeded, or failed after writing `k`. */
  predicate PutsKey(e: Event, k: Key) {
    (e.call == Put(k) || (e.call.PutMany? && k in e.call.ks)) && (e.answer != Failed || k in Landed(e.fault))
  }

  predicate DeletesKey(e: Event, k: Key) {
    e.call == DeleteBlock(k) && (e.answer != Failed || k in Landed(e.fault))
  }

  /** The call at `i` put `k`, and none after it deleted `k`. */
  ghost predicate PutFor(events: seq<Event>, k: Key, i: nat) {
    i < |events| && PutsKey(events[i], k) && forall j :: i < j < |events| ==> !DeletesKey(events[j], k)
  }

  ghost predicate NeverDeleted(events: seq<Event>, k: Key) {
    forall j :: 0 <= j < |events| ==> !DeletesKey(events[j], k)
  }

  /** The plain store holds what was put and not deleted since, and what was there and never
      deleted. */
  lemma {:induction false} StoreIsHistory(present: set<Key>, events: seq<Event>, k: Key)
    ensures k in StoreAfter(present, events) <==> (exists i: nat :: PutFor(events, k, i)) || (k in present && NeverDeleted(events, k))
  {
    if events != [] {
      var n := |events| - 1;
      var (init, e) := (events[..n], events[n]);
      StoreIsHistory(present, init, k);
      forall i: nat | i < n ensures PutFor(events, k, i) <==> PutFor(init, k, i) && !DeletesKey(e, k) { }
      assert PutFor(events, k, n) <==> PutsKey(e, k);
      assert k in After(StoreAfter(present, init), e) <==> PutsKey(e, k) || (k in StoreAfter(present, init) && !DeletesKey(e, k));
    }
  }

  /** The call at `i` wrote `k` and failed, and no put of `k` has succeeded since. */
  ghost predicate FailedFor(events: seq<Event>, k: Key, i: nat) {
    && i < |events| && PutsKey(events[i], k) && events[i].answer == Failed
    && forall j :: i < j < |events| ==> !(PutsKey(events[j], k) && events[j].answer != Failed)
  }

  /** A key is in doubt exactly after a put that wrote it and failed, until a put of it succeeds. */
  lemma {:induction false} UnsureIff(events: seq<Event>, k: Key)
    ensures k in Unsure(events) <==> exists i: nat :: FailedFor(events, k, i)
  {
    if events != [] {
      var n := |events| - 1;
      var (init, e) := (events[..n], events[n]);
      UnsureIff(init, k);
      forall i: nat | i < n
        ensures FailedFor(events, k, i) <==> FailedFor(init, k, i) && !(PutsKey(e, k) && e.answer != Failed)
      { }
      assert FailedFor(events, k, n) <==> PutsKey(e, k) && e.answer == Failed;
    }
  }

  // ---------- the ARC cache ----------

  /** The entries are true, except those of `lost`, which say "missing" of keys that are stored. */
  ghost predicate CacheOk(size: Key -> nat, present: set<Key>, cache: map<Key, A.CacheEntry>, lost: set<Key>, k: Key) {
    && (k in lost ==> k in cache && k in present && cache[k] == A.CachedHave(false))
    && (k in cache && k !in lost ==> A.Agrees(size, present, k, cache[k]))
  }

  /** What one call through the ARC cache does, in terms of the functions of the cache: nothing
      if the cache settles it, else one call of the store and its update. */
  predicate Through(size: Key -> nat, op: A.Op, fault: Fault, present: set<Key>, cache: map<Key, A.CacheEntry>,
                    present': set<Key>, cache': map<Key, A.CacheEntry>)
  {
    if A.Undecided(cache, op) then
      && present' == A.StoreAfter(op, fault.Works?, Landed(fault), present)
      && cache' == A.CacheAfter(size, op, fault.Works?, present, cache)
    else present' == present && cache' == cache
  }

  class ArcStore {
    const size: Key -> nat
    /** The keys in the store below. */
    var present: set<Key>
    var cache: map<Key, A.CacheEntry>
    /** History: what failed batches have left wrong in the cache. */
    ghost var lost: set<Key>

    constructor (size: Key -> nat, present: set<Key>)
      ensures this.size == size && this.present == present && Valid() && lost == {}
    {
      this.size := size;
      this.present := present;
      cache := map[];
      lost := {};
    }

    ghost predicate Valid()
      reads this
    {
      forall k :: CacheOk(size, present, cache, lost, k)
    }

    /** Has, GetSize and Get. */
    method Read(call: Call, fault: Fault) returns (r: Answer)
      requires Valid() && Reads(call)
      modifies this`cache
      ensures Valid() && Through(size, OpOf(call), fault, present, old(cache), present, cache)
      ensures call.k !in lost ==> Plain(size, present, Event(call, fault, r))
    {
      assert CacheOk(size, present, cache, lost, call.k);
      match call {
        case Has(k) => r := Has(k, fault);
        case GetSize(k) => r := GetSize(k, fault);
        case Get(k) => r := Get(k, fault);
      }
    }

    method Has(k: Key, fault: Fault) returns (r: Answer)
      requires Valid()
      modifies this`cache
      ensures Valid() && Through(size, A.HasOp(k), fault, present, old(cache), present, cache)
      ensures k !in lost ==> Plain(size, present, Event(Call.Has(k), fault, r))
    {
      assert CacheOk(size, present, cache, lost, k);
      var q := A.QueryCache(cache, k);
      if q.Some? { return if q.value.0 then Yes else No; }
      if fault.Fails? { return Failed; }
      Remember(k, A.CachedHave(k in present));
      r := if k in present then Yes else No;
    }

    method GetSize(k: Key, fault: Fault) returns (r: Answer)
      requires Valid()
      modifies this`cache
      ensures Valid() && Through(size, A.SizeOp(k), fault, present, old(cache), present, cache)
      ensures k !in lost ==> Plain(size, present, Event(Call.GetSize(k), fault, r))
    {
      assert CacheOk(size, present, cache, lost, k);
      var q := A.QueryCache(cache, k);
      if q.Some? {
        if !q.value.0 { return Missing; }
        if q.value.1 >= 0 { return Size(q.value.1); }
      }
      if fault.Fails? { return Failed; }
      if k in present {
        Remember(k, A.CachedSize(size(k)));
        r := Size(size(k));
      } else {
        Remember(k, A.CachedHave(false));
        r := Missing;
      }
    }

    method Get(k: Key, fault: Fault) returns (r: Answer)
      requires Valid()
      modifies this`cache
      ensures Valid() && Through(size, A.GetOp(k), fault, present, old(cache), present, cache)
      ensures k !in lost ==> Plain(size, present, Event(Call.Get(k), fault, r))
    {
      assert CacheOk(size, present, cache, lost, k);
      var q := A.QueryCache(cache, k);
      if q.Some? && !q.value.0 { return Missing; }
      if fault.Fails? { return Failed; }
      if k in present {
        Remember(k, A.CachedSize(size(k)));
        r := Block(k);
      } else {
        Remember(k, A.CachedHave(false));
        r := Missing;
      }
    }

    /** A true entry for a key about which nothing wrong is cached. */
    method Remember(k: Key, e: A.CacheEntry)
      requires Valid() && k !in lost && A.Agrees(size, present, k, e)
      modifies this`cache
      ensures Valid() && cache == old(cache)[k := e]
    {
      cache := cache[k := e];
      forall x ensures CacheOk(size, present, cache, lost, x) { assert CacheOk(size, present, old(cache), lost, x); }
    }

    method Put(k: Key, fault: Fault) returns (r: Answer)
      requires Valid()
      modifies this
      ensures Valid() && Through(size, A.PutOp(k), fault, old(present), old(cache), present, cache)
      ensures Plain(size, old(present), Event(Call.Put(k), fault, r)) && lost == old(lost) - {k}
      ensures present == After(old(present), Event(Call.Put(k), fault, r))
    {
      assert CacheOk(size, present, cache, lost, k);
      var q := A.QueryCache(cache, k);
      if q.Some? && q.value.0 { return Done; }
      if fault.Fails? {
        if k in fault.landed { present := present + {k}; }
        cache := cache - {k};
        r := Failed;
      } else {
        present := present + {k};
        cache := cache[k := A.CachedSize(size(k))];
        r := Done;
      }
      lost := lost - {k};
      forall x ensures CacheOk(size, present, cache, lost, x) { assert old(CacheOk(size, present, cache, lost, x)); }
    }

    method DeleteBlock(k: Key, fault: Fault) returns (r: Answer)
      requires Valid()
      modifies this
      ensures Valid() && Through(size, A.DeleteOp(k), fault, old(present), old(cache), present, cache)
      ensures Plain(size, old(present), Event(Call.DeleteBlock(k), fault, r)) && lost <= old(lost)
      ensures forall x :: x != k ==> (x in present <==> x in old(present))
      ensures k !in old(lost) ==> present == After(old(present), Event(Call.DeleteBlock(k), fault, r))
    {
      assert CacheOk(size, present, cache, lost, k);
      var q := A.QueryCache(cache, k);
      if q.Some? && !q.value.0 { return Done; }
      if fault.Fails? {
        if k in fault.landed { present := present - {k}; }
        cache := cache - {k};
        r := Failed;
      } else {
        present := present - {k};
        cache := cache[k := A.CachedHave(false)];
        r := Done;
      }
      lost := lost - {k};
      forall x ensures CacheOk(size, present, cache, lost, x) { assert old(CacheOk(size, present, cache, lost, x)); }
    }

    /** The keys of a batch that the cache does not know to be present. */
    method Unsettled(ks: seq<Key>) returns (good: seq<Key>)
      requires Valid()
      ensures good == A.NotKnown(cache, ks)
      ensures forall k :: k in good ==> k in ks
      ensures forall k :: k in ks ==> k in good || (k in present && k !in lost)
    {
      good := [];
      for i := 0 to |ks|
        invariant good == A.NotKnown(cache, ks[..i])
        invariant forall k :: k in good ==> k in ks
        invariant forall j :: 0 <= j < i ==> ks[j] in good || (ks[j] in present && ks[j] !in lost)
      {
        assert ks[..i + 1][..i] == ks[..i];
        assert CacheOk(size, present, cache, lost, ks[i]);
        var q := A.QueryCache(cache, ks[i]);
        if q.None? || !q.value.0 { good := good + [ks[i]]; }
      }
      assert ks[..|ks|] == ks;
    }

    /** The batch is written without the keys that are known to be present. */
    method PutMany(ks: seq<Key>, fault: Fault) returns (r: Answer)
      requires Valid()
      modifies this
      ensures Valid() && Through(size, A.PutManyOp(A.NotKnown(old(cache), ks)), fault, old(present), old(cache), present, cache)
      ensures Plain(size, old(present), Event(Call.PutMany(ks), fault, r))
      ensures present == After(old(present), Event(Call.PutMany(ks), fault, r))
      ensures forall k :: k in lost ==> k in old(lost) || (r == Failed && k in ks && k in Landed(fault))
      ensures r == Done ==> forall k :: k in ks ==> k !in lost
    {
      var good := Unsettled(ks);
      if good == [] { return Done; }
      ghost var was := present;
      if fault.Fails? {
        var stored := A.SeqSet(good) * fault.landed;
        present := present + stored;
        lost := lost + (stored - was) * cache.Keys;
        forall x ensures CacheOk(size, present, cache, lost, x) { assert old(CacheOk(size, present, cache, lost, x)); }
        return Failed;
      }
      present := present + A.SeqSet(good);
      forall x | x !in good ensures CacheOk(size, present, cache, lost, x) { assert old(CacheOk(size, present, cache, lost, x)); }
      CacheSizes(good);
      r := Done;
    }

    /** Cache the sizes of a batch that is in the store. */
    method CacheSizes(ks: seq<Key>)
      requires (forall k :: k in ks ==> k in present) && forall k :: k !in ks ==> CacheOk(size, present, cache, lost, k)
      modifies this`cache, this`lost
      ensures Valid() && cache == A.WithSizes(size, old(cache), ks, |ks|) && lost == old(lost) - A.SeqSet(ks)
    {
      ghost var was := cache;
      for i := 0 to |ks|
        invariant cache == A.WithSizes(size, was, ks, i) && lost == old(lost) - A.SeqSet(ks[..i])
        invariant forall k :: k !in ks[i..] ==> CacheOk(size, present, cache, lost, k)
      {
        assert ks[i..] == [ks[i]] + ks[i + 1..] && ks[..i + 1] == ks[..i] + [ks[i]];
        label Before:
        cache := cache[ks[i] := A.CachedSize(size(ks[i]))];
        lost := lost - {ks[i]};
        forall k | k !in ks[i + 1..] ensures CacheOk(size, present, cache, lost, k) {
          assert k == ks[i] || old@Before(CacheOk(size, present, cache, lost, k));
        }
      }
      assert ks[..|ks|] == ks;
    }

    method Evict(k: Key)
      requires Valid()
      modifies this`cache, this`lost
      ensures Valid() && cache == old(cache) - {k} && lost == old(lost) - {k}
    {
      cache := cache - {k};
      lost := lost - {k};
      forall x ensures CacheOk(size, present, cache, lost, x) { assert old(CacheOk(size, present, cache, lost, x)); }
    }
  }

  // ---------- the bloom cache over it ----------

  /** What happens to the stack: a call, a step of the goroutine that builds the filter, or the
      ARC cache forgetting an entry. */
  datatype Item = Do(call: Call, fault: Fault) | StartBuild | Deliver(k: Key) | Close | Cancel | Evict(k: Key)

  /** The calls among the items. */
  function Calls(items: seq<Item>): (r: seq<(Call, Fault)>) {
    if items == [] then []
    else
      var last := items[|items| - 1];
      Calls(items[..|items| - 1]) + (if last.Do? then [(last.call, last.fault)] else [])
  }

  function CallsOf(events: seq<Event>): (r: seq<(Call, Fault)>) {
    seq(|events|, i requires 0 <= i < |events| => (events[i].call, events[i].fault))
  }

  /** A stored key is in the filter or will be delivered to it. */
  predicate FilterOk(index: B.Index, present: set<Key>, bits: set<nat>, build: B.Build, k: Key) {
    k in present ==>
      && (build.Active? ==> B.Positive(index, bits, k))
      && (build.Enumerating? ==> B.Positive(index, bits, k) || k in build.todo)
  }

  class BloomStore {
    const index: B.Index
    const arc: ArcStore
    var bits: set<nat>
    var build: B.Build
    /** History: keys that a failed put wrote and that the filter may lack. */
    ghost var hidden: set<Key>

    constructor (index: B.Index, arc: ArcStore)
      requires arc.Valid()
      ensures this.index == index && this.arc == arc && Valid() && hidden == {}
    {
      this.index := index;
      this.arc := arc;
      bits := {};
      build := B.Waiting;
      hidden := {};
    }

    ghost predicate KeyOk(k: Key)
      reads this, arc
    {
      k in hidden || FilterOk(index, arc.present, bits, build, k)
    }

    ghost predicate Valid()
      reads this, arc
    {
      arc.Valid() && forall k :: KeyOk(k)
    }

    /** hasCached: true when the filter settles that the key is absent. */
    method SaysAbsent(k: Key) returns (absent: bool)
      requires Valid()
      ensures absent ==> k !in arc.present || k in hidden
    {
      assert KeyOk(k);
      absent := build.Active? && !B.Positive(index, bits, k);
    }

    method Read(call: Call, fault: Fault) returns (r: Answer)
      requires Valid() && Reads(call)
      modifies arc`cache
      ensures Valid()
      ensures call.k !in hidden && call.k !in arc.lost ==> Plain(arc.size, arc.present, Event(call, fault, r))
    {
      var absent := SaysAbsent(call.k);
      if absent { return if call.Has? then No else Missing; }
      r := arc.Read(call, fault);
      forall x ensures KeyOk(x) { assert old(KeyOk(x)); }
    }

    method Add(k: Key)
      requires arc.Valid() && forall x :: x != k ==> KeyOk(x)
      modifies this`bits, this`hidden
      ensures Valid() && hidden == old(hidden) - {k}
    {
      bits := bits + index(k);
      hidden := hidden - {k};
      forall x ensures KeyOk(x) { assert x != k ==> old(KeyOk(x)); }
    }

    method Put(k: Key, fault: Fault) returns (r: Answer)
      requires Valid()
      modifies this, arc
      ensures Valid() && Plain(arc.size, old(arc.present), Event(Call.Put(k), fault, r))
      ensures arc.present == After(old(arc.present), Event(Call.Put(k), fault, r))
      ensures arc.lost + hidden <= UnsureAfter(old(arc.lost + hidden), Event(Call.Put(k), fault, r))
    {
      r := arc.Put(k, fault);
      if r == Failed {
        hidden := hidden + {k} * Landed(fault);
        forall x ensures KeyOk(x) { assert old(KeyOk(x)); }
      } else {
        forall x | x != k ensures KeyOk(x) { assert old(KeyOk(x)); }
        Add(k);
      }
    }

    method PutMany(ks: seq<Key>, fault: Fault) returns (r: Answer)
      requires Valid()
      modifies this, arc
      ensures Valid() && Plain(arc.size, old(arc.present), Event(Call.PutMany(ks), fault, r))
      ensures arc.present == After(old(arc.present), Event(Call.PutMany(ks), fault, r))
      ensures arc.lost + hidden <= UnsureAfter(old(arc.lost + hidden), Event(Call.PutMany(ks), fault, r))
    {
      r := arc.PutMany(ks, fault);
      if r == Failed {
        hidden := hidden + A.SeqSet(ks) * Landed(fault);
        forall x ensures KeyOk(x) { assert old(KeyOk(x)); }
      } else {
        forall x | x !in ks ensures KeyOk(x) { assert old(KeyOk(x)); }
        AddAll(ks);
      }
    }

    method AddAll(ks: seq<Key>)
      requires arc.Valid() && forall x :: x !in ks ==> KeyOk(x)
      modifies this`bits, this`hidden
      ensures Valid() && hidden == old(hidden) - A.SeqSet(ks)
    {
      for i := 0 to |ks|
        invariant hidden == old(hidden) - A.SeqSet(ks[..i])
        invariant forall x :: x !in ks[i..] ==> KeyOk(x)
      {
        assert ks[i..] == [ks[i]] + ks[i + 1..] && ks[..i + 1] == ks[..i] + [ks[i]];
        label Before:
        bits := bits + index(ks[i]);
        hidden := hidden - {ks[i]};
        forall x | x !in ks[i + 1..] ensures KeyOk(x) { assert x == ks[i] || old@Before(KeyOk(x)); }
      }
      assert ks[..|ks|] == ks;
    }

    method DeleteBlock(k: Key, fault: Fault) returns (r: Answer)
      requires Valid()
      modifies this, arc
      ensures Valid() && Plain(arc.size, old(arc.present), Event(Call.DeleteBlock(k), fault, r))
      ensures forall x :: x != k ==> (x in arc.present <==> x in old(arc.present))
      ensures k !in old(arc.lost + hidden) ==> arc.present == After(old(arc.present), Event(Call.DeleteBlock(k), fault, r))
      ensures arc.lost + hidden <= old(arc.lost + hidden)
    {
      var absent := SaysAbsent(k);
      if absent { return Done; }
      r := arc.DeleteBlock(k, fault);
      // A deleted key may or may not still be delivered.
      if r != Failed && k !in arc.present { build := B.Delivered(build, k); }
      forall x ensures KeyOk(x) { assert old(KeyOk(x)); }
    }

    /** One call.  `plain` is the plain store so far and `unsure` the keys in doubt. */
    method Perform(call: Call, fault: Fault, ghost plain: set<Key>, ghost unsure: set<Key>) returns (r: Answer)
      requires Valid() && Follows(arc.present, plain, unsure, arc.lost, hidden)
      modifies this, arc
      ensures Valid() && AnswerOk(arc.size, plain, unsure, Event(call, fault, r))
      ensures var e := Event(call, fault, r);
              Follows(arc.present, After(plain, e), UnsureAfter(unsure, e), arc.lost, hidden)
    {
      ghost var was, doubt := arc.present, arc.lost + hidden;
      match call {
        case Put(k) => r := Put(k, fault);
        case PutMany(ks) => r := PutMany(ks, fault);
        case DeleteBlock(k) => r := DeleteBlock(k, fault);
        case _ => r := Read(call, fault);
      }
      ghost var e := Event(call, fault, r);
      assert Reads(call) ==> FollowsAt(was, plain, unsure, call.k);
      forall x ensures FollowsAt(arc.present, After(plain, e), UnsureAfter(unsure, e), x) {
        assert FollowsAt(was, plain, unsure, x);
        assert call.DeleteBlock? && call.k == x ==> x in unsure || x !in doubt;
      }
    }

    method Background(item: Item)
      requires Valid() && !item.Do?
      modifies this, arc
      ensures Valid() && arc.present == old(arc.present) && arc.lost <= old(arc.lost) && hidden == old(hidden)
    {
      match item {
        case StartBuild => if build.Waiting? { build := B.Enumerating(arc.present); }
        case Deliver(k) =>
          if build.Enumerating? {
            bits := bits + index(k);
            build := B.Delivered(build, k);
          }
        // The enumeration ends only when it has delivered every key it has to.
        case Close => if build.Enumerating? && build.todo == {} { build := B.Active; }
        case Cancel => if !build.Active? { build := B.Stopped; }
        case Evict(k) => arc.Evict(k);
      }
      forall x ensures KeyOk(x) { assert old(KeyOk(x)); }
    }

    /** Whatever the build and the evictions do in between and whichever calls the store fails, the
        answers of the stack are answers of the plain store given the same calls, and the stores
        stay the same, except about keys in doubt. */
    method RunAll(items: seq<Item>) returns (events: seq<Event>)
      requires Valid() && arc.lost == {} && hidden == {}
      modifies this, arc
      ensures Valid() && CallsOf(events) == Calls(items)
      ensures PlainRun(arc.size, old(arc.present), events)
      ensures forall k :: k !in Unsure(events) ==> (k in arc.present <==> k in StoreAfter(old(arc.present), events))
    {
      events := [];
      ghost var start := arc.present;
      ghost var plain, unsure := start, {};
      for i := 0 to |items|
        invariant Valid() && CallsOf(events) == Calls(items[..i]) && PlainRun(arc.size, start, events)
        invariant plain == StoreAfter(start, events) && unsure == Unsure(events)
        invariant Follows(arc.present, plain, unsure, arc.lost, hidden)
      {
        assert items[..i + 1][..i] == items[..i];
        if items[i].Do? {
          var r := Perform(items[i].call, items[i].fault, plain, unsure);
          var e := Event(items[i].call, items[i].fault, r);
          ExtendRun(arc.size, start, events, e);
          events, plain, unsure := events + [e], After(plain, e), UnsureAfter(unsure, e);
        } else {
          Background(items[i]);
        }
      }
      assert items[..|items|] == items;
      forall k | k !in unsure ensures k in arc.present <==> k in plain { assert FollowsAt(arc.present, plain, unsure, k); }
    }
  }

  predicate FollowsAt(present: set<Key>, plain: set<Key>, unsure: set<Key>, k: Key) {
    k !in unsure ==> (k in present <==> k in plain)
  }

  /** The store below is the plain store, and both caches are right, except about keys in doubt. */
  ghost predicate Follows(present: set<Key>, plain: set<Key>, unsure: set<Key>, lost: set<Key>, hidden: set<Key>) {
    lost + hidden <= unsure && forall k :: FollowsAt(present, plain, unsure, k)
  }
}
