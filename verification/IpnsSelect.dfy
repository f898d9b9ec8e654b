/**
 Choosing the best of several IPNS records (ipns/ipns.go, ipns/record.go) and the offline
 router that keeps the best record it has been given (routing/offline/offline.go).  A record is
 its bytes; it is read with the entry codec.  Parsing an RFC 3339 time is a given function to
 instants on a line, and whether a record is valid is a given predicate.
 */
module IpnsSelect {
  import opened Options
  import opened ByteOrder
  import opened ProtoWire
  import C = IpnsEntryCodec

  type ParseTime = Bytes -> Option<int>

  // ---------- Compare ----------

  function HasSignatureV2(e: C.Entry): (r: bool) {
    8 in e.fields
  }

  function Sequence(e: C.Entry): (r: int) {
    if 5 in e.fields && e.fields[5].Number? then e.fields[5].n else 0
  }

  function Validity(e: C.Entry): (r: Bytes) {
    if 4 in e.fields && e.fields[4].Blob? then e.fields[4].bytes else []
  }

  /** Some(1) if `a` is newer, Some(-1) if it is older, Some(0) if neither; None is a time that
      does not parse, noticed only when the signatures and sequence numbers agree. */
  function Compare(parse: ParseTime, a: C.Entry, b: C.Entry): (r: Option<int>) {
    if HasSignatureV2(a) && !HasSignatureV2(b) then Some(1)
    else if !HasSignatureV2(a) && HasSignatureV2(b) then Some(-1)
    else if Sequence(a) > Sequence(b) then Some(1)
    else if Sequence(a) < Sequence(b) then Some(-1)
    else
      var at, bt := parse(Validity(a)), parse(Validity(b));
      if at.None? || bt.None? then None
      else if at.value > bt.value then Some(1)
      else if bt.value > at.value then Some(-1)
      else Some(0)
  }

  /** The entry a record holds, if it can be unmarshalled. */
  function Decoded(v: Bytes): (r: Option<C.Entry>) {
    if |v| >= TWO63 then None
    else var r := C.DecodeFrom(C.Entry(map[], []), v, 0); if r.Ok? then Some(r.value) else None
  }

  predicate Parseable(parse: ParseTime, v: Bytes) {
    Decoded(v).Some? && parse(Validity(Decoded(v).value)).Some?
  }

  /** The comparison selectRecord makes: Compare, and the bytes when that does not decide. */
  function Order(parse: ParseTime, a: C.Entry, va: Bytes, b: C.Entry, vb: Bytes): (r: Option<int>) {
    var c := Compare(parse, a, b);
    if c == Some(0) then Some(CompareBytes(va, vb)) else c
  }

  /** `a` is at least as good as `b`. */
  predicate AtLeast(parse: ParseTime, a: Bytes, b: Bytes)
    requires Parseable(parse, a) && Parseable(parse, b)
  {
    Order(parse, Decoded(a).value, a, Decoded(b).value, b).value >= 0
  }

  lemma OrderFlips(parse: ParseTime, a: C.Entry, va: Bytes, b: C.Entry, vb: Bytes)
    requires parse(Validity(a)).Some? && parse(Validity(b)).Some?
    ensures var o, o' := Order(parse, a, va, b, vb), Order(parse, b, vb, a, va);
            o.Some? && o'.Some? && o.value == -o'.value
  {
    BytesFlip(va, vb);
  }

  lemma OrderIsTransitive(parse: ParseTime, a: C.Entry, va: Bytes, b: C.Entry, vb: Bytes, c: C.Entry, vc: Bytes)
    requires parse(Validity(a)).Some? && parse(Validity(b)).Some? && parse(Validity(c)).Some?
    requires Order(parse, a, va, b, vb).value >= 0 && Order(parse, b, vb, c, vc).value >= 0
    ensures Order(parse, a, va, c, vc).value >= 0
  {
    if CompareBytes(va, vb) >= 0 && CompareBytes(vb, vc) >= 0 { BytesTransitive(va, vb, vc); }
  }

  /** On parseable records the comparison is a total order of their bytes. */
  lemma TotalOrder(parse: ParseTime, a: Bytes, b: Bytes, c: Bytes)
    requires Parseable(parse, a) && Parseable(parse, b) && Parseable(parse, c)
    ensures AtLeast(parse, a, b) || AtLeast(parse, b, a)
    ensures AtLeast(parse, a, b) && AtLeast(parse, b, a) <==> a == b
    ensures AtLeast(parse, a, b) && AtLeast(parse, b, c) ==> AtLeast(parse, a, c)
  {
    var ea, eb, ec := Decoded(a).value, Decoded(b).value, Decoded(c).value;
    OrderFlips(parse, ea, a, eb, b);
    BytesSame(a, b);
    if AtLeast(parse, a, b) && AtLeast(parse, b, c) { OrderIsTransitive(parse, ea, a, eb, b, ec, c); }
  }

  // ---------- selecting ----------

  datatype Choice = Index(i: nat) | NoRecords | BadRecord | BadTime

  /** `v` is a best one among `vals`. */
  ghost predicate Best(parse: ParseTime, vals: seq<Bytes>, v: Bytes) {
    && v in vals && AllParse(parse, vals)
    && forall w :: w in vals ==> AtLeast(parse, v, w)
  }

  /** The part of the comparison that needs no time: the signature version, then the sequence
      number. */
  function Rank(a: C.Entry, b: C.Entry): (r: int)
    ensures r == -1 || r == 0 || r == 1
  {
    if HasSignatureV2(a) != HasSignatureV2(b) then if HasSignatureV2(a) then 1 else -1
    else if Sequence(a) > Sequence(b) then 1
    else if Sequence(a) < Sequence(b) then -1
    else 0
  }

  predicate Parses(parse: ParseTime, e: C.Entry) {
    parse(Validity(e)).Some?
  }

  lemma CompareByRank(parse: ParseTime, a: C.Entry, b: C.Entry)
    ensures Rank(a, b) != 0 ==> Compare(parse, a, b) == Some(Rank(a, b))
    ensures Rank(a, b) == 0 ==> (Compare(parse, a, b).None? <==> !Parses(parse, a) || !Parses(parse, b))
    ensures Rank(b, a) == -Rank(a, b)
  {
  }

  /** Two records that no rank tells apart, none before the second outranks them, and the time of
      one of them does not parse. */
  ghost predicate Clash(parse: ParseTime, recs: seq<C.Entry>, i: int, j: int) {
    && 0 <= i < j < |recs| && Rank(recs[i], recs[j]) == 0 && (!Parses(parse, recs[i]) || !Parses(parse, recs[j]))
    && forall x :: 0 <= x < j ==> Rank(recs[x], recs[i]) <= 0
  }

  ghost predicate Clashes(parse: ParseTime, recs: seq<C.Entry>) {
    exists i, j :: Clash(parse, recs, i, j)
  }

  /** Record `i` is no worse than record `x`: it outranks it, is it, or beats it with both times
      parsed. */
  ghost predicate Beats(parse: ParseTime, recs: seq<C.Entry>, vals: seq<Bytes>, i: nat, x: int)
    requires i < |recs| == |vals|
  {
    0 <= x < |recs| ==>
      || Rank(recs[x], recs[i]) < 0
      || x == i
      || (Rank(recs[x], recs[i]) == 0 && Parses(parse, recs[x]) && Parses(parse, recs[i])
          && Order(parse, recs[i], vals[i], recs[x], vals[x]).value >= 0)
  }

  /** The scan has come to `j` without a clash, and `i` is the best so far. */
  ghost predicate Scanned(parse: ParseTime, recs: seq<C.Entry>, vals: seq<Bytes>, i: nat, j: nat)
    requires |recs| == |vals|
  {
    && i < j <= |recs| && (forall x :: 0 <= x < j ==> Beats(parse, recs, vals, i, x))
    && forall a, b :: b < j ==> !Clash(parse, recs, a, b)
  }

  lemma NoClashAt(parse: ParseTime, recs: seq<C.Entry>, vals: seq<Bytes>, i: nat, j: nat, a: int)
    requires |recs| == |vals| && Scanned(parse, recs, vals, i, j) && j < |recs|
    requires Rank(recs[i], recs[j]) != 0 || (Parses(parse, recs[i]) && Parses(parse, recs[j]))
    ensures !Clash(parse, recs, a, j)
  {
    assert 0 <= a < j ==> Beats(parse, recs, vals, i, a);
  }

  lemma ScanNext(parse: ParseTime, recs: seq<C.Entry>, vals: seq<Bytes>, i: nat, j: nat)
    requires |recs| == |vals| && Scanned(parse, recs, vals, i, j) && j < |recs|
    ensures var o := Order(parse, recs[i], vals[i], recs[j], vals[j]);
            if o.None? then Clash(parse, recs, i, j)
            else Scanned(parse, recs, vals, if o.value < 0 then j else i, j + 1)
  {
    var o := Order(parse, recs[i], vals[i], recs[j], vals[j]);
    CompareByRank(parse, recs[i], recs[j]);
    if o.None? {
      forall x | 0 <= x < j ensures Rank(recs[x], recs[i]) <= 0 { assert Beats(parse, recs, vals, i, x); }
    } else {
      var best := if o.value < 0 then j else i;
      forall x | 0 <= x < j + 1 ensures Beats(parse, recs, vals, best, x) { BeatsNext(parse, recs, vals, i, j, x); }
      forall a, b | b < j + 1 ensures !Clash(parse, recs, a, b) {
        if b == j { NoClashAt(parse, recs, vals, i, j, a); }
      }
    }
  }

  lemma BeatsNext(parse: ParseTime, recs: seq<C.Entry>, vals: seq<Bytes>, i: nat, j: nat, x: int)
    requires |recs| == |vals| && Scanned(parse, recs, vals, i, j) && j < |recs| && 0 <= x <= j
    requires Order(parse, recs[i], vals[i], recs[j], vals[j]).Some?
    ensures var best := if Order(parse, recs[i], vals[i], recs[j], vals[j]).value < 0 then j else i;
            Beats(parse, recs, vals, best, x)
  {
    CompareByRank(parse, recs[i], recs[j]);
    if x < j { assert Beats(parse, recs, vals, i, x); }
    if Rank(recs[i], recs[j]) == 0 {
      OrderFlips(parse, recs[i], vals[i], recs[j], vals[j]);
      if x < j && x != i && Rank(recs[x], recs[i]) == 0 && Order(parse, recs[j], vals[j], recs[i], vals[i]).value >= 0 {
        OrderIsTransitive(parse, recs[j], vals[j], recs[i], vals[i], recs[x], vals[x]);
      }
    }
  }

  /** selectRecord, given the decoded entries of the records.  It fails exactly on an empty set and
      on a clash; otherwise it returns the record that no other beats. */
  method SelectRecord(parse: ParseTime, recs: seq<C.Entry>, vals: seq<Bytes>) returns (r: Choice)
    requires |recs| == |vals|
    ensures r == NoRecords <==> recs == []
    ensures r == BadTime <==> Clashes(parse, recs)
    ensures r != BadRecord
    ensures r.Index? ==> r.i < |recs| && forall x :: 0 <= x < |recs| ==> Beats(parse, recs, vals, r.i, x)
  {
    if |recs| == 0 { return NoRecords; }
    if |recs| == 1 { return Index(0); }
    var i, j := 0, 1;
    while j < |recs|
      invariant Scanned(parse, recs, vals, i, j)
    {
      ScanNext(parse, recs, vals, i, j);
      var o := Order(parse, recs[i], vals[i], recs[j], vals[j]);
      if o.None? { return BadTime; }
      if o.value < 0 { i := j; }
      j := j + 1;
    }
    r := Index(i);
  }

  ghost predicate AllParse(parse: ParseTime, vals: seq<Bytes>) {
    forall v :: v in vals ==> Parseable(parse, v)
  }

  predicate AllDecode(vals: seq<Bytes>) {
    forall j :: 0 <= j < |vals| ==> Decoded(vals[j]).Some?
  }

  function Entries(vals: seq<Bytes>): (r: seq<C.Entry>)
    requires AllDecode(vals)
  {
    seq(|vals|, j requires 0 <= j < |vals| => Decoded(vals[j]).value)
  }

  /** Where all times parse there is no clash, and what no other record beats is the best. */
  lemma UnbeatenIsBest(parse: ParseTime, vals: seq<Bytes>, i: nat)
    requires AllDecode(vals) && AllParse(parse, vals) && i < |vals|
    requires forall x :: 0 <= x < |vals| ==> Beats(parse, Entries(vals), vals, i, x)
    ensures Best(parse, vals, vals[i])
  {
    forall w | w in vals ensures AtLeast(parse, vals[i], w) {
      var x :| 0 <= x < |vals| && vals[x] == w;
      assert Beats(parse, Entries(vals), vals, i, x);
      CompareByRank(parse, Entries(vals)[i], Entries(vals)[x]);
      TotalOrder(parse, vals[i], vals[i], vals[i]);
    }
  }

  lemma NoClashes(parse: ParseTime, vals: seq<Bytes>)
    requires AllDecode(vals) && AllParse(parse, vals)
    ensures !Clashes(parse, Entries(vals))
  {
    forall j | 0 <= j < |vals| ensures Parses(parse, Entries(vals)[j]) { assert vals[j] in vals; }
  }

  /** Select: fails exactly on an empty set, on a record that cannot be unmarshalled, and on a
      clash; otherwise the record is one that no other beats, and the best if all times parse. */
  method Select(parse: ParseTime, vals: seq<Bytes>) returns (r: Choice)
    ensures r == BadRecord <==> !AllDecode(vals)
    ensures r == NoRecords <==> vals == []
    ensures r == BadTime <==> AllDecode(vals) && Clashes(parse, Entries(vals))
    ensures r.Index? ==>
              AllDecode(vals) && r.i < |vals| && forall x :: 0 <= x < |vals| ==> Beats(parse, Entries(vals), vals, r.i, x)
    ensures vals != [] && AllParse(parse, vals) ==> r.Index? && Best(parse, vals, vals[r.i])
  {
    var recs: seq<C.Entry> := [];
    for j := 0 to |vals|
      invariant |recs| == j && forall x :: 0 <= x < j ==> Decoded(vals[x]) == Some(recs[x])
    {
      var e := Decoded(vals[j]);
      if e.None? {
        assert vals[j] in vals && !Parseable(parse, vals[j]);
        return BadRecord;
      }
      recs := recs + [e.value];
    }
    assert recs == Entries(vals);
    r := SelectRecord(parse, recs, vals);
    if AllParse(parse, vals) {
      NoClashes(parse, vals);
      if r.Index? { UnbeatenIsBest(parse, vals, r.i); }
    }
  }

  // ---------- what is best, by the fields ----------

  /** The other record does not come before the chosen one: it has a V2 signature only if the
      chosen one has; if they agree in that, its sequence number is not larger; if they agree in
      that too, both times parse and its time is not later; and if that is the same too, its
      bytes are not larger. */
  ghost predicate NotBefore(parse: ParseTime, other: C.Entry, w: Bytes, chosen: C.Entry, v: Bytes) {
    var sameVersion := HasSignatureV2(other) == HasSignatureV2(chosen);
    var sameSequence := sameVersion && Sequence(other) == Sequence(chosen);
    var (t, u) := (parse(Validity(other)), parse(Validity(chosen)));
    && (HasSignatureV2(other) ==> HasSignatureV2(chosen))
    && (sameVersion ==> Sequence(other) <= Sequence(chosen))
    && (sameSequence ==> t.Some? && u.Some? && t.value <= u.value)
    && (sameSequence && t == u ==> !Below(v, w))
  }

  /** The record that Select returns is one that no other comes before. */
  lemma BeatsByFields(parse: ParseTime, recs: seq<C.Entry>, vals: seq<Bytes>, i: nat, x: nat)
    requires i < |recs| == |vals| && x < |recs|
    ensures Beats(parse, recs, vals, i, x) <==> x == i || NotBefore(parse, recs[x], vals[x], recs[i], vals[i])
  {
    CompareIsFirstDifference(vals[i], vals[x]);
  }

  /** The best of some records is the one that no other comes before. */
  lemma BestByFields(parse: ParseTime, vals: seq<Bytes>, v: Bytes)
    requires v in vals && AllParse(parse, vals)
    ensures Best(parse, vals, v) <==> forall w :: w in vals ==> NotBefore(parse, Decoded(w).value, w, Decoded(v).value, v)
  {
    forall w | w in vals
      ensures AtLeast(parse, v, w) <==> NotBefore(parse, Decoded(w).value, w, Decoded(v).value, v)
    {
      CompareIsFirstDifference(v, w);
    }
  }

  /** When two records clash: the first is not outranked by any before the second. */
  lemma RankByFields(a: C.Entry, b: C.Entry)
    ensures Rank(a, b) <= 0 <==>
              (HasSignatureV2(a) ==> HasSignatureV2(b)) && (HasSignatureV2(a) == HasSignatureV2(b) ==> Sequence(a) <= Sequence(b))
    ensures Rank(a, b) == 0 <==> HasSignatureV2(a) == HasSignatureV2(b) && Sequence(a) == Sequence(b)
  {
  }

  /** Where the three are in a record: a missing sequence number is 0, a missing time is empty. */
  lemma FieldsOfRecord(v: Bytes)
    requires Decoded(v).Some?
    ensures var (e, fields) := (Decoded(v).value, Decoded(v).value.fields);
            && (HasSignatureV2(e) <==> 8 in fields)
            && (if 5 in fields then fields[5] == C.Number(Sequence(e)) else Sequence(e) == 0)
            && (if 4 in fields then fields[4] == C.Blob(Validity(e)) else Validity(e) == [])
  {
    C.ReadWriteRead(v);
  }

  /** The best bytes depend on which records there are, not on their order or number. */
  lemma BestIsUnique(parse: ParseTime, vals: seq<Bytes>, vals': seq<Bytes>, v: Bytes, v': Bytes)
    requires Best(parse, vals, v) && Best(parse, vals', v')
    requires forall w :: w in vals <==> w in vals'
    ensures v == v'
  {
    TotalOrder(parse, v, v', v);
  }

  // ---------- the offline router ----------

  /** Of a stored record, if there is one, and a sequence of deliveries: those that are valid. */
  function Valids(valid: Bytes -> bool, stored: Option<Bytes>, vals: seq<Bytes>): (r: seq<Bytes>) {
    if vals == [] then if stored.Some? && valid(stored.value) then [stored.value] else []
    else
      var last := vals[|vals| - 1];
      Valids(valid, stored, vals[..|vals| - 1]) + (if valid(last) then [last] else [])
  }

  datatype PutResult = Stored | Unchanged | Invalid | Older | SelectFailed

  /** The router's datastore for one key. */
  class OfflineRouter {
    const parse: ParseTime
    const valid: Bytes -> bool
    var stored: Option<Bytes>

    constructor (parse: ParseTime, valid: Bytes -> bool, stored: Option<Bytes>)
      ensures this.parse == parse && this.valid == valid && this.stored == stored
    {
      this.parse := parse;
      this.valid := valid;
      this.stored := stored;
    }

    /** GetValue: a stored record that is not valid is as good as none. */
    function GetValue(): (r: Option<Bytes>)
      reads this
    {
      if stored.Some? && valid(stored.value) then stored else None
    }

    /** After a put, GetValue gives the better of the new record and what it gave before; what is
        refused changes nothing. */
    method PutValue(val: Bytes) returns (r: PutResult)
      requires forall v :: valid(v) ==> Parseable(parse, v)
      modifies this
      ensures r == Invalid <==> !valid(val)
      ensures r != SelectFailed && (r != Stored ==> stored == old(stored))
      ensures r == Unchanged <==> valid(val) && old(GetValue()) == Some(val)
      ensures r == Stored <==> valid(val) && old(GetValue()) != Some(val) && GetValue() == Some(val)
      ensures valid(val) ==>
                && GetValue().Some?
                && (if old(GetValue()).Some? then Best(parse, [val, old(GetValue()).value], GetValue().value)
                    else GetValue().value == val)
    {
      if !valid(val) { return Invalid; }
      TotalOrder(parse, val, val, val);
      var before := GetValue();
      if before.Some? {
        if before.value == val { return Unchanged; }
        var c := Select(parse, [val, before.value]);
        if !c.Index? { return SelectFailed; }
        if c.i != 0 { return Older; }
      }
      stored := Some(val);
      r := Stored;
    }

    /** Any sequence of deliveries leaves the best of the valid records. */
    method PutAll(vals: seq<Bytes>)
      requires forall v :: valid(v) ==> Parseable(parse, v)
      modifies this
      ensures Keeps(parse, valid, old(stored), Valids(valid, old(stored), vals), stored)
      ensures var all := Valids(valid, old(stored), vals);
              if all == [] then GetValue().None? else GetValue().Some? && Best(parse, all, GetValue().value)
    {
      if stored.Some? && valid(stored.value) { TotalOrder(parse, stored.value, stored.value, stored.value); }
      for i := 0 to |vals|
        invariant Keeps(parse, valid, old(stored), Valids(valid, old(stored), vals[..i]), stored)
      {
        assert vals[..i + 1][..i] == vals[..i];
        ghost var was := stored;
        var r := PutValue(vals[i]);
        KeepsNext(parse, valid, old(stored), Valids(valid, old(stored), vals[..i]), was, vals[i], stored);
      }
      assert vals[..|vals|] == vals;
    }
  }

  /** Nothing valid has been seen and nothing was changed, or the best of what was valid is stored. */
  ghost predicate Keeps(parse: ParseTime, valid: Bytes -> bool, start: Option<Bytes>, all: seq<Bytes>, now: Option<Bytes>) {
    if all == [] then now == start && (now.Some? ==> !valid(now.value))
    else now.Some? && valid(now.value) && Best(parse, all, now.value)
  }

  lemma KeepsNext(
    parse: ParseTime, valid: Bytes -> bool, start: Option<Bytes>, all: seq<Bytes>,
    was: Option<Bytes>, val: Bytes, now: Option<Bytes>
  )
    requires Keeps(parse, valid, start, all, was) && (valid(val) ==> Parseable(parse, val))
    requires !valid(val) ==> now == was
    requires valid(val) ==>
               now.Some? && if was.Some? && valid(was.value) then Best(parse, [val, was.value], now.value) else now.value == val
    ensures Keeps(parse, valid, start, all + (if valid(val) then [val] else []), now)
  {
    if !valid(val) {
      assert all + [] == all;
    } else if all == [] {
      TotalOrder(parse, val, val, val);
      assert all + [val] == [val];
    } else {
      assert valid(was.value);
      BestExtends(parse, all, was.value, val, now.value);
    }
  }

  lemma BestExtends(parse: ParseTime, all: seq<Bytes>, best: Bytes, val: Bytes, best': Bytes)
    requires Best(parse, all, best) && Best(parse, [val, best], best')
    ensures Best(parse, all + [val], best')
  {
    forall w | w in all + [val] ensures AtLeast(parse, best', w) {
      if w in all { TotalOrder(parse, best', best, w); }
    }
  }

  /** Two routers that start alike and get the same valid records, in any order and however
      often, end with the same record. */
  lemma DeliveryOrderIsIrrelevant(
    parse: ParseTime, valid: Bytes -> bool, stored: Option<Bytes>, vals: seq<Bytes>, vals': seq<Bytes>, v: Bytes, v': Bytes
  )
    requires forall w :: w in vals <==> w in vals'
    requires Best(parse, Valids(valid, stored, vals), v) && Best(parse, Valids(valid, stored, vals'), v')
    ensures v == v'
  {
    ValidsAre(valid, stored, vals);
    ValidsAre(valid, stored, vals');
    BestIsUnique(parse, Valids(valid, stored, vals), Valids(valid, stored, vals'), v, v');
  }

  lemma {:induction false} ValidsAre(valid: Bytes -> bool, stored: Option<Bytes>, vals: seq<Bytes>)
    ensures forall w :: w in Valids(valid, stored, vals) <==> valid(w) && (w in vals || stored == Some(w))
  {
    if vals != [] {
      var n := |vals| - 1;
      ValidsAre(valid, stored, vals[..n]);
      assert vals == vals[..n] + [vals[n]];
    }
  }
}
