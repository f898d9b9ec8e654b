/**
 The IPNS entry of ipns/pb/ipns.pb.go.  All nine fields are optional, number 3 is a signed
 32-bit enum, and fields with other numbers are kept as raw bytes and written back at the end.
 The nine near-identical blocks of the generated code become one step for a field number.
 */
module IpnsEntryCodec {
  import opened Options
  import opened ProtoWire
  import opened ProtoFields

  datatype Value = Blob(bytes: seq<byte>) | Number(n: int)

  /** A field that is nil is not in the map. */
  datatype Entry = Entry(fields: map<nat, Value>, unrecognized: seq<byte>)

  predicate IsBlob(num: nat) {
    num == 1 || num == 2 || num == 4 || num == 7 || num == 8 || num == 9
  }

  predicate Known(num: int) {
    1 <= num <= 9
  }

  predicate ValueOk(num: nat, v: Value) {
    match v
    case Blob(bytes) => IsBlob(num) && |bytes| < TWO63
    case Number(n) => !IsBlob(num) && if num == 3 then -(TWO31 as int) <= n < TWO31 else 0 <= n < TWO64
  }

  predicate FieldsOk(fields: map<nat, Value>) {
    forall num :: num in fields ==> Known(num) && ValueOk(num, fields[num])
  }

  /** An unrecognized rest is a string of fields whose numbers mean nothing here. */
  ghost predicate Foreign(rest: seq<byte>) {
    exists fs :: StandAll(rest, 0, fs, |rest|) && ForeignAll(fs)
  }

  predicate ForeignAll(fs: seq<Field>) {
    forall j :: 0 <= j < |fs| ==> ToInt32(fs[j].num) > 9
  }

  ghost predicate EntryOk(m: Entry) {
    FieldsOk(m.fields) && Foreign(m.unrecognized)
  }

  // ---------- writing ----------

  /** A number as the uint64 that goes on the wire; a negative int32 is sign-extended. */
  function ToWire(n: int): (r: nat)
    requires -(TWO31 as int) <= n < TWO64
    ensures r < TWO64
  {
    if n < 0 then n + TWO64 else n
  }

  function FieldBytes(fields: map<nat, Value>, num: nat): (r: seq<byte>)
    requires Known(num) && FieldsOk(fields)
  {
    if num !in fields then []
    else match fields[num]
         case Blob(bytes) => BytesField(8 * num + 2, bytes)
         case Number(n) => NumberField(8 * num, ToWire(n))
  }

  /** The fields from `num` on in ascending order, then what was not recognized. */
  function EncodingFrom(m: Entry, num: nat): (r: seq<byte>)
    requires 1 <= num <= 10 && FieldsOk(m.fields)
    decreases 10 - num
  {
    if num == 10 then m.unrecognized else FieldBytes(m.fields, num) + EncodingFrom(m, num + 1)
  }

  function FieldSize(fields: map<nat, Value>, num: nat): (n: nat)
    requires Known(num) && FieldsOk(fields)
  {
    if num !in fields then 0
    else match fields[num]
         case Blob(bytes) => 1 + |bytes| + Sov(|bytes|)
         case Number(n) => 1 + Sov(ToWire(n))
  }

  function SizeFrom(m: Entry, num: nat): (n: nat)
    requires 1 <= num <= 10 && FieldsOk(m.fields)
    decreases 10 - num
  {
    if num == 10 then |m.unrecognized| else FieldSize(m.fields, num) + SizeFrom(m, num + 1)
  }

  lemma FieldSizeIsExact(fields: map<nat, Value>, num: nat)
    requires Known(num) && FieldsOk(fields)
    ensures FieldSize(fields, num) == |FieldBytes(fields, num)|
  {
    if num in fields {
      match fields[num]
      case Blob(bytes) => SovIsLength(|bytes|);
      case Number(n) => SovIsLength(ToWire(n));
    }
  }

  lemma {:induction false} SizeIsExact(m: Entry, num: nat)
    requires 1 <= num <= 10 && FieldsOk(m.fields)
    ensures SizeFrom(m, num) == |EncodingFrom(m, num)|
    decreases 10 - num
  {
    if num < 10 {
      FieldSizeIsExact(m.fields, num);
      SizeIsExact(m, num + 1);
    }
  }

  method PutField(fields: map<nat, Value>, num: nat, data: array<byte>, i: nat) returns (base: nat)
    requires Known(num) && FieldsOk(fields) && |FieldBytes(fields, num)| <= i <= data.Length
    modifies data
    ensures base == i - |FieldBytes(fields, num)|
    ensures data[base..] == FieldBytes(fields, num) + old(data[i..]) && data[..base] == old(data[..base])
  {
    if num !in fields {
      assert [] + data[i..] == data[i..];
      return i;
    }
    match fields[num] {
      case Blob(bytes) => base := PutBytesField(data, i, 8 * num + 2, bytes);
      case Number(n) => base := PutNumberField(data, i, 8 * num, ToWire(n));
    }
  }

  /** Put field `num` in front of the fields behind it. */
  method PutNext(m: Entry, num: nat, data: array<byte>, i: nat) returns (base: nat)
    requires Known(num) && FieldsOk(m.fields) && |FieldBytes(m.fields, num)| <= i <= data.Length
    requires data[i..] == EncodingFrom(m, num + 1)
    modifies data
    ensures base <= i && data[base..] == EncodingFrom(m, num)
    ensures forall j :: 0 <= j < base ==> data[j] == old(data[j])
  {
    ghost var before := data[..];
    base := PutField(m.fields, num, data, i);
    forall j | 0 <= j < base ensures data[j] == old(data[j]) {
      assert data[..base][j] == old(data[..base])[j];
    }
  }

  method PutUnrecognized(m: Entry, data: array<byte>) returns (i: nat)
    requires FieldsOk(m.fields) && |m.unrecognized| <= data.Length
    modifies data
    ensures i <= data.Length && data[i..] == EncodingFrom(m, 10)
    ensures forall j :: 0 <= j < i ==> data[j] == old(data[j])
  {
    i := data.Length - |m.unrecognized|;
    PutBytes(data, data.Length, m.unrecognized);
    forall j | 0 <= j < i ensures data[j] == old(data[j]) { assert data[..i][j] == old(data[..i])[j]; }
  }

  /** The fields from `low` on and the unrecognized bytes, written from the last to the first. */
  method PutFrom(m: Entry, low: nat, data: array<byte>) returns (i: nat)
    requires 1 <= low <= 10 && FieldsOk(m.fields) && |EncodingFrom(m, low)| <= data.Length
    modifies data
    ensures i <= data.Length && data[i..] == EncodingFrom(m, low)
    ensures forall j :: 0 <= j < i ==> data[j] == old(data[j])
    decreases 10 - low
  {
    if low == 10 {
      i := PutUnrecognized(m, data);
    } else {
      i := PutFrom(m, low + 1, data);
      i := PutNext(m, low, data, i);
    }
  }

  /** MarshalToSizedBuffer: the entry fills the end of the buffer, which must have room. */
  method MarshalToSizedBuffer(m: Entry, data: array<byte>) returns (n: nat)
    requires FieldsOk(m.fields) && |EncodingFrom(m, 1)| <= data.Length
    modifies data
    ensures n == |EncodingFrom(m, 1)|
    ensures data[..] == old(data[..data.Length - n]) + EncodingFrom(m, 1)
  {
    var i := PutFrom(m, 1, data);
    n := data.Length - i;
    assert data[..i] == old(data[..i]);
    assert data[..] == data[..i] + data[i..];
  }

  /** Marshal allocates Size() bytes, which is exactly enough. */
  method Marshal(m: Entry) returns (bytes: seq<byte>)
    requires FieldsOk(m.fields)
    ensures bytes == EncodingFrom(m, 1) && |bytes| == SizeFrom(m, 1)
  {
    SizeIsExact(m, 1);
    var data := new byte[SizeFrom(m, 1)](_ => 0);
    var n := MarshalToSizedBuffer(m, data);
    bytes := data[..n];
  }

  // ---------- reading ----------

  /** The value of a known field: its bytes, or its number cut to the width of the field. */
  function ReadValue(data: seq<byte>, num: int, wireType: nat, j: nat): (r: Read<Value>)
    requires Known(num) && j <= |data| < TWO63
    ensures r.Ok? ==> j < r.next <= |data|
  {
    if IsBlob(num) then
      if wireType != 2 then Err(WrongWireType)
      else var v := ReadBytes(data, j); if v.Err? then Err(v.error) else Ok(Blob(v.value), v.next)
    else if wireType != 0 then Err(WrongWireType)
    else
      var v := ReadVarint(data, j);
      if v.Err? then Err(v.error) else Ok(Number(if num == 3 then ToInt32(v.value) else v.value), v.next)
  }

  /** One turn of the loop in Unmarshal: the field at `i`. */
  function FieldAt(m: Entry, data: seq<byte>, i: nat): (r: Read<Entry>)
    requires i < |data| < TWO63
    ensures r.Ok? ==> i < r.next <= |data|
  {
    var tag := ReadVarint(data, i);
    if tag.Err? then Err(tag.error)
    else
      var num, wireType := ToInt32(tag.value / 8), tag.value % 8;
      if wireType == 4 then Err(EndGroupOutside)
      else if num <= 0 then Err(IllegalTag)
      else if Known(num) then
        var v := ReadValue(data, num, wireType, tag.next);
        if v.Err? then Err(v.error) else Ok(m.(fields := m.fields[num := v.value]), v.next)
      else
        var s := SkipAt(data, i);
        if s.Err? then Err(s.error) else Ok(m.(unrecognized := m.unrecognized + data[i..s.next]), s.next)
  }

  function DecodeFrom(m: Entry, data: seq<byte>, i: nat): (r: Read<Entry>)
    requires i <= |data| < TWO63
    decreases |data| - i
  {
    if i == |data| then Ok(m, i)
    else var f := FieldAt(m, data, i); if f.Err? then f else DecodeFrom(f.value, data, f.next)
  }

  /** What the struct holds after Unmarshal, with or without an error: the fields before the one
      that could not be read. */
  function HeldAfter(m: Entry, data: seq<byte>, i: nat): (r: Entry)
    requires i <= |data| < TWO63
    decreases |data| - i
  {
    if i == |data| then m
    else var f := FieldAt(m, data, i); if f.Err? then m else HeldAfter(f.value, data, f.next)
  }

  /** The struct that Unmarshal fills; what it held before is kept where the data is silent. */
  class IpnsEntry {
    var fields: map<nat, Value>
    var unrecognized: seq<byte>

    function Contents(): (m: Entry)
      reads this
    {
      Entry(fields, unrecognized)
    }

    constructor ()
      ensures Contents() == Entry(map[], [])
    {
      fields, unrecognized := map[], [];
    }

    method Unmarshal(data: seq<byte>) returns (err: Option<Error>)
      requires |data| < TWO63
      modifies this
      ensures Contents() == HeldAfter(old(Contents()), data, 0)
      ensures var r := DecodeFrom(old(Contents()), data, 0);
              if r.Ok? then err == None && Contents() == r.value else err == Some(r.error)
    {
      var i := 0;
      while i < |data|
        invariant 0 <= i <= |data|
        invariant DecodeFrom(Contents(), data, i) == DecodeFrom(old(Contents()), data, 0)
        invariant HeldAfter(Contents(), data, i) == HeldAfter(old(Contents()), data, 0)
        decreases |data| - i
      {
        var next;
        err, next := UnmarshalField(data, i);
        if err.Some? { return; }
        i := next;
      }
      return None;
    }

    method UnmarshalField(data: seq<byte>, i: nat) returns (err: Option<Error>, next: nat)
      requires i < |data| < TWO63
      modifies this
      ensures var r := FieldAt(old(Contents()), data, i);
              if r.Ok? then err == None && Contents() == r.value && next == r.next
              else err == Some(r.error) && Contents() == old(Contents())
    {
      var tag, _ := DecodeVarint(data, i);
      if tag.Err? { return Some(tag.error), i; }
      var num, wireType := ToInt32(tag.value / 8), tag.value % 8;
      if wireType == 4 { return Some(EndGroupOutside), i; }
      if num <= 0 { return Some(IllegalTag), i; }
      if Known(num) {
        var v := DecodeValue(data, num, wireType, tag.next);
        if v.Err? { return Some(v.error), i; }
        fields := fields[num := v.value];
        return None, v.next;
      }
      var s := DecodeUnknown(data, i);
      if s.Err? { return Some(s.error), i; }
      unrecognized := unrecognized + data[i..s.next];
      return None, s.next;
    }

    static method DecodeValue(data: seq<byte>, num: int, wireType: nat, j: nat) returns (r: Read<Value>)
      requires Known(num) && j <= |data| < TWO63
      ensures r == ReadValue(data, num, wireType, j)
    {
      if IsBlob(num) {
        if wireType != 2 { return Err(WrongWireType); }
        var v := DecodeBytes(data, j);
        if v.Err? { return Err(v.error); }
        return Ok(Blob(v.value), v.next);
      }
      if wireType != 0 { return Err(WrongWireType); }
      var v, _ := DecodeVarint(data, j);
      if v.Err? { return Err(v.error); }
      return Ok(Number(if num == 3 then ToInt32(v.value) else v.value), v.next);
    }
  }

  // ---------- the round trip ----------

  /** Sign extension to 64 bits and cutting back to 32 bits undo each other. */
  lemma EnumReadsBack(n: int)
    requires -(TWO31 as int) <= n < TWO31
    ensures ToInt32(ToWire(n)) == n
  {
    if n < 0 {
      assert (n + TWO64) % TWO32 == n + TWO32 by { assert n + TWO64 == (n + TWO32) + (TWO32 - 1) * TWO32; }
    }
  }

  lemma KnownRead(m: Entry, data: seq<byte>, i: nat, num: nat, tag: nat, j: nat, v: Value, k: nat)
    requires i < |data| < TWO63 && ReadVarint(data, i) == Ok(tag, j) && Known(num) && tag / 8 == num && tag % 8 != 4
    requires ReadValue(data, num, tag % 8, j) == Ok(v, k)
    ensures FieldAt(m, data, i) == Ok(m.(fields := m.fields[num := v]), k)
  {
    assert ToInt32(num) == num;
  }

  lemma BlobReads(m: Entry, data: seq<byte>, i: nat, num: nat, bytes: seq<byte>, k: nat)
    requires IsBlob(num) && i < |data| < TWO63 && Stands(data, i, Bytes(num, bytes), k)
    ensures FieldAt(m, data, i) == Ok(m.(fields := m.fields[num := Blob(bytes)]), k)
  {
    var tag := ReadVarint(data, i);
    ReadBytesIsExact(data, tag.next, bytes, k);
    KnownRead(m, data, i, num, tag.value, tag.next, Blob(bytes), k);
  }

  lemma NumberReads(m: Entry, data: seq<byte>, i: nat, num: nat, v: nat, k: nat)
    requires Known(num) && !IsBlob(num) && i < |data| < TWO63 && Stands(data, i, VarintField(num, v), k)
    ensures FieldAt(m, data, i) == Ok(m.(fields := m.fields[num := Number(if num == 3 then ToInt32(v) else v)]), k)
  {
  }

  lemma KnownFieldReads(m0: Entry, fields: map<nat, Value>, data: seq<byte>, i: nat, num: nat)
    requires Known(num) && FieldsOk(fields) && num in fields && |data| < TWO63 && At(data, i, FieldBytes(fields, num))
    ensures i < |data|
    ensures FieldAt(m0, data, i) == Ok(m0.(fields := m0.fields[num := fields[num]]), i + |FieldBytes(fields, num)|)
  {
    var k := i + |FieldBytes(fields, num)|;
    match fields[num]
    case Blob(bytes) =>
      BytesFieldStands(data, i, 8 * num + 2, bytes);
      BlobReads(m0, data, i, num, bytes, k);
    case Number(n) =>
      NumberFieldStands(data, i, 8 * num, ToWire(n));
      NumberReads(m0, data, i, num, ToWire(n), k);
      if num == 3 { EnumReadsBack(n); }
  }

  // ---------- unknown fields ----------

  lemma UnknownFieldReads(m: Entry, data: seq<byte>, i: nat, f: Field, k: nat)
    requires i < |data| < TWO63 && Stands(data, i, f, k) && ToInt32(f.num) > 9
    ensures i < k <= |data| && FieldAt(m, data, i) == Ok(m.(unrecognized := m.unrecognized + data[i..k]), k)
  {
    FieldForward(data, i, f, k);
    assert FieldStands(data, i, k);
    SkipAtIsExact(data, i, k);
  }

  lemma RestJoined(before: seq<byte>, data: seq<byte>, i: nat, j: nat)
    requires i <= j <= |data|
    ensures before + data[i..j] + data[j..] == before + data[i..]
  {
  }

  /** A rest of unknown fields is appended as it is. */
  lemma {:induction false} UnknownFieldsRead(m: Entry, data: seq<byte>, i: nat, fs: seq<Field>)
    requires i <= |data| < TWO63 && StandAll(data, i, fs, |data|) && ForeignAll(fs)
    ensures DecodeFrom(m, data, i) == Ok(m.(unrecognized := m.unrecognized + data[i..]), |data|)
    decreases |fs|
  {
    if fs == [] {
      assert m.unrecognized + data[i..] == m.unrecognized;
    } else {
      var j :| i <= j <= |data| && Stands(data, i, fs[0], j) && StandAll(data, j, fs[1..], |data|);
      FieldForward(data, i, fs[0], j);
      UnknownFieldReads(m, data, i, fs[0], j);
      UnknownFieldsRead(m.(unrecognized := m.unrecognized + data[i..j]), data, j, fs[1..]);
      RestJoined(m.unrecognized, data, i, j);
    }
  }

  /** The fields of `fields` with numbers below `num`. */
  function Below(fields: map<nat, Value>, num: nat): (r: map<nat, Value>) {
    map x | x in fields && x < num :: fields[x]
  }

  lemma BelowNext(fields: map<nat, Value>, num: nat)
    ensures Below(fields, num + 1) == if num in fields then Below(fields, num)[num := fields[num]] else Below(fields, num)
  {
  }

  lemma DecodesRest(m: Entry, data: seq<byte>, i: nat)
    requires EntryOk(m) && i <= |data| < TWO63 && data[i..] == m.unrecognized
    ensures DecodeFrom(Entry(m.fields, []), data, i) == Ok(m, |data|)
  {
    var rest := m.unrecognized;
    var fs :| StandAll(rest, 0, fs, |rest|) && ForeignAll(fs);
    RestAlike(data, i);
    FieldsAlike(rest, data, 0, |rest|, i, 0, fs, |rest|);
    UnknownFieldsRead(Entry(m.fields, []), data, i, fs);
    assert [] + rest == rest;
  }

  /** An entry that has the fields below `num` gets field `num`, if there is one. */
  lemma DecodesField(fields: map<nat, Value>, data: seq<byte>, i: nat, num: nat, k: nat, a: Entry, b: Entry)
    requires Known(num) && FieldsOk(fields) && |data| < TWO63 && At(data, i, FieldBytes(fields, num))
    requires k == i + |FieldBytes(fields, num)| && a.unrecognized == b.unrecognized
    requires b.fields == if num in fields then a.fields[num := fields[num]] else a.fields
    ensures DecodeFrom(a, data, i) == DecodeFrom(b, data, k)
  {
    if num in fields { KnownFieldReads(a, fields, data, i, num); }
  }

  lemma SplitRest(data: seq<byte>, i: nat, a: seq<byte>, b: seq<byte>)
    requires i <= |data| && data[i..] == a + b
    ensures At(data, i, a) && data[i + |a|..] == b
  {
    assert data[i..][..|a|] == data[i..i + |a|] && data[i..][|a|..] == data[i + |a|..];
  }

  /** From `i` on, the data completes an entry that has the fields of `m` below `num`. */
  ghost predicate Completes(m: Entry, data: seq<byte>, i: nat, num: nat)
    requires i <= |data| < TWO63
  {
    DecodeFrom(Entry(Below(m.fields, num), []), data, i) == Ok(m, |data|)
  }

  lemma FieldCompletes(m: Entry, data: seq<byte>, i: nat, num: nat, k: nat)
    requires Known(num) && FieldsOk(m.fields) && |data| < TWO63 && At(data, i, FieldBytes(m.fields, num))
    requires k == i + |FieldBytes(m.fields, num)| && Completes(m, data, k, num + 1)
    ensures Completes(m, data, i, num)
  {
    BelowNext(m.fields, num);
    DecodesField(m.fields, data, i, num, k, Entry(Below(m.fields, num), []), Entry(Below(m.fields, num + 1), []));
    CompletesAlike(m, data, i, num, k, num + 1);
  }

  lemma CompletesAlike(m: Entry, data: seq<byte>, i: nat, low: nat, k: nat, high: nat)
    requires i <= |data| && k <= |data| < TWO63 && Completes(m, data, k, high)
    requires DecodeFrom(Entry(Below(m.fields, low), []), data, i) == DecodeFrom(Entry(Below(m.fields, high), []), data, k)
    ensures Completes(m, data, i, low)
  {
  }

  lemma EncodingSplits(m: Entry, data: seq<byte>, i: nat, num: nat) returns (k: nat)
    requires Known(num) && FieldsOk(m.fields) && i <= |data| && data[i..] == EncodingFrom(m, num)
    ensures At(data, i, FieldBytes(m.fields, num)) && k == i + |FieldBytes(m.fields, num)|
    ensures k <= |data| && data[k..] == EncodingFrom(m, num + 1)
  {
    var bytes := FieldBytes(m.fields, num);
    SplitRest(data, i, bytes, EncodingFrom(m, num + 1));
    k := i + |bytes|;
  }

  lemma {:induction false} DecodesFrom(m: Entry, data: seq<byte>, i: nat, num: nat)
    requires EntryOk(m) && 1 <= num <= 10 && i <= |data| < TWO63 && data[i..] == EncodingFrom(m, num)
    ensures Completes(m, data, i, num)
    decreases 10 - num
  {
    if num == 10 {
      assert Below(m.fields, 10) == m.fields;
      DecodesRest(m, data, i);
    } else {
      var k := EncodingSplits(m, data, i, num);
      DecodesFrom(m, data, k, num + 1);
      FieldCompletes(m, data, i, num, k);
    }
  }

  /** Unmarshalling a marshalled entry into a new struct gives the entry back, with its absent
      fields absent, negative enum values intact and unrecognized bytes in place. */
  lemma RoundTrip(m: Entry)
    requires EntryOk(m) && |EncodingFrom(m, 1)| < TWO63
    ensures DecodeFrom(Entry(map[], []), EncodingFrom(m, 1), 0) == Ok(m, |EncodingFrom(m, 1)|)
  {
    var data := EncodingFrom(m, 1);
    assert data[0..] == data;
    assert Below(m.fields, 1) == map[];
    DecodesFrom(m, data, 0, 1);
  }

  // ---------- every entry that was read can be written ----------

  lemma JoinedAlike(rest: seq<byte>, data: seq<byte>, i: nat, k: nat, all: seq<byte>)
    requires i <= k <= |data| && all == rest + data[i..k]
    ensures Alike(rest, all, 0, |rest|, 0) && Alike(data, all, i, k, |rest| - i) && |all| == |rest| + k - i
  {
  }

  lemma JoinedStand(rest: seq<byte>, fs: seq<Field>, data: seq<byte>, i: nat, f: Field, k: nat, all: seq<byte>)
    requires StandAll(rest, 0, fs, |rest|) && i < k <= |data| && Stands(data, i, f, k) && |all| == |rest| + k - i
    requires Alike(rest, all, 0, |rest|, 0) && Alike(data, all, i, k, |rest| - i)
    ensures StandAll(all, 0, fs + [f], |all|)
  {
    FieldsAlike(rest, all, 0, |rest|, 0, 0, fs, |rest|);
    FieldAlike(data, all, i, k, |rest| - i, i, f, k);
    Append(all, 0, fs, |rest|, f, |all|);
  }

  lemma AppendForeign(rest: seq<byte>, data: seq<byte>, i: nat, f: Field, k: nat)
    requires Foreign(rest) && i < |data| && Stands(data, i, f, k) && ToInt32(f.num) > 9
    ensures i < k <= |data| && Foreign(rest + data[i..k])
  {
    FieldForward(data, i, f, k);
    var all := rest + data[i..k];
    var fs :| StandAll(rest, 0, fs, |rest|) && ForeignAll(fs);
    JoinedAlike(rest, data, i, k, all);
    JoinedStand(rest, fs, data, i, f, k, all);
    assert ForeignAll(fs + [f]);
  }

  lemma ReadKeepsOk(m: Entry, data: seq<byte>, i: nat)
    requires EntryOk(m) && i < |data| < TWO63 && FieldAt(m, data, i).Ok?
    ensures EntryOk(FieldAt(m, data, i).value)
  {
    var r := FieldAt(m, data, i);
    var tag := ReadVarint(data, i);
    if !Known(ToInt32(tag.value / 8)) {
      SkipAtIsExact(data, i, r.next);
      var f :| Stands(data, i, f, r.next);
      assert f.num == tag.value / 8;
      AppendForeign(m.unrecognized, data, i, f, r.next);
    }
  }

  lemma {:induction false} DecodeKeepsOk(m: Entry, data: seq<byte>, i: nat)
    requires EntryOk(m) && i <= |data| < TWO63 && DecodeFrom(m, data, i).Ok?
    ensures EntryOk(DecodeFrom(m, data, i).value)
    decreases |data| - i
  {
    if i < |data| {
      ReadKeepsOk(m, data, i);
      var r := FieldAt(m, data, i);
      DecodeKeepsOk(r.value, data, r.next);
    }
  }

  /** An entry read from any bytes at all can be written and read again without change. */
  lemma ReadWriteRead(data: seq<byte>)
    requires |data| < TWO63 && DecodeFrom(Entry(map[], []), data, 0).Ok?
    ensures var m := DecodeFrom(Entry(map[], []), data, 0).value;
            && FieldsOk(m.fields)
            && var again := EncodingFrom(m, 1);
               |again| < TWO63 ==> DecodeFrom(Entry(map[], []), again, 0) == Ok(m, |again|)
  {
    var m := DecodeFrom(Entry(map[], []), data, 0).value;
    assert Foreign([]) by { assert StandAll([], 0, [], 0) && ForeignAll([]); }
    DecodeKeepsOk(Entry(map[], []), data, 0);
    if |EncodingFrom(m, 1)| < TWO63 { RoundTrip(m); }
  }
}
