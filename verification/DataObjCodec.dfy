/**
 The filestore record of filestore/pb/dataobj.pb.go: marshalling into a buffer of exactly
 Size() bytes, filled from the back, and unmarshalling of any byte string.  Strings are their
 bytes; lengths fit Go's int.
 */
module DataObjCodec {
  import opened Options
  import opened ProtoWire
  import opened ProtoFields

  datatype Record = Record(filePath: seq<byte>, offset: nat, size: nat)

  predicate RecordOk(m: Record) {
    |m.filePath| < TWO63 && m.offset < TWO64 && m.size < TWO64
  }

  // ---------- writing ----------

  function Encoding(m: Record): (r: seq<byte>) {
    BytesField(0x0a, m.filePath) + (NumberField(0x10, m.offset) + NumberField(0x18, m.size))
  }

  function Size(m: Record): (n: nat) {
    1 + |m.filePath| + Sov(|m.filePath|) + (1 + Sov(m.offset)) + (1 + Sov(m.size))
  }

  lemma SizeIsExact(m: Record)
    ensures Size(m) == |Encoding(m)|
  {
    SovIsLength(|m.filePath|);
    SovIsLength(m.offset);
    SovIsLength(m.size);
  }

  /** MarshalToSizedBuffer: the record fills the end of the buffer, which must have room. */
  method MarshalToSizedBuffer(m: Record, data: array<byte>) returns (n: nat)
    requires Size(m) <= data.Length
    modifies data
    ensures n == Size(m)
    ensures data[..] == old(data[..data.Length - n]) + Encoding(m)
  {
    SizeIsExact(m);
    var i := PutNumberField(data, data.Length, 0x18, m.size);
    var j := PutNumberField(data, i, 0x10, m.offset);
    assert data[..j] == old(data[..j]) by { assert old(data[..i])[..j] == old(data[..j]); }
    ghost var tail := NumberField(0x10, m.offset) + NumberField(0x18, m.size);
    assert data[j..] == tail;
    var k := PutBytesField(data, j, 0x0a, m.filePath);
    assert data[..k] == old(data[..k]) by { assert old(data[..j])[..k] == old(data[..k]); }
    assert data[k..] == BytesField(0x0a, m.filePath) + tail;
    n := data.Length - k;
    assert data[..] == data[..k] + data[k..];
  }

  method Marshal(m: Record) returns (bytes: seq<byte>)
    ensures bytes == Encoding(m) && |bytes| == Size(m)
  {
    SizeIsExact(m);
    var data := new byte[Size(m)](_ => 0);
    var n := MarshalToSizedBuffer(m, data);
    bytes := data[..n];
  }

  // ---------- reading ----------

  /** One turn of the loop in Unmarshal: the field at `i`. */
  function FieldAt(m: Record, data: seq<byte>, i: nat): (r: Read<Record>)
    requires i < |data| < TWO63
    ensures r.Ok? ==> i < r.next <= |data|
  {
    var tag := ReadVarint(data, i);
    if tag.Err? then Err(tag.error)
    else Payload(m, data, i, ToInt32(tag.value / 8), tag.value % 8, tag.next)
  }

  function Payload(m: Record, data: seq<byte>, i: nat, num: int, wireType: nat, j: nat): (r: Read<Record>)
    requires i < j <= |data| < TWO63
    ensures r.Ok? ==> i < r.next <= |data|
  {
    if wireType == 4 then Err(EndGroupOutside)
    else if num <= 0 then Err(IllegalTag)
    else if num == 1 then
      if wireType != 2 then Err(WrongWireType)
      else var v := ReadBytes(data, j); if v.Err? then Err(v.error) else Ok(m.(filePath := v.value), v.next)
    else if num == 2 || num == 3 then
      if wireType != 0 then Err(WrongWireType)
      else
        var v := ReadVarint(data, j);
        if v.Err? then Err(v.error) else Ok(if num == 2 then m.(offset := v.value) else m.(size := v.value), v.next)
    else
      var s := SkipAt(data, i); if s.Err? then Err(s.error) else Ok(m, s.next)
  }

  function DecodeFrom(m: Record, data: seq<byte>, i: nat): (r: Read<Record>)
    requires i <= |data| < TWO63
    decreases |data| - i
  {
    if i == |data| then Ok(m, i)
    else var f := FieldAt(m, data, i); if f.Err? then f else DecodeFrom(f.value, data, f.next)
  }

  /** What the struct holds after the field at `i` could not be read: numbers are assembled in
      the struct itself, so one that breaks off leaves its low bits there. */
  function Spoiled(m: Record, data: seq<byte>, i: nat): (r: Record)
    requires i < |data| < TWO63
  {
    var tag := ReadVarint(data, i);
    if tag.Err? || tag.value % 8 != 0 then m
    else if ToInt32(tag.value / 8) == 2 then m.(offset := Partial(data, tag.next, 0))
    else if ToInt32(tag.value / 8) == 3 then m.(size := Partial(data, tag.next, 0))
    else m
  }

  /** What the struct holds after Unmarshal, with or without an error. */
  function HeldAfter(m: Record, data: seq<byte>, i: nat): (r: Record)
    requires i <= |data| < TWO63
    decreases |data| - i
  {
    if i == |data| then m
    else var f := FieldAt(m, data, i); if f.Err? then Spoiled(m, data, i) else HeldAfter(f.value, data, f.next)
  }

  /** The struct that Unmarshal fills. */
  class DataObj {
    var filePath: seq<byte>
    var offset: nat
    var size: nat

    function Value(): (m: Record)
      reads this
    {
      Record(filePath, offset, size)
    }

    constructor ()
      ensures Value() == Record([], 0, 0)
    {
      filePath, offset, size := [], 0, 0;
    }

    /** Whether it succeeds or not, the fields hold what the data says as far as it was read. */
    method Unmarshal(data: seq<byte>) returns (err: Option<Error>)
      requires |data| < TWO63
      modifies this
      ensures Value() == HeldAfter(old(Value()), data, 0)
      ensures var r := DecodeFrom(old(Value()), data, 0);
              if r.Ok? then err == None && Value() == r.value else err == Some(r.error)
    {
      var i := 0;
      while i < |data|
        invariant 0 <= i <= |data|
        invariant DecodeFrom(Value(), data, i) == DecodeFrom(old(Value()), data, 0)
        invariant HeldAfter(Value(), data, i) == HeldAfter(old(Value()), data, 0)
        decreases |data| - i
      {
        var next;
        err, next := UnmarshalField(data, i);
        if err.Some? { return; }
        i := next;
      }
      return None;
    }

    method UnmarshalField(data: seq<byte>, i: nat) returns (err: Option<Error>, next: nat)
      requires i < |data| < TWO63
      modifies this
      ensures var r := FieldAt(old(Value()), data, i);
              if r.Ok? then err == None && Value() == r.value && next == r.next
              else err == Some(r.error) && Value() == Spoiled(old(Value()), data, i)
    {
      next := i;
      var tag, _ := DecodeVarint(data, i);
      if tag.Err? { return Some(tag.error), i; }
      var num, wireType := ToInt32(tag.value / 8), tag.value % 8;
      if wireType == 4 { return Some(EndGroupOutside), i; }
      if num <= 0 { return Some(IllegalTag), i; }
      if num == 1 {
        if wireType != 2 { return Some(WrongWireType), i; }
        var v := DecodeBytes(data, tag.next);
        if v.Err? { return Some(v.error), i; }
        filePath := v.value;
        return None, v.next;
      } else if num == 2 || num == 3 {
        if wireType != 0 { return Some(WrongWireType), i; }
        var v, value := DecodeVarint(data, tag.next);
        if num == 2 { offset := value; } else { size := value; }
        if v.Err? { return Some(v.error), i; }
        PartialIsValue(data, tag.next, 0);
        return None, v.next;
      } else {
        var v := DecodeUnknown(data, i);
        if v.Err? { return Some(v.error), i; }
        return None, v.next;
      }
    }
  }

  // ---------- what unmarshalling accepts ----------

  /** A known field number goes with one wire type; any other field is passed over. */
  predicate Accepts(f: Field) {
    var num := ToInt32(f.num);
    num > 0 && (num == 1 ==> f.Bytes?) && (num == 2 || num == 3 ==> f.VarintField?)
  }

  function Applied(m: Record, f: Field): (r: Record)
    requires Accepts(f)
  {
    var num := ToInt32(f.num);
    if num == 1 then m.(filePath := f.payload)
    else if num == 2 then m.(offset := f.value)
    else if num == 3 then m.(size := f.value)
    else m
  }

  /** The fields one after the other; of several with the same number the last one counts. */
  function AppliedAll(m: Record, fs: seq<Field>): (r: Record)
    requires forall f :: f in fs ==> Accepts(f)
    decreases |fs|
  {
    if fs == [] then m else AppliedAll(Applied(m, fs[0]), fs[1..])
  }

  lemma FieldIsRead(m: Record, data: seq<byte>, i: nat, f: Field, k: nat)
    requires i < |data| < TWO63 && Stands(data, i, f, k) && Accepts(f)
    ensures FieldAt(m, data, i) == Ok(Applied(m, f), k)
  {
    var num := ToInt32(f.num);
    var j := ReadVarint(data, i).next;
    if num == 1 {
      ReadBytesIsExact(data, j, f.payload, k);
    } else if num > 3 {
      assert FieldStands(data, i, k);
      SkipAtIsExact(data, i, k);
    }
  }

  lemma ReadFieldStands(m: Record, data: seq<byte>, i: nat) returns (f: Field)
    requires i < |data| < TWO63 && FieldAt(m, data, i).Ok?
    ensures var r := FieldAt(m, data, i); Stands(data, i, f, r.next) && Accepts(f) && r.value == Applied(m, f)
  {
    var r := FieldAt(m, data, i);
    var tag := ReadVarint(data, i);
    var num := ToInt32(tag.value / 8);
    if num == 1 {
      f := Bytes(tag.value / 8, r.value.filePath);
      ReadBytesIsExact(data, tag.next, r.value.filePath, r.next);
    } else if num == 2 || num == 3 {
      f := VarintField(tag.value / 8, ReadVarint(data, tag.next).value);
    } else {
      SkipAtIsExact(data, i, r.next);
      f :| Stands(data, i, f, r.next);
      assert f.num == tag.value / 8;
    }
  }

  /** The data is a string of acceptable fields that make `m` into `m'`. */
  ghost predicate Means(m: Record, data: seq<byte>, i: nat, m': Record)
    requires i <= |data|
  {
    exists fs :: StandAll(data, i, fs, |data|) && (forall f :: f in fs ==> Accepts(f)) && m' == AppliedAll(m, fs)
  }

  lemma {:induction false} FieldsAreRead(m: Record, data: seq<byte>, i: nat, fs: seq<Field>)
    requires i <= |data| < TWO63 && StandAll(data, i, fs, |data|) && forall f :: f in fs ==> Accepts(f)
    ensures DecodeFrom(m, data, i) == Ok(AppliedAll(m, fs), |data|)
    decreases |fs|
  {
    if fs != [] {
      var j :| i <= j <= |data| && Stands(data, i, fs[0], j) && StandAll(data, j, fs[1..], |data|);
      FieldForward(data, i, fs[0], j);
      FieldIsRead(m, data, i, fs[0], j);
      FieldsAreRead(Applied(m, fs[0]), data, j, fs[1..]);
    }
  }

  lemma {:induction false} ReadFieldsStand(m: Record, data: seq<byte>, i: nat) returns (fs: seq<Field>)
    requires i <= |data| < TWO63 && DecodeFrom(m, data, i).Ok?
    ensures StandAll(data, i, fs, |data|) && (forall f :: f in fs ==> Accepts(f))
    ensures DecodeFrom(m, data, i).value == AppliedAll(m, fs)
    decreases |data| - i
  {
    if i == |data| {
      fs := [];
    } else {
      var r := FieldAt(m, data, i);
      var f := ReadFieldStands(m, data, i);
      var rest := ReadFieldsStand(r.value, data, r.next);
      Prepend(data, i, f, r.next, rest, |data|);
      fs := [f] + rest;
      assert fs[1..] == rest;
    }
  }

  /** Unmarshalling succeeds with `m'` exactly on the strings of acceptable fields that mean it. */
  lemma DecodeIsExact(m: Record, data: seq<byte>, m': Record)
    requires |data| < TWO63
    ensures DecodeFrom(m, data, 0) == Ok(m', |data|) <==> Means(m, data, 0, m')
  {
    if Means(m, data, 0, m') {
      var fs :| StandAll(data, 0, fs, |data|) && (forall f :: f in fs ==> Accepts(f)) && m' == AppliedAll(m, fs);
      FieldsAreRead(m, data, 0, fs);
    } else if DecodeFrom(m, data, 0).Ok? {
      var fs := ReadFieldsStand(m, data, 0);
    }
  }

  /** No field that is accepted stands at `k`. */
  ghost predicate Rejected(data: seq<byte>, k: nat) {
    k < |data| && forall f, j: nat :: !(j <= |data| && Stands(data, k, f, j) && Accepts(f))
  }

  lemma RejectedIff(m: Record, data: seq<byte>, k: nat)
    requires k < |data| < TWO63
    ensures FieldAt(m, data, k).Err? <==> Rejected(data, k)
  {
    if FieldAt(m, data, k).Ok? {
      var f := ReadFieldStands(m, data, k);
    } else if f, j: nat :| j <= |data| && Stands(data, k, f, j) && Accepts(f) {
      FieldIsRead(m, data, k, f, j);
    }
  }

  /** The record as the fields before the rejected one left it, but for a number that breaks off,
      which leaves the part that was read. */
  ghost predicate HoldsBut(data: seq<byte>, k: nat, m: Record, held: Record) {
    && held.filePath == m.filePath
    && held.offset == (if BreaksOff(data, k, 2) then Partial(data, ReadVarint(data, k).next, 0) else m.offset)
    && held.size == (if BreaksOff(data, k, 3) then Partial(data, ReadVarint(data, k).next, 0) else m.size)
  }

  /** At `k` stand the tag of number field `num` and a varint that is not complete. */
  ghost predicate BreaksOff(data: seq<byte>, k: nat, num: nat) {
    && k < |data|
    && var tag := ReadVarint(data, k);
       tag.Ok? && ToInt32(tag.value / 8) == num && tag.value % 8 == 0 && ReadVarint(data, tag.next).Err?
  }

  lemma SpoiledHolds(m: Record, data: seq<byte>, k: nat)
    requires k < |data| < TWO63 && FieldAt(m, data, k).Err?
    ensures HoldsBut(data, k, m, Spoiled(m, data, k))
  {
  }

  /** Whatever the data, the struct then holds what the fields before the first rejected one make of
      it, with a number that breaks off partly read, or all fields if none is rejected. */
  lemma {:induction false} HoldsWhatWasRead(m: Record, data: seq<byte>, i: nat) returns (fs: seq<Field>, k: nat)
    requires i <= |data| < TWO63
    ensures k <= |data| && StandAll(data, i, fs, k) && (forall f :: f in fs ==> Accepts(f)) && (k == |data| || Rejected(data, k))
    ensures k == |data| ==> HeldAfter(m, data, i) == AppliedAll(m, fs)
    ensures k < |data| ==> HoldsBut(data, k, AppliedAll(m, fs), HeldAfter(m, data, i))
    decreases |data| - i
  {
    if i == |data| { return [], i; }
    var r := FieldAt(m, data, i);
    RejectedIff(m, data, i);
    if r.Err? {
      SpoiledHolds(m, data, i);
      return [], i;
    }
    var f := ReadFieldStands(m, data, i);
    var rest;
    rest, k := HoldsWhatWasRead(r.value, data, r.next);
    Prepend(data, i, f, r.next, rest, k);
    fs := [f] + rest;
    assert fs[1..] == rest;
  }

  // ---------- the round trip ----------

  lemma DecodeStep(m: Record, data: seq<byte>, i: nat, f: Field, k: nat)
    requires i <= |data| < TWO63 && Stands(data, i, f, k) && Accepts(f)
    ensures i < k <= |data| && DecodeFrom(m, data, i) == DecodeFrom(Applied(m, f), data, k)
  {
    FieldForward(data, i, f, k);
    FieldIsRead(m, data, i, f, k);
  }

  lemma ThreeFields(m0: Record, data: seq<byte>, m: Record, i: nat, j: nat)
    requires i <= |data| && j <= |data| < TWO63 && Stands(data, 0, Bytes(1, m.filePath), i)
    requires Stands(data, i, VarintField(2, m.offset), j) && Stands(data, j, VarintField(3, m.size), |data|)
    ensures DecodeFrom(m0, data, 0) == Ok(m, |data|)
  {
    DecodeStep(m0, data, 0, Bytes(1, m.filePath), i);
    DecodeStep(m0.(filePath := m.filePath), data, i, VarintField(2, m.offset), j);
    DecodeStep(m0.(filePath := m.filePath, offset := m.offset), data, j, VarintField(3, m.size), |data|);
  }

  lemma ThreeParts(data: seq<byte>, a: seq<byte>, b: seq<byte>, c: seq<byte>)
    requires data == a + (b + c)
    ensures At(data, 0, a) && At(data, |a|, b) && At(data, |a| + |b|, c)
  {
    assert data[0..|data|] == data;
    AtParts(data, 0, a, b + c);
    AtParts(data, |a|, b, c);
  }

  lemma EncodingStands(data: seq<byte>, m: Record, i: nat, j: nat)
    requires RecordOk(m) && i <= j <= |data|
    requires At(data, 0, BytesField(0x0a, m.filePath)) && i == |BytesField(0x0a, m.filePath)|
    requires At(data, i, NumberField(0x10, m.offset)) && j == i + |NumberField(0x10, m.offset)|
    requires At(data, j, NumberField(0x18, m.size)) && |data| == j + |NumberField(0x18, m.size)|
    ensures Stands(data, 0, Bytes(1, m.filePath), i)
    ensures Stands(data, i, VarintField(2, m.offset), j) && Stands(data, j, VarintField(3, m.size), |data|)
  {
    BytesFieldStands(data, 0, 0x0a, m.filePath);
    NumberFieldStands(data, i, 0x10, m.offset);
    NumberFieldStands(data, j, 0x18, m.size);
  }

  /** Whatever was in the struct before, unmarshalling a marshalled record restores it. */
  lemma RoundTrip(m0: Record, m: Record)
    requires RecordOk(m) && |Encoding(m)| < TWO63
    ensures DecodeFrom(m0, Encoding(m), 0) == Ok(m, |Encoding(m)|)
  {
    var data := Encoding(m);
    var a, b, c := BytesField(0x0a, m.filePath), NumberField(0x10, m.offset), NumberField(0x18, m.size);
    ThreeParts(data, a, b, c);
    EncodingStands(data, m, |a|, |a| + |b|);
    ThreeFields(m0, data, m, |a|, |a| + |b|);
  }
}
