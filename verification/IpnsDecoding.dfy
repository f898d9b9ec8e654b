/**
 Which byte strings ipns/pb/ipns.pb.go unmarshals into an IPNS entry, and into which one: the
 strings of protobuf fields with positive numbers whose known fields have the right wire type.
 Of several fields with the same number the last one counts, in whatever order fields come, and
 unknown fields are kept byte by byte in the order in which they stand.
 */
module IpnsDecoding {
  import opened Options
  import opened ProtoWire
  import opened ProtoFields
  import opened IpnsEntryCodec

  /** A known field number goes with one wire type. */
  predicate Accepts(f: Field) {
    var num := ToInt32(f.num);
    num > 0 && (Known(num) ==> if IsBlob(num) then f.Bytes? else f.VarintField?)
  }

  /** What the field, which stands in the data as `raw`, does to an entry. */
  function Applied(m: Entry, f: Field, raw: seq<byte>): (r: Entry)
    requires Accepts(f)
  {
    var num := ToInt32(f.num);
    if !Known(num) then m.(unrecognized := m.unrecognized + raw)
    else if f.Bytes? then m.(fields := m.fields[num := Blob(f.payload)])
    else m.(fields := m.fields[num := Number(if num == 3 then ToInt32(f.value) else f.value)])
  }

  /** From `i` on the data is the fields `fs`, and they make `m` into `m'`. */
  ghost predicate Spells(m: Entry, data: seq<byte>, i: nat, fs: seq<Field>, m': Entry)
    requires i <= |data|
    decreases |fs|
  {
    if fs == [] then i == |data| && m' == m
    else exists j: nat :: FirstField(m, data, i, fs[0], j) && Spells(Applied(m, fs[0], data[i..j]), data, j, fs[1..], m')
  }

  ghost predicate FirstField(m: Entry, data: seq<byte>, i: nat, f: Field, j: nat)
    requires i <= |data|
  {
    i < j <= |data| && Stands(data, i, f, j) && Accepts(f)
  }

  lemma KnownFieldIsRead(m: Entry, data: seq<byte>, i: nat, f: Field, k: nat)
    requires i < |data| < TWO63 && FirstField(m, data, i, f, k) && Known(ToInt32(f.num))
    ensures FieldAt(m, data, i) == Ok(Applied(m, f, data[i..k]), k)
  {
    var num := ToInt32(f.num);
    var tag := ReadVarint(data, i);
    if IsBlob(num) { ReadBytesIsExact(data, tag.next, f.payload, k); }
  }

  lemma FieldIsRead(m: Entry, data: seq<byte>, i: nat, f: Field, k: nat)
    requires i < |data| < TWO63 && FirstField(m, data, i, f, k)
    ensures FieldAt(m, data, i) == Ok(Applied(m, f, data[i..k]), k)
  {
    if Known(ToInt32(f.num)) {
      KnownFieldIsRead(m, data, i, f, k);
    } else {
      UnknownFieldReads(m, data, i, f, k);
    }
  }

  lemma ReadValueStands(m: Entry, data: seq<byte>, i: nat) returns (f: Field)
    requires i < |data| < TWO63 && FieldAt(m, data, i).Ok? && Known(ToInt32(ReadVarint(data, i).value / 8))
    ensures var r := FieldAt(m, data, i); FirstField(m, data, i, f, r.next) && r.value == Applied(m, f, data[i..r.next])
  {
    var r := FieldAt(m, data, i);
    var tag := ReadVarint(data, i);
    var num := ToInt32(tag.value / 8);
    if IsBlob(num) {
      f := Bytes(tag.value / 8, ReadBytes(data, tag.next).value);
      ReadBytesIsExact(data, tag.next, f.payload, r.next);
    } else {
      f := VarintField(tag.value / 8, ReadVarint(data, tag.next).value);
    }
  }

  lemma ReadFieldStands(m: Entry, data: seq<byte>, i: nat) returns (f: Field)
    requires i < |data| < TWO63 && FieldAt(m, data, i).Ok?
    ensures var r := FieldAt(m, data, i); FirstField(m, data, i, f, r.next) && r.value == Applied(m, f, data[i..r.next])
  {
    var r := FieldAt(m, data, i);
    var tag := ReadVarint(data, i);
    if Known(ToInt32(tag.value / 8)) {
      f := ReadValueStands(m, data, i);
    } else {
      SkipAtIsExact(data, i, r.next);
      f :| Stands(data, i, f, r.next);
      assert f.num == tag.value / 8;
    }
  }

  lemma {:induction false} FieldsAreRead(m: Entry, data: seq<byte>, i: nat, fs: seq<Field>, m': Entry)
    requires i <= |data| < TWO63 && Spells(m, data, i, fs, m')
    ensures DecodeFrom(m, data, i) == Ok(m', |data|)
    decreases |fs|
  {
    if fs != [] {
      var j: nat :| FirstField(m, data, i, fs[0], j) && Spells(Applied(m, fs[0], data[i..j]), data, j, fs[1..], m');
      FieldIsRead(m, data, i, fs[0], j);
      FieldsAreRead(Applied(m, fs[0], data[i..j]), data, j, fs[1..], m');
    }
  }

  lemma SpellsMore(m: Entry, data: seq<byte>, i: nat, f: Field, j: nat, rest: seq<Field>, m': Entry)
    requires i <= |data| && FirstField(m, data, i, f, j) && Spells(Applied(m, f, data[i..j]), data, j, rest, m')
    ensures Spells(m, data, i, [f] + rest, m')
  {
    assert ([f] + rest)[1..] == rest;
  }

  lemma {:induction false} ReadFieldsStand(m: Entry, data: seq<byte>, i: nat) returns (fs: seq<Field>)
    requires i <= |data| < TWO63 && DecodeFrom(m, data, i).Ok?
    ensures Spells(m, data, i, fs, DecodeFrom(m, data, i).value)
    decreases |data| - i
  {
    if i == |data| {
      fs := [];
    } else {
      var r := FieldAt(m, data, i);
      var f := ReadFieldStands(m, data, i);
      var rest := ReadFieldsStand(r.value, data, r.next);
      SpellsMore(m, data, i, f, r.next, rest, DecodeFrom(m, data, i).value);
      fs := [f] + rest;
    }
  }

  /** The data spells out fields that make `m` into `m'`. */
  ghost predicate Means(m: Entry, data: seq<byte>, m': Entry) {
    exists fs :: Spells(m, data, 0, fs, m')
  }

  lemma WhatIsReadIsMeant(m: Entry, data: seq<byte>)
    requires |data| < TWO63 && DecodeFrom(m, data, 0).Ok?
    ensures Means(m, data, DecodeFrom(m, data, 0).value)
  {
    var fs := ReadFieldsStand(m, data, 0);
  }

  lemma WhatIsMeantIsRead(m: Entry, data: seq<byte>, m': Entry)
    requires |data| < TWO63 && Means(m, data, m')
    ensures DecodeFrom(m, data, 0) == Ok(m', |data|)
  {
    var fs :| Spells(m, data, 0, fs, m');
    FieldsAreRead(m, data, 0, fs, m');
  }

  /** Unmarshalling into a struct that holds `m` succeeds with `m'` if and only if the data spells
      out fields that make `m` into `m'`; it fails if and only if there is no such entry. */
  lemma DecodeIsExact(m: Entry, data: seq<byte>, m': Entry)
    requires |data| < TWO63
    ensures DecodeFrom(m, data, 0) == Ok(m', |data|) <==> Means(m, data, m')
    ensures DecodeFrom(m, data, 0).Err? <==> forall x :: !Means(m, data, x)
  {
    if DecodeFrom(m, data, 0).Ok? { WhatIsReadIsMeant(m, data); }
    forall x | Means(m, data, x) ensures DecodeFrom(m, data, 0) == Ok(x, |data|) { WhatIsMeantIsRead(m, data, x); }
  }

  // ---------- after an error ----------

  /** From `i` up to `k` the data is the fields `fs`, and they make `m` into `m'`. */
  ghost predicate SpellsUpTo(m: Entry, data: seq<byte>, i: nat, fs: seq<Field>, k: nat, m': Entry)
    requires i <= |data|
    decreases |fs|
  {
    if fs == [] then i == k && m' == m
    else exists j: nat :: FirstField(m, data, i, fs[0], j) && SpellsUpTo(Applied(m, fs[0], data[i..j]), data, j, fs[1..], k, m')
  }

  lemma SpellsMoreUpTo(m: Entry, data: seq<byte>, i: nat, f: Field, j: nat, rest: seq<Field>, k: nat, m': Entry)
    requires i <= |data| && FirstField(m, data, i, f, j) && SpellsUpTo(Applied(m, f, data[i..j]), data, j, rest, k, m')
    ensures SpellsUpTo(m, data, i, [f] + rest, k, m')
  {
    assert ([f] + rest)[1..] == rest;
  }

  /** No field that is accepted stands at `k`. */
  ghost predicate Rejected(data: seq<byte>, k: nat) {
    k < |data| && forall f, j: nat :: !(k < j <= |data| && Stands(data, k, f, j) && Accepts(f))
  }

  lemma RejectedIff(m: Entry, data: seq<byte>, k: nat)
    requires k < |data| < TWO63
    ensures FieldAt(m, data, k).Err? <==> Rejected(data, k)
  {
    if FieldAt(m, data, k).Ok? {
      var f := ReadFieldStands(m, data, k);
    } else if f, j: nat :| k < j <= |data| && Stands(data, k, f, j) && Accepts(f) {
      FieldIsRead(m, data, k, f, j);
    }
  }

  /** Whatever the data, the struct then holds what the fields before the first rejected one make of
      it, or all fields if none is rejected. */
  lemma {:induction false} HoldsWhatWasRead(m: Entry, data: seq<byte>, i: nat) returns (fs: seq<Field>, k: nat)
    requires i <= |data| < TWO63
    ensures k <= |data| && SpellsUpTo(m, data, i, fs, k, HeldAfter(m, data, i)) && (k == |data| || Rejected(data, k))
    decreases |data| - i
  {
    if i == |data| { return [], i; }
    var r := FieldAt(m, data, i);
    RejectedIff(m, data, i);
    if r.Err? { return [], i; }
    var f := ReadFieldStands(m, data, i);
    var rest;
    rest, k := HoldsWhatWasRead(r.value, data, r.next);
    SpellsMoreUpTo(m, data, i, f, r.next, rest, k, HeldAfter(m, data, i));
    fs := [f] + rest;
  }
}
