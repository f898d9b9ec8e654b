/** The order of byte strings: bytes.Compare, and the order of Go strings. */
module ByteOrder {
  import opened ProtoWire

  type Bytes = seq<byte>

  /** bytes.Compare */
  function CompareBytes(a: Bytes, b: Bytes): (r: int)
    ensures r == -1 || r == 0 || r == 1
  {
    if a == [] && b == [] then 0
    else if a == [] then -1
    else if b == [] then 1
    else if a[0] < b[0] then -1
    else if a[0] > b[0] then 1
    else CompareBytes(a[1..], b[1..])
  }

  lemma {:induction false} BytesSame(a: Bytes, b: Bytes)
    ensures CompareBytes(a, b) == 0 <==> a == b
  {
    if a != [] && b != [] && a[0] == b[0] {
      BytesSame(a[1..], b[1..]);
      assert a == [a[0]] + a[1..] && b == [b[0]] + b[1..];
    }
  }

  lemma {:induction false} BytesFlip(a: Bytes, b: Bytes)
    ensures CompareBytes(a, b) == -CompareBytes(b, a)
  {
    if a != [] && b != [] && a[0] == b[0] { BytesFlip(a[1..], b[1..]); }
  }

  lemma {:induction false} BytesTransitive(a: Bytes, b: Bytes, c: Bytes)
    requires CompareBytes(a, b) >= 0 && CompareBytes(b, c) >= 0
    ensures CompareBytes(a, c) >= 0
  {
    if a != [] && b != [] && c != [] && a[0] == b[0] == c[0] { BytesTransitive(a[1..], b[1..], c[1..]); }
  }

  /** At the first place where the strings differ, `a` has the smaller byte or is over. */
  ghost predicate Below(a: Bytes, b: Bytes) {
    exists k: nat :: BelowAt(a, b, k)
  }

  ghost predicate BelowAt(a: Bytes, b: Bytes, k: nat) {
    && k <= |a| && k < |b| && a[..k] == b[..k]
    && (k < |a| ==> a[k] < b[k])
  }

  lemma BelowNext(a: Bytes, b: Bytes, k: nat)
    requires a != [] && b != [] && a[0] == b[0] && BelowAt(a[1..], b[1..], k)
    ensures BelowAt(a, b, k + 1)
  {
    assert a[..k + 1] == [a[0]] + a[1..][..k];
    assert b[..k + 1] == [b[0]] + b[1..][..k];
  }

  /** bytes.Compare goes by the first difference. */
  lemma {:induction false} CompareIsFirstDifference(a: Bytes, b: Bytes)
    ensures CompareBytes(a, b) < 0 <==> Below(a, b)
    ensures CompareBytes(a, b) > 0 <==> Below(b, a)
  {
    if a != [] && b != [] && a[0] == b[0] {
      CompareIsFirstDifference(a[1..], b[1..]);
      BelowIffTails(a, b);
      BelowIffTails(b, a);
    } else {
      FirstByteDecides(a, b);
      FirstByteDecides(b, a);
    }
  }

  lemma BelowIffTails(a: Bytes, b: Bytes)
    requires a != [] && b != [] && a[0] == b[0]
    ensures Below(a, b) <==> Below(a[1..], b[1..])
  {
    if Below(a[1..], b[1..]) {
      var k: nat :| BelowAt(a[1..], b[1..], k);
      BelowNext(a, b, k);
    }
    if Below(a, b) {
      var k: nat :| BelowAt(a, b, k);
      assert a[1..][..k - 1] == a[..k][1..] && b[1..][..k - 1] == b[..k][1..];
      assert BelowAt(a[1..], b[1..], k - 1);
    }
  }

  lemma FirstByteDecides(a: Bytes, b: Bytes)
    requires a == [] || b == [] || a[0] != b[0]
    ensures Below(a, b) <==> b != [] && (a == [] || a[0] < b[0])
  {
    if b != [] && (a == [] || a[0] < b[0]) { assert BelowAt(a, b, 0); }
  }
}
