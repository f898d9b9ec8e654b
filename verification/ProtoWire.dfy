/**
 The wire format shared by the generated codecs filestore/pb/dataobj.pb.go and
 ipns/pb/ipns.pb.go: base-128 varints written backwards into a buffer and read with a bounded
 loop, and the skipping of one field of any kind.  Go's int is 64 bits wide; its wrap-around is
 written out.
 */
module ProtoWire {
  type byte = x: int | 0 <= x < 256

  const TWO31: nat := 0x8000_0000
  const TWO32: nat := 0x1_0000_0000
  const TWO63: nat := 0x8000_0000_0000_0000
  const TWO64: nat := 0x1_0000_0000_0000_0000

  datatype Error =
    | IntOverflow
    | UnexpectedEOF
    | InvalidLength
    | EndGroupOutside
    | IllegalTag
    | WrongWireType
    | UnexpectedEndOfGroup
    | IllegalWireType

  /** A value read and the index behind it, or an error. */
  datatype Read<T> = Ok(value: T, next: nat) | Err(error: Error)

  /** A uint64 seen as an int64, and the sum of two of Go's ints. */
  function ToInt(x: nat): (r: int)
    requires x < TWO64
    ensures -(TWO63 as int) <= r < TWO63
  {
    if x < TWO63 then x else x - TWO64
  }

  function AddInt(a: int, b: int): (r: int)
    requires -(TWO63 as int) <= a < TWO63 && -(TWO63 as int) <= b < TWO63
    ensures -(TWO63 as int) <= r < TWO63
  {
    if a + b >= TWO63 then a + b - TWO64 else if a + b < -(TWO63 as int) then a + b + TWO64 else a + b
  }

  /** A uint64 cut down to an int32. */
  function ToInt32(x: nat): (r: int)
    ensures -(TWO31 as int) <= r < TWO31
  {
    var low := x % TWO32; if low < TWO31 then low else low - TWO32
  }

  /** `bytes` stands in `data` at `i`. */
  predicate At(data: seq<byte>, i: nat, bytes: seq<byte>) {
    i + |bytes| <= |data| && data[i..i + |bytes|] == bytes
  }

  lemma AtFirst(data: seq<byte>, i: nat, bytes: seq<byte>)
    requires At(data, i, bytes) && bytes != []
    ensures i < |data| && data[i] == bytes[0] && At(data, i + 1, bytes[1..])
  {
    assert data[i..i + |bytes|][0] == data[i];
    assert data[i..i + |bytes|][1..] == data[i + 1..i + |bytes|];
  }

  lemma AtParts(data: seq<byte>, i: nat, a: seq<byte>, b: seq<byte>)
    requires At(data, i, a + b)
    ensures At(data, i, a) && At(data, i + |a|, b)
  {
    var n := i + |a| + |b|;
    assert data[i..n] == a + b;
    assert data[i..i + |a|] == data[i..n][..|a|] == (a + b)[..|a|] == a;
    assert data[i + |a|..n] == data[i..n][|a|..] == (a + b)[|a|..] == b;
  }

  // ---------- varints ----------

  /** The base-128 form of a number: seven bits a byte, the lowest first, the top bit set on
      every byte but the last. */
  function Varint(v: nat): (r: seq<byte>)
    ensures |r| > 0
  {
    if v < 128 then [v] else [v % 128 + 128] + Varint(v / 128)
  }

  /** What the byte at place `k` adds to a uint64: of the tenth byte only the lowest bit. */
  function GroupOf(b: byte, k: nat): (r: nat)
    ensures r < 128
  {
    if k == 9 then b % 2 else b % 128
  }

  /** The varint that goes on at `i` with its byte number `k`; there are at most ten. */
  function ReadGroups(data: seq<byte>, i: nat, k: nat): (r: Read<nat>)
    requires i <= |data|
    ensures r.Ok? ==> i < r.next <= |data|
    decreases |data| - i
  {
    if k >= 10 then Err(IntOverflow)
    else if i == |data| then Err(UnexpectedEOF)
    else if data[i] < 128 then Ok(GroupOf(data[i], k), i + 1)
    else
      var r := ReadGroups(data, i + 1, k + 1);
      if r.Err? then r else Ok(GroupOf(data[i], k) + 128 * r.value, r.next)
  }

  function ReadVarint(data: seq<byte>, i: nat): (r: Read<nat>)
    requires i <= |data|
    ensures r.Ok? ==> i < r.next <= |data| && r.value < TWO64
  {
    var r := ReadGroups(data, i, 0);
    assert r.Ok? ==> r.value < TWO64 by { if r.Ok? { GroupsBound(data, i, 0); } }
    r
  }

  /** What fits in the bits from place `k` on. */
  function Room(k: nat): (r: nat)
    requires k <= 9
    decreases 9 - k
  {
    if k == 9 then 2 else 128 * Room(k + 1)
  }

  lemma RoomIs64()
    ensures Room(0) == TWO64
  {
    assert Room(6) == 0x40_0000;
    assert Room(3) == 0x800_0000_0000;
  }

  lemma {:induction false} GroupsBound(data: seq<byte>, i: nat, k: nat)
    requires i <= |data| && k <= 9 && ReadGroups(data, i, k).Ok?
    ensures ReadGroups(data, i, k).value < Room(k)
    ensures k == 0 ==> ReadGroups(data, i, k).value < TWO64
    decreases |data| - i
  {
    if k == 0 { RoomIs64(); }
    if data[i] >= 128 {
      if k < 9 { GroupsBound(data, i + 1, k + 1); }
    } else if k < 9 {
      RoomLarge(k);
    }
  }

  lemma {:induction false} RoomLarge(k: nat)
    requires k < 9
    ensures Room(k) >= 128
    decreases 9 - k
  {
    if k < 8 { RoomLarge(k + 1); }
  }

  lemma {:induction false} GroupsReadBack(data: seq<byte>, i: nat, k: nat, v: nat)
    requires k <= 9 && v < Room(k) && At(data, i, Varint(v))
    ensures ReadGroups(data, i, k) == Ok(v, i + |Varint(v)|)
    decreases v
  {
    AtFirst(data, i, Varint(v));
    if v >= 128 {
      assert Varint(v)[1..] == Varint(v / 128);
      GroupsReadBack(data, i + 1, k + 1, v / 128);
    }
  }

  /** Reading what was written gives the number back, for every uint64, wherever it stands. */
  lemma VarintReadsBack(data: seq<byte>, i: nat, v: nat)
    requires v < TWO64 && At(data, i, Varint(v))
    ensures ReadVarint(data, i) == Ok(v, i + |Varint(v)|)
  {
    RoomIs64();
    GroupsReadBack(data, i, 0, v);
  }

  // ---------- the decoding loop ----------

  /** A group `k` places up. */
  function Up(x: nat, k: nat): (r: nat) {
    if k == 0 then x else 128 * Up(x, k - 1)
  }

  /** A seven-bit group shifted into place in a uint64; bits shifted out are gone. */
  function Shifted(b: byte, k: nat): (r: nat) {
    Up(b % 128, k) % TWO64
  }

  lemma {:induction false} UpAdds(x: nat, y: nat, k: nat)
    ensures Up(x + 128 * y, k) == Up(x, k) + Up(y, k + 1)
  {
    if k > 0 { UpAdds(x, y, k - 1); }
  }

  lemma {:induction false} UpMonotone(x: nat, y: nat, k: nat)
    requires x <= y
    ensures Up(x, k) <= Up(y, k)
  {
    if k > 0 { UpMonotone(x, y, k - 1); }
  }

  lemma UpNine(x: nat)
    ensures Up(x, 9) == x * TWO63 && Up(127, 8) < TWO63
  {
    assert Up(x, 1) == 128 * x;
    assert Up(x, 2) == 0x4000 * x;
    assert Up(x, 3) == 0x20_0000 * x;
    assert Up(x, 4) == 0x1000_0000 * x;
    assert Up(x, 5) == 0x8_0000_0000 * x;
    assert Up(x, 6) == 0x400_0000_0000 * x;
    assert Up(x, 7) == 0x2_0000_0000_0000 * x;
    assert Up(x, 8) == 0x100_0000_0000_0000 * x;
    assert Up(127, 4) == 0x1000_0000 * 127;
  }

  lemma {:induction false} UpRises(x: nat, j: nat, k: nat)
    requires j <= k
    ensures Up(x, j) <= Up(x, k)
  {
    if j < k { UpRises(x, j, k - 1); }
  }

  /** Shifting keeps of a group what belongs in its place.  The places below are zero, where the
      groups read before are, so or-ing them together is adding. */
  lemma ShiftKeepsGroup(b: byte, k: nat)
    requires k <= 9
    ensures Shifted(b, k) == Up(GroupOf(b, k), k)
  {
    var x := b % 128;
    if k == 9 {
      UpNine(x);
      UpNine(b % 2);
      TopBit(x);
      assert x % 2 == b % 2;
    } else {
      UpMonotone(x, 127, k);
      UpRises(127, k, 8);
      UpNine(127);
    }
  }

  lemma TopBit(x: nat)
    ensures x * TWO63 % TWO64 == x % 2 * TWO63
  {
    var q := x / 2;
    assert x * TWO63 == q * TWO64 + x % 2 * TWO63;
  }

  // ---------- bitwise or ----------

  /** The bitwise or of two numbers. */
  function Or(a: nat, b: nat): (r: nat) {
    if a == 0 then b
    else if b == 0 then a
    else (if a % 2 == 1 || b % 2 == 1 then 1 else 0) + 2 * Or(a / 2, b / 2)
  }

  /** A number `n` bits up. */
  function Lifted(x: nat, n: nat): (r: nat) {
    if n == 0 then x else 2 * Lifted(x, n - 1)
  }

  /** Numbers with no bit in common: or-ing them is adding them. */
  lemma {:induction false} OrAdds(low: nat, x: nat, n: nat)
    requires low < Lifted(1, n)
    ensures Or(low, Lifted(x, n)) == low + Lifted(x, n)
    decreases n
  {
    if n > 0 && low > 0 && Lifted(x, n) > 0 {
      OrAdds(low / 2, x, n - 1);
      assert Lifted(x, n) / 2 == Lifted(x, n - 1) && Lifted(x, n) % 2 == 0;
    }
  }

  lemma {:induction false} UpIsLifted(x: nat, k: nat)
    ensures Up(x, k) == Lifted(x, 7 * k)
  {
    if k > 0 {
      UpIsLifted(x, k - 1);
      var n := 7 * (k - 1);
      assert Lifted(x, n + 3) == 8 * Lifted(x, n) by { assert Lifted(x, n + 1) == 2 * Lifted(x, n); assert Lifted(x, n + 2) == 4 * Lifted(x, n); }
      assert Lifted(x, n + 6) == 64 * Lifted(x, n) by { assert Lifted(x, n + 4) == 16 * Lifted(x, n); assert Lifted(x, n + 5) == 32 * Lifted(x, n); }
    }
  }

  /** The groups read so far fit below place `k`, so or-ing the next one in is adding it, and the
      sum fits below the next place. */
  lemma GroupsDoNotOverlap(low: nat, b: byte, k: nat)
    requires k <= 9 && low < Up(1, k)
    ensures Or(low, Shifted(b, k)) == low + Up(GroupOf(b, k), k) < Up(1, k + 1)
  {
    ShiftKeepsGroup(b, k);
    var g := GroupOf(b, k);
    UpIsLifted(1, k);
    UpIsLifted(g, k);
    OrAdds(low, g, 7 * k);
    UpMonotone(g, 127, k);
    UpMonotone(0, g, k);
    UpBelowNext(k);
  }

  lemma {:induction false} UpBelowNext(k: nat)
    ensures Up(127, k) + Up(1, k) == Up(1, k + 1)
  {
    if k > 0 { UpBelowNext(k - 1); }
  }

  // ---------- the loop ----------

  /** What the bytes from `i` on, number `k` first, add up to until the varint ends or fails. */
  function Partial(data: seq<byte>, i: nat, k: nat): (r: nat)
    requires i <= |data|
    decreases |data| - i
  {
    if k >= 10 || i == |data| then 0
    else GroupOf(data[i], k) + if data[i] < 128 then 0 else 128 * Partial(data, i + 1, k + 1)
  }

  /** Of a varint that can be read, that is its value. */
  lemma {:induction false} PartialIsValue(data: seq<byte>, i: nat, k: nat)
    requires i <= |data| && ReadGroups(data, i, k).Ok?
    ensures Partial(data, i, k) == ReadGroups(data, i, k).value
    decreases |data| - i
  {
    if data[i] >= 128 { PartialIsValue(data, i + 1, k + 1); }
  }

  /** Where the loop stands: at byte `k` of the varint that began at `i`. */
  ghost predicate Reading(data: seq<byte>, i: nat, k: nat, value: nat) {
    && k <= 10 && i + k <= |data| && value < Up(1, k)
    && Partial(data, i, 0) == value + Up(Partial(data, i + k, k), k)
    && var r, rest := ReadGroups(data, i, 0), ReadGroups(data, i + k, k);
       if rest.Err? then r == rest else r.Ok? && r.next == rest.next
  }

  /** One turn of the decoding loop. */
  lemma ReadingNext(data: seq<byte>, i: nat, k: nat, value: nat)
    requires Reading(data, i, k, value) && k <= 9 && i + k < |data|
    ensures var b, value' := data[i + k], Or(value, Shifted(data[i + k], k));
            if b >= 128 then Reading(data, i, k + 1, value')
            else ReadGroups(data, i, 0).Ok? && ReadGroups(data, i, 0).next == i + k + 1 && Partial(data, i, 0) == value'
  {
    var b, j := data[i + k], i + k;
    GroupsDoNotOverlap(value, b, k);
    UpAdds(GroupOf(b, k), if b < 128 then 0 else Partial(data, j + 1, k + 1), k);
    UpZero(k + 1);
  }

  lemma {:induction false} UpZero(k: nat)
    ensures Up(0, k) == 0
  {
    if k > 0 { UpZero(k - 1); }
  }

  /** The decoding loop: the varint or an error, and the number its bytes add up to in any case. */
  method DecodeVarint(data: seq<byte>, i: nat) returns (r: Read<nat>, value: nat)
    requires i <= |data|
    ensures r == ReadVarint(data, i) && value == Partial(data, i, 0)
  {
    var k := 0;
    value := 0;
    UpZero(0);
    while true
      invariant Reading(data, i, k, value)
      decreases |data| - i - k
    {
      UpZero(k);
      if 7 * k >= 64 { return Err(IntOverflow), value; }
      if i + k >= |data| { return Err(UnexpectedEOF), value; }
      ReadingNext(data, i, k, value);
      var b := data[i + k];
      value := Or(value, Shifted(b, k));
      if b < 128 {
        PartialIsValue(data, i, 0);
        return Ok(value, i + k + 1), value;
      }
      k := k + 1;
    }
  }

  // ---------- how long a varint is ----------

  /** math/bits.Len64. */
  function BitLength(x: nat): (r: nat) {
    if x == 0 then 0 else 1 + BitLength(x / 2)
  }

  function Sov(x: nat): (r: nat) {
    (BitLength(if x % 2 == 0 then x + 1 else x) + 6) / 7
  }

  lemma BitLengthSeven(x: nat)
    requires x >= 128
    ensures BitLength(x) == 7 + BitLength(x / 128)
  {
    assert BitLength(x) == 1 + BitLength(x / 2);
    assert x / 2 / 2 == x / 4 && BitLength(x / 2) == 1 + BitLength(x / 4);
    assert x / 4 / 2 == x / 8 && BitLength(x / 4) == 1 + BitLength(x / 8);
    assert x / 8 / 2 == x / 16 && BitLength(x / 8) == 1 + BitLength(x / 16);
    assert x / 16 / 2 == x / 32 && BitLength(x / 16) == 1 + BitLength(x / 32);
    assert x / 32 / 2 == x / 64 && BitLength(x / 32) == 1 + BitLength(x / 64);
    assert x / 64 / 2 == x / 128 && BitLength(x / 64) == 1 + BitLength(x / 128);
  }

  lemma OddBitLength(x: nat)
    ensures BitLength(if x % 2 == 0 then x + 1 else x) == if x == 0 then 1 else BitLength(x)
  {
    assert (x + 1) / 2 == x / 2 || x % 2 == 1;
  }

  /** The closed formula is the length of the encoding. */
  lemma {:induction false} SovIsLength(v: nat)
    ensures Sov(v) == |Varint(v)|
  {
    OddBitLength(v);
    if v >= 128 {
      SovIsLength(v / 128);
      OddBitLength(v / 128);
      BitLengthSeven(v);
    } else {
      assert Pow2(4) == 16;
      SmallBitLength(v, 128, 7);
    }
  }

  lemma {:induction false} SmallBitLength(v: nat, p: nat, n: nat)
    requires v < p && p == Pow2(n)
    ensures BitLength(v) <= n
  {
    if v > 0 { SmallBitLength(v / 2, Pow2(n - 1), n - 1); }
  }

  function Pow2(n: nat): (r: nat) {
    if n == 0 then 1 else 2 * Pow2(n - 1)
  }

  lemma VarintTail(all: seq<byte>, d: nat, rest: nat)
    requires d < |all| && all[d..] == Varint(rest)
    ensures rest < 128 ==> all[d] == rest && d + 1 == |all|
    ensures rest >= 128 ==> d + 1 < |all| && all[d] == rest % 128 + 128 && all[d + 1..] == Varint(rest / 128)
  {
    assert all[d] == Varint(rest)[0] && all[d..][1..] == all[d + 1..];
  }

  /** Write a varint so that it ends just before `offset`. */
  method EncodeVarint(data: array<byte>, offset: nat, v: nat) returns (base: nat)
    requires Sov(v) <= offset <= data.Length
    modifies data
    ensures base == offset - |Varint(v)|
    ensures data[base..offset] == Varint(v)
    ensures forall j :: 0 <= j < base || offset <= j < data.Length ==> data[j] == old(data[j])
  {
    SovIsLength(v);
    base := offset - Sov(v);
    FillVarint(data, base, v);
  }

  method FillVarint(data: array<byte>, base: nat, v: nat)
    requires base + |Varint(v)| <= data.Length
    modifies data
    ensures data[base..base + |Varint(v)|] == Varint(v)
    ensures forall j :: 0 <= j < base || base + |Varint(v)| <= j < data.Length ==> data[j] == old(data[j])
  {
    ghost var all := Varint(v);
    var next, rest := base, v;
    while rest >= 128
      invariant base <= next < base + |all| && all[next - base..] == Varint(rest)
      invariant forall j :: base <= j < next ==> data[j] == all[j - base]
      invariant forall j :: 0 <= j < base || next <= j < data.Length ==> data[j] == old(data[j])
      decreases rest
    {
      VarintTail(all, next - base, rest);
      data[next] := rest % 128 + 128;
      rest := rest / 128;
      next := next + 1;
    }
    VarintTail(all, next - base, rest);
    data[next] := rest;
  }

  // ---------- fields written from the back ----------

  /** A number field and a bytes field behind a one-byte tag. */
  function NumberField(tag: byte, v: nat): (r: seq<byte>) {
    [tag] + Varint(v)
  }

  function BytesField(tag: byte, bytes: seq<byte>): (r: seq<byte>) {
    [tag] + (Varint(|bytes|) + bytes)
  }

  /** What stands in an array from `i` on, `bytes` having been put in front of `behind`. */
  lemma InFront(data: seq<byte>, i: nat, bytes: seq<byte>, behind: seq<byte>)
    requires At(data, i, bytes) && data[i + |bytes|..] == behind
    ensures data[i..] == bytes + behind
  {
    assert data[i..] == data[i..i + |bytes|] + data[i + |bytes|..];
  }

  method PutVarint(data: array<byte>, i: nat, v: nat) returns (base: nat)
    requires Sov(v) <= i <= data.Length
    modifies data
    ensures base == i - |Varint(v)|
    ensures data[base..] == Varint(v) + old(data[i..]) && data[..base] == old(data[..base])
  {
    base := EncodeVarint(data, i, v);
    InFront(data[..], base, Varint(v), old(data[i..]));
  }

  method PutByte(data: array<byte>, i: nat, b: byte)
    requires 0 < i <= data.Length
    modifies data
    ensures data[i - 1..] == [b] + old(data[i..]) && data[..i - 1] == old(data[..i - 1])
  {
    data[i - 1] := b;
  }

  method PutBytes(data: array<byte>, i: nat, bytes: seq<byte>)
    requires |bytes| <= i <= data.Length
    modifies data
    ensures data[i - |bytes|..] == bytes + old(data[i..]) && data[..i - |bytes|] == old(data[..i - |bytes|])
  {
    var base := i - |bytes|;
    forall j | 0 <= j < |bytes| { data[base + j] := bytes[j]; }
    assert data[base..i] == bytes && data[i..] == old(data[i..]);
    InFront(data[..], base, bytes, old(data[i..]));
  }

  method PutNumberField(data: array<byte>, i: nat, tag: byte, v: nat) returns (base: nat)
    requires |NumberField(tag, v)| <= i <= data.Length
    modifies data
    ensures base == i - |NumberField(tag, v)|
    ensures data[base..] == NumberField(tag, v) + old(data[i..]) && data[..base] == old(data[..base])
  {
    SovIsLength(v);
    base := PutVarint(data, i, v);
    PutByte(data, base, tag);
    base := base - 1;
    assert old(data[..base + 1])[..base] == old(data[..base]);
  }

  method PutBytesField(data: array<byte>, i: nat, tag: byte, bytes: seq<byte>) returns (base: nat)
    requires |BytesField(tag, bytes)| <= i <= data.Length
    modifies data
    ensures base == i - |BytesField(tag, bytes)|
    ensures data[base..] == BytesField(tag, bytes) + old(data[i..]) && data[..base] == old(data[..base])
  {
    SovIsLength(|bytes|);
    PutBytes(data, i, bytes);
    var j := i - |bytes|;
    base := PutNumberField(data, j, tag, |bytes|);
    assert old(data[..j])[..base] == old(data[..base]);
  }
}
