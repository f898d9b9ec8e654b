/**
 The rolling hash of chunker/buzhash.go: a 32-bit word that is rotated by one and xored with
 a table entry per byte.  Because rotating 32 times is the identity, the table entry of the
 byte that leaves a 32-byte window cancels, so the rolled state is a function of the window.
 */
module BuzhashRolling {

  newtype byte = x: int | 0 <= x < 256

  /** The table that assigns a word to each byte; the argument does not depend on its values. */
  type Table = t: seq<bv32> | |t| == 256 witness seq(256, _ => 0 as bv32)

  const WINDOW: nat := 32

  function Rot(x: bv32): (r: bv32) {
    (x << 1) | (x >> 31)
  }

  /** The hash of a stretch of bytes computed from scratch. */
  function Hash(t: Table, w: seq<byte>): (h: bv32) {
    if w == [] then 0
    else Rot(Hash(t, w[..|w| - 1])) ^ t[w[|w| - 1] as int]
  }

  lemma HashLast(t: Table, w: seq<byte>, b: byte)
    ensures Hash(t, w + [b]) == Rot(Hash(t, w)) ^ t[b as int]
  {
    assert (w + [b])[..|w|] == w;
  }

  ghost function RotN(x: bv32, n: nat): (r: bv32) {
    if n == 0 then x else Rot(RotN(x, n - 1))
  }

  lemma RotXor(x: bv32, y: bv32)
    ensures Rot(x ^ y) == Rot(x) ^ Rot(y)
  {
  }

  /** Rotating by `k` places at once, for the literal `k` below. */
  lemma RotOneMore(x: bv32)
    ensures Rot(x) == (x << 1) | (x >> 31)
    ensures Rot((x << 1) | (x >> 31)) == (x << 2) | (x >> 30)
    ensures Rot(Rot((x << 2) | (x >> 30))) == (x << 4) | (x >> 28)
  {
  }

  lemma RotFourMore(x: bv32)
    ensures Rot(Rot(Rot(Rot((x << 4) | (x >> 28))))) == (x << 8) | (x >> 24)
  {
  }

  lemma {:induction false} RotNAdd(x: bv32, m: nat, n: nat)
    ensures RotN(RotN(x, m), n) == RotN(x, m + n)
  {
    if n > 0 { RotNAdd(x, m, n - 1); }
  }

  lemma RotN8(x: bv32)
    ensures RotN(x, 8) == (x << 8) | (x >> 24)
  {
    assert RotN(x, 4) == (x << 4) | (x >> 28) by {
      RotOneMore(x);
      assert RotN(x, 1) == Rot(x);
      assert RotN(x, 2) == Rot(RotN(x, 1));
      assert RotN(x, 3) == Rot(RotN(x, 2));
    }
    RotFourMore(x);
    var y := RotN(x, 4);
    assert RotN(x, 5) == Rot(y);
    assert RotN(x, 6) == Rot(Rot(y));
    assert RotN(x, 7) == Rot(Rot(Rot(y)));
    assert RotN(x, 8) == Rot(Rot(Rot(Rot(y))));
  }

  lemma RotByteFour(x: bv32, a: bv32, b: bv32, c: bv32)
    requires a == (x << 8) | (x >> 24) && b == (a << 8) | (a >> 24) && c == (b << 8) | (b >> 24)
    ensures (c << 8) | (c >> 24) == x
  {
  }

  /** Rotating a 32-bit word 32 times gives it back. */
  lemma RotN32(x: bv32)
    ensures RotN(x, 32) == x
  {
    RotN8(x);
    var a := RotN(x, 8);
    RotN8(a);
    var b := RotN(a, 8);
    RotN8(b);
    var c := RotN(b, 8);
    RotN8(c);
    RotNAdd(x, 8, 8);
    RotNAdd(x, 16, 8);
    RotNAdd(x, 24, 8);
    RotByteFour(x, a, b, c);
  }

  lemma HashPrependStep(t: Table, a: byte, w: seq<byte>, b: byte)
    requires Hash(t, [a] + w) == RotN(t[a as int], |w|) ^ Hash(t, w)
    ensures Hash(t, [a] + w + [b]) == RotN(t[a as int], |w| + 1) ^ Hash(t, w + [b])
  {
    HashLast(t, [a] + w, b);
    HashLast(t, w, b);
    MixXor(RotN(t[a as int], |w|), Hash(t, w), t[b as int]);
  }

  /** The first byte of a stretch contributes its table entry, rotated once per later byte. */
  lemma {:induction false} HashPrepend(t: Table, a: byte, w: seq<byte>)
    ensures Hash(t, [a] + w) == RotN(t[a as int], |w|) ^ Hash(t, w)
  {
    if w == [] {
      assert [a] + w == [a];
      HashOne(t, a);
    } else {
      var k := |w| - 1;
      var (init, b) := (w[..k], w[k]);
      HashPrepend(t, a, init);
      HashPrependStep(t, a, init, b);
      assert [a] + w == [a] + init + [b] && w == init + [b];
    }
  }

  lemma HashOne(t: Table, a: byte)
    ensures Hash(t, [a]) == RotN(t[a as int], 0) ^ Hash(t, [])
  {
    HashLast(t, [], a);
    assert [] + [a] == [a];
    ZeroXor(t[a as int]);
  }

  lemma ZeroXor(x: bv32)
    ensures Rot(0) ^ x == x == x ^ 0
  {
  }

  lemma MixXor(r: bv32, h: bv32, x: bv32)
    ensures Rot(r ^ h) ^ x == Rot(r) ^ (Rot(h) ^ x)
  {
  }

  lemma XorCancel(a: bv32, h: bv32, b: bv32)
    ensures (a ^ h) ^ a ^ b == h ^ b
  {
  }

  /** The hash `was` is that of a byte with table entry `a`, `n` bytes before the end, and of what
      follows it, with hash `h`. */
  ghost predicate Splits(was: bv32, a: bv32, n: nat, h: bv32) {
    was == RotN(a, n) ^ h
  }

  /** The hash `next` is that of what hashes to `h` and of one more byte, with table entry `b`. */
  ghost predicate Joins(next: bv32, h: bv32, b: bv32) {
    next == Rot(h) ^ b
  }

  lemma SplitHash(t: Table, a: byte, rest: seq<byte>)
    ensures Splits(Hash(t, [a] + rest), t[a as int], |rest|, Hash(t, rest))
  {
    HashPrepend(t, a, rest);
  }

  lemma JoinHash(t: Table, rest: seq<byte>, b: byte)
    ensures Joins(Hash(t, rest + [b]), Hash(t, rest), t[b as int])
  {
    HashLast(t, rest, b);
  }

  lemma FullTurn(a: bv32, n: nat)
    requires n + 1 == WINDOW
    ensures Rot(RotN(a, n)) == a
  {
    assert RotN(a, n + 1) == Rot(RotN(a, n));
    RotN32(a);
  }

  lemma RollCancels(a: bv32, n: nat, h: bv32, was: bv32, b: bv32, next: bv32)
    requires n + 1 == WINDOW && was == RotN(a, n) ^ h && next == Rot(h) ^ b
    ensures Rot(was) ^ a ^ b == next
  {
    RotXor(RotN(a, n), h);
    FullTurn(a, n);
    XorCancel(a, Rot(h), b);
  }

  lemma RollOver(a: bv32, n: nat, h: bv32, was: bv32, b: bv32, next: bv32)
    requires n + 1 == WINDOW && Splits(was, a, n, h) && Joins(next, h, b)
    ensures Rot(was) ^ a ^ b == next
  {
    RollCancels(a, n, h, was, b, next);
  }

  /** Rolling the state over one byte gives the fresh hash of the next window. */
  lemma RollIsFresh(t: Table, w: seq<byte>, b: byte)
    requires |w| == WINDOW
    ensures Rot(Hash(t, w)) ^ t[w[0] as int] ^ t[b as int] == Hash(t, w[1..] + [b])
  {
    var rest := w[1..];
    assert w == [w[0]] + rest;
    SplitHash(t, w[0], rest);
    JoinHash(t, rest, b);
    RollOver(t[w[0] as int], |rest|, Hash(t, rest), Hash(t, w), t[b as int], Hash(t, rest + [b]));
  }

  // ---------- the hash, bit by bit ----------

  /** Places of bits are counted modulo 32. */
  predicate Bit(x: bv32, j: bv5) {
    (x >> j) & 1 == 1
  }

  lemma BitRot(x: bv32, j: bv5)
    ensures Bit(Rot(x), j) == Bit(x, j - 1)
  {
  }

  lemma BitXor(x: bv32, y: bv32, j: bv5)
    ensures Bit(x ^ y, j) == (Bit(x, j) != Bit(y, j))
  {
  }

  lemma BitZero(j: bv5)
    ensures !Bit(0, j)
  {
  }

  /** The place `n` below place `j`. */
  function Down(j: bv5, n: nat): (r: bv5)
    decreases n
  {
    if n == 0 then j else Down(j - 1, n - 1)
  }

  lemma {:induction false} BitRotN(x: bv32, n: nat, j: bv5)
    ensures Bit(RotN(x, n), j) == Bit(x, Down(j, n))
  {
    if n > 0 {
      BitRot(RotN(x, n - 1), j);
      BitRotN(x, n - 1, j - 1);
    }
  }

  /** The table entry of the byte at `i`, moved up by as many places as bytes follow it in the
      window, has bit `j`. */
  predicate HasBit(t: Table, w: seq<byte>, i: nat, j: bv5)
    requires i < |w|
  {
    Bit(t[w[i] as int], Down(j, |w| - 1 - i))
  }

  ghost function PlacesFrom(t: Table, w: seq<byte>, j: bv5, n: nat): set<nat> {
    set i: nat | n <= i < |w| && HasBit(t, w, i, j)
  }

  /** The places of the window whose bytes have bit `j`. */
  ghost function Places(t: Table, w: seq<byte>, j: bv5): set<nat> {
    set i: nat | i < |w| && HasBit(t, w, i, j)
  }

  lemma PlacesStep(t: Table, w: seq<byte>, j: bv5, n: nat)
    requires n < |w|
    ensures |PlacesFrom(t, w, j, n)| == |PlacesFrom(t, w, j, n + 1)| + if HasBit(t, w, n, j) then 1 else 0
  {
    var here: set<nat> := if HasBit(t, w, n, j) then {n} else {};
    assert PlacesFrom(t, w, j, n) == PlacesFrom(t, w, j, n + 1) + here;
  }

  lemma PrependBit(t: Table, a: byte, rest: seq<byte>, j: bv5)
    ensures Bit(Hash(t, [a] + rest), j) == (Bit(t[a as int], Down(j, |rest|)) != Bit(Hash(t, rest), j))
  {
    HashPrepend(t, a, rest);
    RotatedBit(t[a as int], |rest|, Hash(t, rest), Hash(t, [a] + rest), j);
  }

  lemma RotatedBit(x: bv32, n: nat, h: bv32, sum: bv32, j: bv5)
    requires sum == RotN(x, n) ^ h
    ensures Bit(sum, j) == (Bit(x, Down(j, n)) != Bit(h, j))
  {
    BitRotN(x, n, j);
    XorBit(RotN(x, n), h, sum, j);
  }

  lemma XorBit(x: bv32, h: bv32, sum: bv32, j: bv5)
    requires sum == x ^ h
    ensures Bit(sum, j) == (Bit(x, j) != Bit(h, j))
  {
    BitXor(x, h, j);
  }

  lemma {:induction false} HashBitsFrom(t: Table, w: seq<byte>, j: bv5, n: nat)
    requires n <= |w|
    ensures Bit(Hash(t, w[n..]), j) == (|PlacesFrom(t, w, j, n)| % 2 == 1)
    decreases |w| - n
  {
    if n == |w| {
      assert PlacesFrom(t, w, j, n) == {};
      BitZero(j);
    } else {
      assert w[n..] == [w[n]] + w[n + 1..];
      PrependBit(t, w[n], w[n + 1..], j);
      HashBitsFrom(t, w, j, n + 1);
      PlacesStep(t, w, j, n);
    }
  }

  /** A bit of the hash is set exactly if an odd number of the window's bytes have it. */
  lemma HashBits(t: Table, w: seq<byte>, j: bv5)
    ensures Bit(Hash(t, w), j) <==> |Places(t, w, j)| % 2 == 1
  {
    HashBitsFrom(t, w, j, 0);
    assert w[0..] == w && Places(t, w, j) == PlacesFrom(t, w, j, 0);
  }
}
