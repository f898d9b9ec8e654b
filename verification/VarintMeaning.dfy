/**
 Which bytes the varint loop of the generated codecs accepts, and as what number, in terms of the
 bytes: overlong forms are accepted, and what does not fit in 64 bits is cut off.
 */
module VarintMeaning {
  import opened ProtoWire

  /** From `i` on, `n` bytes have their top bit set. */
  predicate Continues(data: seq<byte>, i: nat, n: nat) {
    i + n <= |data| && forall j :: i <= j < i + n ==> data[j] >= 128
  }

  /** A varint of `n + 1` bytes stands at `i`. */
  predicate EndsAfter(data: seq<byte>, i: nat, n: nat) {
    Continues(data, i, n) && i + n < |data| && data[i + n] < 128
  }

  /** The number whose seven-bit digits, the lowest first, are in the `n + 1` bytes from `i` on. */
  function Digits(data: seq<byte>, i: nat, n: nat): (r: nat)
    requires i + n < |data|
    decreases n
  {
    data[i] % 128 + if n == 0 then 0 else 128 * Digits(data, i + 1, n - 1)
  }

  lemma ModDigit(g: nat, v: nat, m: nat)
    requires g < 128 && m > 0
    ensures (g + 128 * v) % (128 * m) == g + 128 * (v % m)
  {
    var (q, r) := (v / m, v % m);
    assert v == m * q + r;
    assert g + 128 * v == (128 * m) * q + (g + 128 * r) by { Regroup(g, m, q, r); }
    ModOf(128 * m, q, g + 128 * r);
  }

  lemma Regroup(g: nat, m: nat, q: nat, r: nat)
    ensures g + 128 * (m * q + r) == (128 * m) * q + (g + 128 * r)
  {
  }

  lemma {:induction false} ModOf(m: nat, q: nat, r: nat)
    requires r < m
    ensures (m * q + r) % m == r
  {
    if q > 0 {
      ModOf(m, q - 1, r);
      assert m * q == m * (q - 1) + m;
      ModAdd(m * (q - 1) + r, m);
    }
  }

  lemma ModAdd(x: nat, m: nat)
    requires m > 0
    ensures (x + m) % m == x % m
  {
    var (a, b) := ((x + m) / m, x / m);
    assert x + m == m * a + (x + m) % m;
    assert x == m * b + x % m;
    assert m * (a - b - 1) == m * a - m * b - m;
    NoMultiple(m, a - b - 1);
  }

  lemma NoMultiple(m: int, d: int)
    requires m > 0
    ensures d == 0 || m * d >= m || m * d <= -m
  {
    if d > 0 { assert m * d == m * (d - 1) + m; }
    if d < 0 { assert m * d == -(m * (-d - 1)) - m; }
  }

  lemma ModSmall(x: nat, m: nat)
    requires x < m
    ensures x % m == x
  {
  }

  lemma ModTwice(b: nat)
    ensures b % 128 % 2 == b % 2
  {
  }

  lemma LastDigit(data: seq<byte>, i: nat, k: nat)
    requires k <= 9 && EndsAfter(data, i, 0)
    ensures Room(k) > 0 && ReadGroups(data, i, k) == Ok(data[i] % 128 % Room(k), i + 1)
  {
    if k < 9 {
      RoomLarge(k);
      ModSmall(data[i] % 128, Room(k));
    } else {
      ModTwice(data[i]);
    }
  }

  lemma NextDigit(data: seq<byte>, i: nat, k: nat, v: nat, next: nat)
    requires k < 9 && i < |data| && data[i] >= 128 && Room(k + 1) > 0 && ReadGroups(data, i + 1, k + 1) == Ok(v % Room(k + 1), next)
    ensures Room(k) > 0 && ReadGroups(data, i, k) == Ok((data[i] % 128 + 128 * v) % Room(k), next)
  {
    ModDigit(data[i] % 128, v, Room(k + 1));
  }

  lemma {:induction false} GroupsAreDigits(data: seq<byte>, i: nat, k: nat, n: nat)
    requires k + n <= 9 && EndsAfter(data, i, n)
    ensures Room(k) > 0 && ReadGroups(data, i, k) == Ok(Digits(data, i, n) % Room(k), i + n + 1)
    decreases n
  {
    if n == 0 {
      LastDigit(data, i, k);
    } else {
      assert data[i] >= 128;
      GroupsAreDigits(data, i + 1, k + 1, n - 1);
      NextDigit(data, i, k, Digits(data, i + 1, n - 1), i + n + 1);
    }
  }

  lemma {:induction false} GroupsFail(data: seq<byte>, i: nat, k: nat)
    requires k <= 10 && i <= |data|
    ensures ReadGroups(data, i, k) == Err(UnexpectedEOF) <==> |data| - i < 10 - k && Continues(data, i, |data| - i)
    ensures ReadGroups(data, i, k) == Err(IntOverflow) <==> Continues(data, i, 10 - k)
    ensures ReadGroups(data, i, k).Err? ==> ReadGroups(data, i, k) in {Err(UnexpectedEOF), Err(IntOverflow)}
    decreases |data| - i
  {
    if k < 10 && i < |data| && data[i] >= 128 {
      GroupsFail(data, i + 1, k + 1);
      MoreContinues(data, i, |data| - i);
      MoreContinues(data, i, 10 - k);
    }
  }

  lemma MoreContinues(data: seq<byte>, i: nat, n: nat)
    requires n > 0 && i < |data| && data[i] >= 128
    ensures Continues(data, i, n) <==> Continues(data, i + 1, n - 1)
  {
  }

  lemma {:induction false} EndOf(data: seq<byte>, i: nat, k: nat) returns (n: nat)
    requires i <= |data| && ReadGroups(data, i, k).Ok?
    ensures k + n <= 9 && EndsAfter(data, i, n)
    decreases |data| - i
  {
    if data[i] < 128 {
      n := 0;
    } else {
      n := EndOf(data, i + 1, k + 1);
      n := n + 1;
      assert EndsAfter(data, i, n);
    }
  }

  /** A varint is read exactly where one of at most ten bytes stands, as the number of its digits
      modulo two to the 64. */
  lemma VarintIsExact(data: seq<byte>, i: nat, v: nat, next: nat)
    requires i <= |data|
    ensures ReadVarint(data, i) == Ok(v, next) <==>
              i < next <= i + 10 && EndsAfter(data, i, next - i - 1) && v == Digits(data, i, next - i - 1) % TWO64
  {
    RoomIs64();
    if ReadVarint(data, i).Ok? {
      var n := EndOf(data, i, 0);
      GroupsAreDigits(data, i, 0, n);
    }
    if i < next <= i + 10 && EndsAfter(data, i, next - i - 1) { GroupsAreDigits(data, i, 0, next - i - 1); }
  }

  /** It fails exactly if ten bytes have their top bit set, or fewer and the data is over. */
  lemma VarintFailsIff(data: seq<byte>, i: nat)
    requires i <= |data|
    ensures ReadVarint(data, i) == Err(IntOverflow) <==> Continues(data, i, 10)
    ensures ReadVarint(data, i) == Err(UnexpectedEOF) <==> |data| - i < 10 && Continues(data, i, |data| - i)
    ensures ReadVarint(data, i).Err? ==> ReadVarint(data, i) in {Err(IntOverflow), Err(UnexpectedEOF)}
  {
    GroupsFail(data, i, 0);
  }
}
