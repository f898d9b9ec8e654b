/**
 The content-defined chunker of chunker/buzhash.go: a buffer of at most BUZ_MAX bytes is
 filled from the reader, cut at the first window boundary at or after BUZ_MIN, and what is
 left is carried over to the next call.
 */
module Buzhash {
  import opened BuzhashRolling

  const BUZ_MIN: nat := 131072
  const BUZ_MAX: nat := 524288
  const BUZ_MASK: bv32 := 0x1_FFFF

  /** The window that ends at `i` hashes, from scratch, to zero under the mask. */
  predicate Boundary(t: Table, d: seq<byte>, i: nat)
    requires WINDOW <= i <= |d|
  {
    Hash(t, d[i - WINDOW..i]) & BUZ_MASK == 0
  }

  /** An even number of the window's bytes have bit `j`. */
  ghost predicate EvenAt(t: Table, w: seq<byte>, j: bv5) {
    |Places(t, w, j)| % 2 == 0
  }

  ghost predicate LowBitsEven(t: Table, w: seq<byte>) {
    forall j: bv5 :: j < 17 ==> EvenAt(t, w, j)
  }

  lemma MaskedZero(x: bv32)
    requires forall j: bv5 :: j < 17 ==> !Bit(x, j)
    ensures x & BUZ_MASK == 0
  {
    assert !Bit(x, 0) && !Bit(x, 1) && !Bit(x, 2) && !Bit(x, 3) && !Bit(x, 4) && !Bit(x, 5);
    assert !Bit(x, 6) && !Bit(x, 7) && !Bit(x, 8) && !Bit(x, 9) && !Bit(x, 10) && !Bit(x, 11);
    assert !Bit(x, 12) && !Bit(x, 13) && !Bit(x, 14) && !Bit(x, 15) && !Bit(x, 16);
  }

  lemma MaskedBit(x: bv32, j: bv5)
    requires x & BUZ_MASK == 0 && j < 17
    ensures !Bit(x, j)
  {
  }

  /** A boundary is where each of the low 17 bits is had by an even number of the 32 bytes before
      it, through their table entries moved up by as many places as bytes follow. */
  lemma BoundaryMeaning(t: Table, d: seq<byte>, i: nat)
    requires WINDOW <= i <= |d|
    ensures Boundary(t, d, i) <==> LowBitsEven(t, d[i - WINDOW..i])
  {
    var w := d[i - WINDOW..i];
    var h := Hash(t, w);
    forall j: bv5 ensures Bit(h, j) <==> !EvenAt(t, w, j) { HashBits(t, w, j); }
    if h & BUZ_MASK == 0 {
      forall j: bv5 | j < 17 ensures EvenAt(t, w, j) { MaskedBit(h, j); }
    } else if LowBitsEven(t, w) {
      forall j: bv5 | j < 17 ensures !Bit(h, j) { assert EvenAt(t, w, j); }
      MaskedZero(h);
    }
  }

  /** `cut` is the first boundary of `d` at or after BUZ_MIN, or the end of `d`. */
  ghost predicate FirstCut(t: Table, d: seq<byte>, cut: nat) {
    && BUZ_MIN <= cut <= |d|
    && (cut < |d| ==> Boundary(t, d, cut))
    && forall j :: BUZ_MIN <= j < cut ==> !Boundary(t, d, j)
  }

  function CutFrom(t: Table, d: seq<byte>, i: nat): (cut: nat)
    requires BUZ_MIN <= i <= |d|
    ensures i <= cut <= |d|
    decreases |d| - i
  {
    if i == |d| || Boundary(t, d, i) then i else CutFrom(t, d, i + 1)
  }

  lemma {:induction false} CutFromIsFirst(t: Table, d: seq<byte>, i: nat)
    requires BUZ_MIN <= i <= |d| && forall j :: BUZ_MIN <= j < i ==> !Boundary(t, d, j)
    ensures FirstCut(t, d, CutFrom(t, d, i))
    decreases |d| - i
  {
    if i < |d| && !Boundary(t, d, i) { CutFromIsFirst(t, d, i + 1); }
  }

  /** The stretch of the stream that is in the buffer when a chunk is cut. */
  function Buffered(s: seq<byte>): (d: seq<byte>) {
    if |s| <= BUZ_MAX then s else s[..BUZ_MAX]
  }

  /** Where the stream `s` is cut next: the whole of it when it is shorter than BUZ_MIN. */
  function NextCut(t: Table, s: seq<byte>): (cut: nat)
    ensures cut <= |s|
    ensures s != [] ==> cut > 0
  {
    if |s| < BUZ_MIN then |s| else CutFrom(t, Buffered(s), BUZ_MIN)
  }

  /** The chunks of a stream: a function of its bytes alone. */
  function Chunks(t: Table, s: seq<byte>): (r: seq<seq<byte>>)
    decreases |s|
  {
    if s == [] then [] else [s[..NextCut(t, s)]] + Chunks(t, s[NextCut(t, s)..])
  }

  ghost function Concat(chunks: seq<seq<byte>>): seq<byte> {
    if chunks == [] then [] else chunks[0] + Concat(chunks[1..])
  }

  // ---------- the promises about the chunk list ----------

  /** The chunks, put together again, are the stream. */
  lemma {:induction false} ChunksConcatenate(t: Table, s: seq<byte>)
    ensures Concat(Chunks(t, s)) == s
    decreases |s|
  {
    if s != [] {
      var cut := NextCut(t, s);
      ChunksConcatenate(t, s[cut..]);
      assert Chunks(t, s)[1..] == Chunks(t, s[cut..]);
      assert s[..cut] + s[cut..] == s;
    }
  }

  /** No chunk is empty or longer than BUZ_MAX, and only the last may be shorter than BUZ_MIN. */
  lemma {:induction false} ChunkSizes(t: Table, s: seq<byte>, k: nat)
    requires k < |Chunks(t, s)|
    ensures 0 < |Chunks(t, s)[k]| <= BUZ_MAX
    ensures k + 1 < |Chunks(t, s)| ==> BUZ_MIN <= |Chunks(t, s)[k]|
    decreases |s|
  {
    var cut := NextCut(t, s);
    if k > 0 {
      ChunkSizes(t, s[cut..], k - 1);
    } else if |s| < BUZ_MIN {
      assert s[cut..] == [];
      assert Chunks(t, s[cut..]) == [];
    }
  }

  lemma ChunksTail(t: Table, s: seq<byte>, k: nat)
    requires 0 < k <= |Chunks(t, s)|
    ensures var tail := Chunks(t, s[NextCut(t, s)..]); k - 1 <= |tail| && Chunks(t, s)[k..] == tail[k - 1..]
  {
  }

  /** Every chunk is cut where the specification says, within what was buffered then. */
  lemma {:induction false} ChunksAreFirstCuts(t: Table, s: seq<byte>, k: nat)
    requires k < |Chunks(t, s)|
    ensures var rest := Concat(Chunks(t, s)[k..]);
            && Chunks(t, s)[k] <= rest
            && (|rest| < BUZ_MIN ==> Chunks(t, s)[k] == rest)
            && (|rest| >= BUZ_MIN ==> FirstCut(t, Buffered(rest), |Chunks(t, s)[k]|))
    decreases |s|
  {
    var cut := NextCut(t, s);
    if k > 0 {
      ChunksTail(t, s, k);
      ChunksAreFirstCuts(t, s[cut..], k - 1);
    } else {
      ChunksConcatenate(t, s);
      assert Chunks(t, s)[0..] == Chunks(t, s);
      if |s| >= BUZ_MIN { CutFromIsFirst(t, Buffered(s), BUZ_MIN); }
    }
  }

  /** The chunks after the first `k` are the chunks of what follows them. */
  lemma {:induction false} ChunksRestart(t: Table, s: seq<byte>, k: nat)
    requires k <= |Chunks(t, s)|
    ensures Chunks(t, s)[k..] == Chunks(t, Concat(Chunks(t, s)[k..]))
    decreases |s|
  {
    if k == 0 {
      ChunksConcatenate(t, s);
      assert Chunks(t, s)[0..] == Chunks(t, s);
    } else {
      ChunksTail(t, s, k);
      ChunksRestart(t, s[NextCut(t, s)..], k - 1);
    }
  }

  /** Two streams that agree from some cut of each onwards are chunked alike from there on. */
  lemma StreamsResynchronize(t: Table, a: seq<byte>, i: nat, b: seq<byte>, j: nat)
    requires i <= |Chunks(t, a)| && j <= |Chunks(t, b)|
    requires Concat(Chunks(t, a)[i..]) == Concat(Chunks(t, b)[j..])
    ensures Chunks(t, a)[i..] == Chunks(t, b)[j..]
  {
    ChunksRestart(t, a, i);
    ChunksRestart(t, b, j);
  }

  // ---------- the chunker object ----------

  datatype ReadEnd = Full | EndOfInput | Failure

  /** An io.Reader: the bytes it still has to give, and whether it ends in an error. */
  class Source {
    var rest: seq<byte>
    const fails: bool

    constructor (input: seq<byte>, fails: bool)
      ensures rest == input && this.fails == fails
    {
      this.rest, this.fails := input, fails;
    }

    /** io.ReadFull: fill buf[from..], or report why that was not possible. */
    method ReadFull(buf: array<byte>, from: nat) returns (n: nat, end: ReadEnd)
      requires from <= buf.Length
      modifies this`rest, buf
      ensures from + n <= buf.Length && n <= |old(rest)|
      ensures buf[..from + n] == old(buf[..from]) + old(rest)[..n] && rest == old(rest)[n..]
      ensures if |old(rest)| >= buf.Length - from then n == buf.Length - from && end == Full
              else n == |old(rest)| && end == if fails then Failure else EndOfInput
    {
      var room := buf.Length - from;
      n := if |rest| >= room then room else |rest|;
      end := if |rest| >= room then Full else if fails then Failure else EndOfInput;
      forall k | 0 <= k < n { buf[from + k] := rest[k]; }
      rest := rest[n..];
    }
  }

  /** The rolling search for the cut, over the buffer. */
  method FindCut(t: Table, buf: array<byte>, len: nat) returns (cut: nat)
    requires BUZ_MIN <= len <= buf.Length
    ensures cut == CutFrom(t, buf[..len], BUZ_MIN)
  {
    ghost var d: seq<byte> := buf[..len];
    var state := FirstWindow(t, buf);
    assert buf[BUZ_MIN - WINDOW..BUZ_MIN] == d[BUZ_MIN - WINDOW..BUZ_MIN];
    var i := BUZ_MIN - WINDOW;
    while i <= len - WINDOW - 1
      invariant BUZ_MIN - WINDOW <= i <= len - WINDOW
      invariant state == Hash(t, d[i..i + WINDOW])
      invariant CutFrom(t, d, BUZ_MIN) == CutFrom(t, d, i + WINDOW)
    {
      if state & BUZ_MASK == 0 {
        return i + WINDOW;
      }
      assert !Boundary(t, d, i + WINDOW) && CutFrom(t, d, i + WINDOW) == CutFrom(t, d, i + WINDOW + 1);
      state := Roll(t, state, buf[i], buf[i + WINDOW], d, i);
      i := i + 1;
    }
    return i + WINDOW;
  }

  /** One step of the rolling hash: the window at `i` of `d` moves on by one byte. */
  method Roll(t: Table, state: bv32, left: byte, entered: byte, ghost d: seq<byte>, ghost i: nat) returns (rolled: bv32)
    requires i + WINDOW < |d| && left == d[i] && entered == d[i + WINDOW]
    requires state == Hash(t, d[i..i + WINDOW])
    ensures rolled == Hash(t, d[i + 1..i + 1 + WINDOW])
  {
    RollIsFresh(t, d[i..i + WINDOW], entered);
    Slide(d, i);
    rolled := Rot(state) ^ t[left as int] ^ t[entered as int];
  }

  lemma Slide(d: seq<byte>, i: nat)
    requires i + WINDOW < |d|
    ensures d[i..i + WINDOW][1..] + [d[i + WINDOW]] == d[i + 1..i + 1 + WINDOW]
  {
  }

  /** Hash the window that ends at BUZ_MIN, byte by byte. */
  method FirstWindow(t: Table, buf: array<byte>) returns (state: bv32)
    requires BUZ_MIN <= buf.Length
    ensures state == Hash(t, buf[BUZ_MIN - WINDOW..BUZ_MIN])
  {
    state := 0;
    var i := BUZ_MIN - WINDOW;
    while i < BUZ_MIN
      invariant BUZ_MIN - WINDOW <= i <= BUZ_MIN
      invariant state == Hash(t, buf[BUZ_MIN - WINDOW..i])
    {
      HashLast(t, buf[BUZ_MIN - WINDOW..i], buf[i]);
      assert buf[BUZ_MIN - WINDOW..i] + [buf[i]] == buf[BUZ_MIN - WINDOW..i + 1];
      state := Rot(state);
      state := state ^ t[buf[i] as int];
      i := i + 1;
    }
  }

  datatype Outcome = Chunk(bytes: seq<byte>) | Eof | Failed

  /** None while there may be more to come; otherwise what every later call returns. */
  datatype Status = Open | AtEof | Broken

  class Chunker {
    const t: Table
    const source: Source
    const buf: array<byte>
    var n: nat
    var status: Status

    ghost predicate Valid()
      reads this
    {
      buf.Length == BUZ_MAX && n <= BUZ_MAX - BUZ_MIN
    }

    /** The part of the stream that has not been returned yet. */
    ghost function Pending(): (s: seq<byte>)
      requires Valid()
      reads this, buf, source
    {
      buf[..n] + source.rest
    }

    constructor (t: Table, source: Source)
      ensures Valid() && status == Open && this.t == t && this.source == source
      ensures fresh(buf) && Pending() == source.rest
    {
      this.t, this.source := t, source;
      this.buf := new byte[BUZ_MAX];
      this.n, this.status := 0, Open;
    }

    /** The next chunk is the stream up to its next cut, and the rest stays pending. */
    method NextBytes() returns (r: Outcome)
      requires Valid()
      modifies this, buf, source`rest
      ensures Valid()
      ensures old(status) == AtEof ==> r == Eof && status == AtEof
      ensures old(status) == Broken ==> r == Failed && status == Broken
      ensures old(status) == Open ==>
                var s := old(Pending());
                if |s| < BUZ_MAX && source.fails then r == Failed && status == Broken
                else if s == [] then r == Eof && status == AtEof
                else
                  && r == Chunk(s[..NextCut(t, s)])
                  && (if |s| < BUZ_MIN then status == AtEof
                      else status == Open && Pending() == s[NextCut(t, s)..])
    {
      if status == AtEof { return Eof; }
      if status == Broken { return Failed; }
      ghost var s := Pending();
      var buffered, end := Fill();
      if end == Failure {
        status := Broken;
        return Failed;
      }
      if end == EndOfInput && buffered < BUZ_MIN {
        status := AtEof;
        assert s[..NextCut(t, s)] == s;
        if buffered == 0 { return Eof; }
        return Chunk(buf[..buffered]);
      }
      var res := CutChunk(buffered, s);
      return Chunk(res);
    }

    /** Read as much as fits behind what was carried over. */
    method Fill() returns (buffered: nat, end: ReadEnd)
      requires Valid()
      modifies buf, source`rest
      ensures buffered <= BUZ_MAX && buf[..buffered] + source.rest == old(Pending())
      ensures buf[..buffered] == Buffered(old(Pending()))
      ensures |old(Pending())| >= BUZ_MAX ==> end == Full
      ensures |old(Pending())| < BUZ_MAX ==> end == if source.fails then Failure else EndOfInput
    {
      ghost var s := Pending();
      var read;
      read, end := source.ReadFull(buf, n);
      buffered := n + read;
      assert buf[..buffered] + source.rest == s;
    }

    /** Cut the chunk off the buffered data and keep the rest. */
    method CutChunk(buffered: nat, ghost s: seq<byte>) returns (res: seq<byte>)
      requires Valid() && BUZ_MIN <= buffered <= BUZ_MAX
      requires buf[..buffered] + source.rest == s && buf[..buffered] == Buffered(s)
      modifies this`n, buf
      ensures Valid() && res == s[..NextCut(t, s)] && Pending() == s[NextCut(t, s)..]
    {
      var cut := FindCut(t, buf, buffered);
      res := buf[..cut];
      assert res == s[..cut];
      assert s[cut..] == buf[cut..buffered] + source.rest;
      CarryOver(cut, buffered);
    }

    /** Move what follows the cut to the front of the buffer; the ranges may overlap. */
    method CarryOver(cut: nat, buffered: nat)
      requires buf.Length == BUZ_MAX && BUZ_MIN <= cut <= buffered <= BUZ_MAX
      modifies this`n, buf
      ensures n == buffered - cut
      ensures buf[..n] == old(buf[cut..buffered])
    {
      forall k | 0 <= k < buffered - cut { buf[k] := buf[cut + k]; }
      n := buffered - cut;
    }
  }

  /** The loop of Chan in chunker/splitting.go: call NextBytes until it reports the end. */
  method AllChunks(t: Table, input: seq<byte>) returns (chunks: seq<seq<byte>>)
    ensures chunks == Chunks(t, input)
  {
    var source := new Source(input, false);
    var chunker := new Chunker(t, source);
    chunks := [];
    ghost var s := input;
    while true
      invariant chunker.Valid() && chunker.t == t && chunker.source == source && fresh(source) && fresh(chunker) && fresh(chunker.buf)
      invariant !source.fails && chunker.status != Broken
      invariant Chunks(t, input) == chunks + Chunks(t, s)
      invariant if chunker.status == Open then chunker.Pending() == s else s == []
      decreases |s|, chunker.status == Open
    {
      var r := chunker.NextBytes();
      if r == Eof {
        return;
      }
      var cut := NextCut(t, s);
      assert chunks + ([s[..cut]] + Chunks(t, s[cut..])) == (chunks + [s[..cut]]) + Chunks(t, s[cut..]);
      chunks := chunks + [r.bytes];
      s := s[cut..];
    }
  }
}
