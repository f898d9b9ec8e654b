/**
 Skipping one field of unknown number (skipDataobj and skipIpns, which are the same code),
 against the grammar of fields: a tag, then a varint, eight bytes, a length and that many
 bytes, four bytes, or a group of fields closed by an end tag.
 */
module ProtoFields {
  import opened ProtoWire

  // ---------- the grammar ----------

  datatype Field =
    | VarintField(num: nat, value: nat)
    | Fixed64(num: nat, eight: seq<byte>)
    | Bytes(num: nat, payload: seq<byte>)
    | Group(num: nat, fields: seq<Field>, endNum: nat)
    | Fixed32(num: nat, four: seq<byte>)

  /** A tag holds a field number and, in its low three bits, a wire type. */
  predicate IsTag(tag: nat, num: nat, wireType: nat) {
    tag % 8 == wireType && tag / 8 == num
  }

  /** `bytes` fill `data` from `i` up to `k`. */
  predicate Fill(data: seq<byte>, i: nat, bytes: seq<byte>, k: nat) {
    k == i + |bytes| <= |data| && data[i..k] == bytes
  }

  /** The field `f` stands in `data` from `i` up to `k`. */
  ghost predicate Stands(data: seq<byte>, i: nat, f: Field, k: nat)
    requires i <= |data|
    decreases f
  {
    var tag := ReadVarint(data, i);
    tag.Ok? &&
    match f
    case VarintField(num, value) => IsTag(tag.value, num, 0) && ReadVarint(data, tag.next) == Ok(value, k)
    case Fixed64(num, eight) => IsTag(tag.value, num, 1) && |eight| == 8 && Fill(data, tag.next, eight, k)
    case Bytes(num, payload) => IsTag(tag.value, num, 2) && LengthAndBytes(data, tag.next, payload, k)
    case Group(num, fields, endNum) =>
      IsTag(tag.value, num, 3) && exists c :: Closed(data, c, endNum, k) && StandAll(data, tag.next, fields, c)
    case Fixed32(num, four) => IsTag(tag.value, num, 5) && |four| == 4 && Fill(data, tag.next, four, k)
  }

  predicate LengthAndBytes(data: seq<byte>, i: nat, payload: seq<byte>, k: nat)
    requires i <= |data|
  {
    var len := ReadVarint(data, i);
    len.Ok? && len.value == |payload| && Fill(data, len.next, payload, k)
  }

  /** The end tag of a group. */
  predicate Closed(data: seq<byte>, j: nat, endNum: nat, k: nat) {
    j <= |data| && var tag := ReadVarint(data, j); tag.Ok? && IsTag(tag.value, endNum, 4) && tag.next == k
  }

  /** The fields `fs` stand one behind the other from `i` up to `k`. */
  ghost predicate StandAll(data: seq<byte>, i: nat, fs: seq<Field>, k: nat)
    requires i <= |data|
    decreases fs
  {
    if fs == [] then k == i
    else exists j :: i <= j <= |data| && Stands(data, i, fs[0], j) && StandAll(data, j, fs[1..], k)
  }

  ghost predicate FieldStands(data: seq<byte>, i: nat, k: nat)
    requires i <= |data|
  {
    exists f :: Stands(data, i, f, k)
  }

  // ---------- skipping ----------

  /** The index after the payload of one tag, in Go's int, and the group depth. */
  function SkipPayload(data: seq<byte>, wire: nat, i: nat, depth: nat): (r: Read<nat>)
    requires i <= |data| < TWO63
    ensures r.Ok? ==> i <= r.next < TWO63
  {
    match wire % 8
    case 0 => var v := ReadVarint(data, i); if v.Err? then Err(v.error) else Ok(depth, v.next)
    case 1 => Jump(i, 8, depth)
    case 2 =>
      var v := ReadVarint(data, i);
      if v.Err? then Err(v.error)
      else if ToInt(v.value) < 0 then Err(InvalidLength)
      else Jump(v.next, ToInt(v.value), depth)
    case 3 => Ok(depth + 1, i)
    case 4 => if depth == 0 then Err(UnexpectedEndOfGroup) else Ok(depth - 1, i)
    case 5 => Jump(i, 4, depth)
    case _ => Err(IllegalWireType)
  }

  /** An index that wrapped around to a negative number is an error. */
  function Jump(i: nat, n: nat, depth: nat): (r: Read<nat>)
    requires i < TWO63 && n < TWO63
    ensures r.Ok? ==> i <= r.next < TWO63
  {
    if AddInt(i, n) < 0 then Err(InvalidLength) else Ok(depth, AddInt(i, n))
  }

  function SkipFrom(data: seq<byte>, i: nat, depth: nat): (r: Read<()>)
    requires |data| < TWO63
    ensures r.Ok? ==> i < r.next < TWO63 && r == Ok((), r.next)
    decreases |data| - i
  {
    if i >= |data| then Err(UnexpectedEOF)
    else
      var tag := ReadVarint(data, i);
      if tag.Err? then Err(tag.error)
      else
        var p := SkipPayload(data, tag.value, tag.next, depth);
        if p.Err? then Err(p.error)
        else if p.value == 0 then Ok((), p.next)
        else SkipFrom(data, p.next, p.value)
  }

  /** The switch over the wire type. */
  method SkipOne(data: seq<byte>, wire: nat, start: nat, depth: nat) returns (r: Read<nat>)
    requires start <= |data| < TWO63
    ensures r == SkipPayload(data, wire, start, depth)
  {
    var i: int, d := start, depth;
    match wire % 8 {
      case 0 =>
        var v, _ := DecodeVarint(data, start);
        if v.Err? { return Err(v.error); }
        i := v.next;
      case 1 => i := AddInt(i, 8);
      case 2 =>
        var v, _ := DecodeVarint(data, start);
        if v.Err? { return Err(v.error); }
        if ToInt(v.value) < 0 { return Err(InvalidLength); }
        i := AddInt(v.next, ToInt(v.value));
      case 3 => d := d + 1;
      case 4 =>
        if d == 0 { return Err(UnexpectedEndOfGroup); }
        d := d - 1;
      case 5 => i := AddInt(i, 4);
      case _ => return Err(IllegalWireType);
    }
    if i < 0 { return Err(InvalidLength); }
    r := Ok(d, i);
  }

  method Skip(data: seq<byte>) returns (r: Read<()>)
    requires |data| < TWO63
    ensures r == SkipFrom(data, 0, 0)
  {
    var i, depth := 0, 0;
    while i < |data|
      invariant SkipFrom(data, i, depth) == SkipFrom(data, 0, 0)
      decreases |data| - i
    {
      var tag, _ := DecodeVarint(data, i);
      if tag.Err? { return Err(tag.error); }
      var p := SkipOne(data, tag.value, tag.next, depth);
      if p.Err? { return Err(p.error); }
      if p.value == 0 { return Ok((), p.next); }
      i, depth := p.next, p.value;
    }
    return Err(UnexpectedEOF);
  }

  // ---------- skipping follows the grammar ----------

  /** What skipping does once it stands behind a field. */
  function Resume(data: seq<byte>, next: nat, depth: nat): (r: Read<()>)
    requires |data| < TWO63
  {
    if depth == 0 then Ok((), next) else SkipFrom(data, next, depth)
  }

  lemma SkipsPlain(data: seq<byte>, i: nat, depth: nat, f: Field, k: nat)
    requires i <= |data| < TWO63 && !f.Group? && Stands(data, i, f, k)
    ensures SkipFrom(data, i, depth) == Resume(data, k, depth) && i < k <= |data|
  {
    var tag := ReadVarint(data, i);
    assert SkipPayload(data, tag.value, tag.next, depth) == Ok(depth, k);
  }

  /** Skipping a field of the grammar, groups nested to any depth, stops right behind it. */
  lemma {:induction false} SkipsField(data: seq<byte>, i: nat, depth: nat, f: Field, k: nat)
    requires i <= |data| < TWO63 && Stands(data, i, f, k)
    ensures SkipFrom(data, i, depth) == Resume(data, k, depth) && i < k <= |data|
    decreases f
  {
    if f.Group? {
      var start := ReadVarint(data, i).next;
      var j :| Closed(data, j, f.endNum, k) && StandAll(data, start, f.fields, j);
      SkipsFields(data, start, depth + 1, f.fields, j);
      EntersGroup(data, i, depth, start);
      LeavesGroup(data, j, depth + 1, f.endNum, k);
    } else {
      SkipsPlain(data, i, depth, f, k);
    }
  }

  lemma EntersGroup(data: seq<byte>, i: nat, depth: nat, start: nat)
    requires i <= |data| < TWO63
    requires var tag := ReadVarint(data, i); tag.Ok? && tag.value % 8 == 3 && tag.next == start
    ensures SkipFrom(data, i, depth) == SkipFrom(data, start, depth + 1)
  {
  }

  lemma LeavesGroup(data: seq<byte>, j: nat, depth: nat, endNum: nat, k: nat)
    requires |data| < TWO63 && depth > 0 && Closed(data, j, endNum, k)
    ensures SkipFrom(data, j, depth) == Resume(data, k, depth - 1)
  {
  }

  lemma {:induction false} SkipsFields(data: seq<byte>, i: nat, depth: nat, fs: seq<Field>, k: nat)
    requires i <= |data| < TWO63 && depth > 0 && StandAll(data, i, fs, k)
    ensures SkipFrom(data, i, depth) == SkipFrom(data, k, depth) && i <= k <= |data|
    decreases fs
  {
    if fs != [] {
      var j :| i <= j <= |data| && Stands(data, i, fs[0], j) && StandAll(data, j, fs[1..], k);
      SkipsField(data, i, depth, fs[0], j);
      SkipsFields(data, j, depth, fs[1..], k);
    }
  }

  // ---------- and accepts nothing else ----------

  /** A field other than a group, read off the data. */
  lemma PlainFieldAt(data: seq<byte>, i: nat, depth: nat, k: nat) returns (f: Field)
    requires i <= |data| < TWO63 && k <= |data|
    requires var tag := ReadVarint(data, i);
             && tag.Ok? && tag.value % 8 != 3 && tag.value % 8 != 4
             && SkipPayload(data, tag.value, tag.next, depth) == Ok(depth, k)
    ensures Stands(data, i, f, k)
  {
    var tag := ReadVarint(data, i);
    var num, j := tag.value / 8, tag.next;
    var v := ReadVarint(data, j);
    match tag.value % 8
    case 0 => f := VarintField(num, v.value);
    case 1 => f := Fixed64(num, data[j..k]);
    case 2 => f := Bytes(num, data[v.next..k]);
    case _ => f := Fixed32(num, data[j..k]);
  }

  lemma Prepend(data: seq<byte>, i: nat, f: Field, j: nat, fs: seq<Field>, k: nat)
    requires i <= j <= |data| && Stands(data, i, f, j) && StandAll(data, j, fs, k)
    ensures StandAll(data, i, [f] + fs, k)
  {
    assert ([f] + fs)[1..] == fs;
  }

  /** Inside a group, successful skipping reads a field that is not a group and goes on. */
  lemma PlainFieldInside(data: seq<byte>, i: nat, depth: nat, k: nat) returns (f: Field, mid: nat)
    requires i <= |data| < TWO63 && depth > 0 && k <= |data| && SkipFrom(data, i, depth) == Ok((), k)
    requires ReadVarint(data, i).Ok? ==> var t := ReadVarint(data, i).value % 8; t != 3 && t != 4
    ensures i < mid <= |data| && Stands(data, i, f, mid) && SkipFrom(data, mid, depth) == Ok((), k)
  {
    var tag := ReadVarint(data, i);
    mid := SkipPayload(data, tag.value, tag.next, depth).next;
    assert SkipFrom(data, mid, depth) == Ok((), k);
    f := PlainFieldAt(data, i, depth, mid);
  }

  /** From inside `depth` groups, successful skipping reads fields up to the end tag of the
      innermost one and goes on from there. */
  lemma {:induction false} FieldsAt(data: seq<byte>, i: nat, depth: nat, k: nat)
    returns (fs: seq<Field>, j: nat, endNum: nat, next: nat)
    requires i <= |data| < TWO63 && depth > 0 && k <= |data| && SkipFrom(data, i, depth) == Ok((), k)
    ensures StandAll(data, i, fs, j) && Closed(data, j, endNum, next) && i < next <= |data|
    ensures Resume(data, next, depth - 1) == Ok((), k)
    decreases |data| - i
  {
    var tag := ReadVarint(data, i);
    if tag.value % 8 == 4 {
      fs, j, endNum, next := [], i, tag.value / 8, tag.next;
      LeavesGroup(data, i, depth, endNum, next);
    } else {
      var f, mid := FieldInside(data, i, depth, k);
      fs, j, endNum, next := FieldsAt(data, mid, depth, k);
      Prepend(data, i, f, mid, fs, j);
      fs := [f] + fs;
    }
  }

  lemma {:induction false} FieldInside(data: seq<byte>, i: nat, depth: nat, k: nat) returns (f: Field, mid: nat)
    requires i <= |data| < TWO63 && depth > 0 && k <= |data| && SkipFrom(data, i, depth) == Ok((), k)
    requires ReadVarint(data, i).Ok? ==> ReadVarint(data, i).value % 8 != 4
    ensures i < mid <= |data| && Stands(data, i, f, mid) && SkipFrom(data, mid, depth) == Ok((), k)
    decreases |data| - i, 0
  {
    var tag := ReadVarint(data, i);
    if tag.value % 8 == 3 {
      EntersGroup(data, i, depth, tag.next);
      var inner, close, num, after := FieldsAt(data, tag.next, depth + 1, k);
      f, mid := Group(tag.value / 8, inner, num), after;
    } else {
      f, mid := PlainFieldInside(data, i, depth, k);
    }
  }

  /** Skipping ends at `k` within the data if and only if a field stands there. */
  lemma SkipIsExact(data: seq<byte>, i: nat, k: nat)
    requires i <= |data| < TWO63
    ensures SkipFrom(data, i, 0) == Ok((), k) && k <= |data| <==> FieldStands(data, i, k)
  {
    if SkipFrom(data, i, 0) == Ok((), k) && k <= |data| {
      var f := SkippedField(data, i, k);
      assert Stands(data, i, f, k);
    } else if FieldStands(data, i, k) {
      var f :| Stands(data, i, f, k);
      SkipsField(data, i, 0, f, k);
    }
  }

  lemma SkippedField(data: seq<byte>, i: nat, k: nat) returns (f: Field)
    requires i <= |data| < TWO63 && SkipFrom(data, i, 0) == Ok((), k) && k <= |data|
    ensures Stands(data, i, f, k)
  {
    var tag := ReadVarint(data, i);
    if tag.value % 8 == 3 {
      EntersGroup(data, i, 0, tag.next);
      var inner, close, num, mid := FieldsAt(data, tag.next, 1, k);
      f := Group(tag.value / 8, inner, num);
    } else {
      f := PlainFieldAt(data, i, 0, k);
    }
  }

  // ---------- fields do not depend on where they stand ----------

  lemma {:induction false} FieldForward(data: seq<byte>, i: nat, f: Field, k: nat)
    requires i <= |data| && Stands(data, i, f, k)
    ensures i < k <= |data|
    decreases f
  {
    if f.Group? {
      var start := ReadVarint(data, i).next;
      var c :| Closed(data, c, f.endNum, k) && StandAll(data, start, f.fields, c);
      FieldsForward(data, start, f.fields, c);
    }
  }

  lemma {:induction false} FieldsForward(data: seq<byte>, i: nat, fs: seq<Field>, k: nat)
    requires i <= |data| && StandAll(data, i, fs, k)
    ensures i <= k <= |data|
    decreases fs
  {
    if fs != [] {
      var j :| i <= j <= |data| && Stands(data, i, fs[0], j) && StandAll(data, j, fs[1..], k);
      FieldsForward(data, j, fs[1..], k);
    }
  }

  /** The bytes of `a` from `lo` up to `hi` stand in `b`, moved by `off`. */
  ghost predicate Alike(a: seq<byte>, b: seq<byte>, lo: nat, hi: nat, off: int) {
    && 0 <= lo + off && lo <= hi <= |a| && hi + off <= |b|
    && forall j :: lo <= j < hi ==> a[j] == b[j + off]
  }

  lemma {:induction false} GroupsAlike(a: seq<byte>, b: seq<byte>, lo: nat, hi: nat, off: int, j: nat, k: nat)
    requires Alike(a, b, lo, hi, off) && lo <= j <= |a| && ReadGroups(a, j, k).Ok? && ReadGroups(a, j, k).next <= hi
    ensures var r := ReadGroups(a, j, k); ReadGroups(b, j + off, k) == Ok(r.value, r.next + off)
    decreases |a| - j
  {
    if a[j] >= 128 { GroupsAlike(a, b, lo, hi, off, j + 1, k + 1); }
  }

  lemma SliceAlike(a: seq<byte>, b: seq<byte>, lo: nat, hi: nat, off: int, j: nat, k: nat)
    requires Alike(a, b, lo, hi, off) && lo <= j <= k <= hi
    ensures a[j..k] == b[j + off..k + off]
  {
    forall x | 0 <= x < k - j ensures a[j..k][x] == b[j + off..k + off][x] { assert a[j + x] == b[j + x + off]; }
  }

  lemma ReadAlike(a: seq<byte>, b: seq<byte>, lo: nat, hi: nat, off: int, j: nat)
    requires Alike(a, b, lo, hi, off) && lo <= j <= |a| && ReadVarint(a, j).Ok? && ReadVarint(a, j).next <= hi
    ensures var r := ReadVarint(a, j); ReadVarint(b, j + off) == Ok(r.value, r.next + off)
  {
    GroupsAlike(a, b, lo, hi, off, j, 0);
  }

  lemma FillAlike(a: seq<byte>, b: seq<byte>, lo: nat, hi: nat, off: int, j: nat, bytes: seq<byte>, k: nat)
    requires Alike(a, b, lo, hi, off) && lo <= j && Fill(a, j, bytes, k) && k <= hi
    ensures Fill(b, j + off, bytes, k + off)
  {
    SliceAlike(a, b, lo, hi, off, j, k);
  }

  lemma LengthAlike(a: seq<byte>, b: seq<byte>, lo: nat, hi: nat, off: int, j: nat, bytes: seq<byte>, k: nat)
    requires Alike(a, b, lo, hi, off) && lo <= j <= |a| && LengthAndBytes(a, j, bytes, k) && k <= hi
    ensures k + off >= 0 && j + off <= |b| && LengthAndBytes(b, j + off, bytes, k + off)
  {
    ReadAlike(a, b, lo, hi, off, j);
    FillAlike(a, b, lo, hi, off, ReadVarint(a, j).next, bytes, k);
  }

  lemma CloseAlike(a: seq<byte>, b: seq<byte>, lo: nat, hi: nat, off: int, c: nat, endNum: nat, k: nat)
    requires Alike(a, b, lo, hi, off) && lo <= c && Closed(a, c, endNum, k) && k <= hi
    ensures c < k && Closed(b, c + off, endNum, k + off)
  {
    ReadAlike(a, b, lo, hi, off, c);
  }

  /** Whether a field stands somewhere depends on its own bytes only. */
  lemma {:induction false} FieldAlike(a: seq<byte>, b: seq<byte>, lo: nat, hi: nat, off: int, j: nat, f: Field, k: nat)
    requires Alike(a, b, lo, hi, off) && lo <= j <= |a| && Stands(a, j, f, k) && k <= hi
    ensures j < k && k + off >= 0 && j + off <= |b| && Stands(b, j + off, f, k + off)
    decreases f
  {
    FieldForward(a, j, f, k);
    TagBefore(a, j, f, k);
    ReadAlike(a, b, lo, hi, off, j);
    var start := ReadVarint(a, j).next;
    match f
    case VarintField(_, _) => ReadAlike(a, b, lo, hi, off, start);
    case Fixed64(_, eight) => FillAlike(a, b, lo, hi, off, start, eight, k);
    case Fixed32(_, four) => FillAlike(a, b, lo, hi, off, start, four, k);
    case Bytes(_, payload) => LengthAlike(a, b, lo, hi, off, start, payload, k);
    case Group(_, fields, endNum) =>
      var c :| Closed(a, c, endNum, k) && StandAll(a, start, fields, c);
      FieldsAlike(a, b, lo, hi, off, start, fields, c);
      CloseAlike(a, b, lo, hi, off, c, endNum, k);
  }

  lemma TagBefore(data: seq<byte>, i: nat, f: Field, k: nat)
    requires i <= |data| && Stands(data, i, f, k)
    ensures ReadVarint(data, i).Ok? && ReadVarint(data, i).next <= k
  {
    if f.Group? {
      var start := ReadVarint(data, i).next;
      var c :| Closed(data, c, f.endNum, k) && StandAll(data, start, f.fields, c);
      FieldsForward(data, start, f.fields, c);
    }
  }

  lemma {:induction false} FieldsAlike(a: seq<byte>, b: seq<byte>, lo: nat, hi: nat, off: int, j: nat, fs: seq<Field>, k: nat)
    requires Alike(a, b, lo, hi, off) && lo <= j <= |a| && StandAll(a, j, fs, k) && k <= hi
    ensures j <= k && j + off <= |b| && StandAll(b, j + off, fs, k + off)
    decreases fs
  {
    FieldsForward(a, j, fs, k);
    if fs != [] {
      var m :| j <= m <= |a| && Stands(a, j, fs[0], m) && StandAll(a, m, fs[1..], k);
      FieldsForward(a, m, fs[1..], k);
      FieldAlike(a, b, lo, hi, off, j, fs[0], m);
      FieldsAlike(a, b, lo, hi, off, m, fs[1..], k);
      assert Stands(b, j + off, fs[0], m + off);
    }
  }

  lemma StandsAlike(a: seq<byte>, b: seq<byte>, lo: nat, hi: nat, off: int, j: nat, k: nat)
    requires Alike(a, b, lo, hi, off) && lo <= j <= |a| && FieldStands(a, j, k) && k <= hi
    ensures k + off >= 0 && j + off <= |b| && FieldStands(b, j + off, k + off)
  {
    var f :| Stands(a, j, f, k);
    FieldAlike(a, b, lo, hi, off, j, f, k);
  }

  lemma RestAlike(data: seq<byte>, i: nat)
    requires i <= |data|
    ensures Alike(data[i..], data, 0, |data| - i, i) && Alike(data, data[i..], i, |data|, 0 - i as int)
  {
  }

  lemma BothStand(data: seq<byte>, rest: seq<byte>, i: nat, k: nat)
    requires i <= k && i <= |data| && |rest| == |data| - i
    requires Alike(rest, data, 0, |rest|, i) && Alike(data, rest, i, |data|, 0 - i as int)
    ensures FieldStands(rest, 0, k - i) <==> FieldStands(data, i, k)
  {
    if FieldStands(rest, 0, k - i) {
      var f :| Stands(rest, 0, f, k - i);
      FieldForward(rest, 0, f, k - i);
      StandsAlike(rest, data, 0, |rest|, i, 0, k - i);
    } else if FieldStands(data, i, k) {
      var f :| Stands(data, i, f, k);
      FieldForward(data, i, f, k);
      StandsAlike(data, rest, i, |data|, 0 - i as int, i, k);
    }
  }

  lemma {:induction false} Append(data: seq<byte>, i: nat, fs: seq<Field>, j: nat, f: Field, k: nat)
    requires i <= |data| && j <= |data| && StandAll(data, i, fs, j) && Stands(data, j, f, k) && k <= |data|
    ensures StandAll(data, i, fs + [f], k)
    decreases |fs|
  {
    FieldForward(data, j, f, k);
    if fs == [] {
      Prepend(data, i, f, k, [], k);
      assert [f] + [] == fs + [f];
    } else {
      var m :| i <= m <= |data| && Stands(data, i, fs[0], m) && StandAll(data, m, fs[1..], j);
      Append(data, m, fs[1..], j, f, k);
      Prepend(data, i, fs[0], m, fs[1..] + [f], k);
      assert [fs[0]] + (fs[1..] + [f]) == fs + [f];
    }
  }

  // ---------- what the generated decoders share ----------

  /** The bytes of a length-delimited field, with the length checks in Go's int. */
  function ReadBytes(data: seq<byte>, i: nat): (r: Read<seq<byte>>)
    requires i <= |data| < TWO63
    ensures r.Ok? ==> i < r.next <= |data|
  {
    var len := ReadVarint(data, i);
    if len.Err? then Err(len.error)
    else if ToInt(len.value) < 0 then Err(InvalidLength)
    else
      var post := AddInt(len.next, ToInt(len.value));
      if post < 0 then Err(InvalidLength)
      else if post > |data| then Err(UnexpectedEOF)
      else Ok(data[len.next..post], post)
  }

  function SkipAt(data: seq<byte>, i: nat): (r: Read<()>)
    requires i < |data| < TWO63
    ensures r.Ok? ==> i < r.next <= |data| && r == Ok((), r.next)
  {
    var s := SkipFrom(data[i..], 0, 0);
    if s.Err? then s
    else if AddInt(i, s.next) < 0 then Err(InvalidLength)
    else if AddInt(i, s.next) > |data| then Err(UnexpectedEOF)
    else Ok((), AddInt(i, s.next))
  }

  method DecodeBytes(data: seq<byte>, i: nat) returns (r: Read<seq<byte>>)
    requires i <= |data| < TWO63
    ensures r == ReadBytes(data, i)
  {
    var len, _ := DecodeVarint(data, i);
    if len.Err? { return Err(len.error); }
    if ToInt(len.value) < 0 { return Err(InvalidLength); }
    var post := AddInt(len.next, ToInt(len.value));
    if post < 0 { return Err(InvalidLength); }
    if post > |data| { return Err(UnexpectedEOF); }
    r := Ok(data[len.next..post], post);
  }

  method DecodeUnknown(data: seq<byte>, i: nat) returns (r: Read<()>)
    requires i < |data| < TWO63
    ensures r == SkipAt(data, i)
  {
    var s := Skip(data[i..]);
    if s.Err? { return s; }
    var post := AddInt(i, s.next);
    if post < 0 { return Err(InvalidLength); }
    if post > |data| { return Err(UnexpectedEOF); }
    r := Ok((), post);
  }

  lemma ReadBytesIsExact(data: seq<byte>, i: nat, bytes: seq<byte>, k: nat)
    requires i <= |data| < TWO63
    ensures ReadBytes(data, i) == Ok(bytes, k) <==> LengthAndBytes(data, i, bytes, k)
  {
  }

  lemma SkipAtIsSkip(data: seq<byte>, i: nat, k: nat)
    requires i < |data| < TWO63
    ensures SkipAt(data, i) == Ok((), k) <==> i < k <= |data| && SkipFrom(data[i..], 0, 0) == Ok((), k - i)
  {
  }

  lemma SkipAtIsExact(data: seq<byte>, i: nat, k: nat)
    requires i < |data| < TWO63
    ensures SkipAt(data, i) == Ok((), k) <==> FieldStands(data, i, k)
  {
    SkipAtIsSkip(data, i, k);
    if i < k {
      RestAlike(data, i);
      RestIsExact(data, data[i..], i, k);
    } else if FieldStands(data, i, k) {
      var f :| Stands(data, i, f, k);
      FieldForward(data, i, f, k);
    }
  }

  lemma RestIsExact(data: seq<byte>, rest: seq<byte>, i: nat, k: nat)
    requires i < k && i <= |data| < TWO63 && |rest| == |data| - i
    requires Alike(rest, data, 0, |rest|, i) && Alike(data, rest, i, |data|, 0 - i as int)
    ensures k <= |data| && SkipFrom(rest, 0, 0) == Ok((), k - i) <==> FieldStands(data, i, k)
  {
    BothStand(data, rest, i, k);
    SkipIsExact(rest, 0, k - i);
  }

  lemma NumberFieldStands(data: seq<byte>, i: nat, tag: byte, v: nat)
    requires tag < 128 && tag % 8 == 0 && v < TWO64 && At(data, i, NumberField(tag, v))
    ensures Stands(data, i, VarintField(tag / 8, v), i + |NumberField(tag, v)|)
  {
    assert Varint(tag) == [tag];
    AtParts(data, i, [tag], Varint(v));
    VarintReadsBack(data, i, tag);
    VarintReadsBack(data, i + 1, v);
  }

  lemma BytesFieldStands(data: seq<byte>, i: nat, tag: byte, bytes: seq<byte>)
    requires tag < 128 && tag % 8 == 2 && |bytes| < TWO64 && At(data, i, BytesField(tag, bytes))
    ensures Stands(data, i, Bytes(tag / 8, bytes), i + |BytesField(tag, bytes)|)
  {
    assert Varint(tag) == [tag];
    AtParts(data, i, [tag], Varint(|bytes|) + bytes);
    AtParts(data, i + 1, Varint(|bytes|), bytes);
    VarintReadsBack(data, i, tag);
    VarintReadsBack(data, i + 1, |bytes|);
  }
}
