/** Base-128 varints and the skipping of unknown fields, as the generated protobuf code does them.
    Inputs are byte strings that are only read; outputs go into a buffer that is filled from the back. */
module Wire {
  import opened Wrappers

  type Byte = x: int | 0 <= x < 256
  type Uint64 = x: int | 0 <= x < TWO_64

  const TWO_31: int := 0x8000_0000
  const TWO_32: int := 0x1_0000_0000
  const TWO_63: int := 0x8000_0000_0000_0000
  const TWO_64: int := 0x1_0000_0000_0000_0000

  datatype Error =
    | IntOverflow
    | UnexpectedEOF
    | InvalidLength
    | EndGroup
    | IllegalTag
    | WrongWireType
    | UnexpectedEndOfGroup
    | IllegalWireType
    | BadPayload

  // ---- varints ----

  function Varint(v: nat): (r: seq<Byte>)
    ensures 1 <= |r|
  {
    if v < 128 then [v] else [v % 128 + 128] + Varint(v / 128)
  }

  /** The number whose groups of seven bits these are, lowest first. */
  function Groups(s: seq<Byte>): nat {
    if s == [] then 0 else s[0] % 128 + 128 * Groups(s[1..])
  }

  /** A varint is the shortest list of seven-bit groups of its number, lowest first, with the top bit set
      in every byte but the last. */
  lemma {:induction false} VarintIsGroups(v: nat)
    ensures var r := Varint(v);
            && Groups(r) == v
            && (forall i :: 0 <= i < |r| - 1 ==> r[i] >= 128)
            && r[|r| - 1] < 128 && (|r| > 1 ==> r[|r| - 1] > 0)
  {
    var r := Varint(v);
    if v >= 128 {
      VarintIsGroups(v / 128);
      assert r[1..] == Varint(v / 128);
      assert forall i :: 1 <= i < |r| ==> r[i] == r[1..][i - 1];
    } else {
      assert r[1..] == [];
    }
  }

  /** Value and length of the varint at the head of `s`. `weight` is 1 << shift for the byte at hand;
      the bits or-ed in are disjoint from those already there, so the or is a sum, and those beyond
      64 bits are shifted out. */
  function ReadVarint(s: seq<Byte>, weight: nat): (r: Result<(nat, nat), Error>)
    ensures r.Ok? ==> 1 <= r.value.1 <= |s|
    decreases |s|
  {
    if weight >= TWO_64 then Err(IntOverflow)
    else if s == [] then Err(UnexpectedEOF)
    else
      var low := (s[0] % 128 * weight) % TWO_64;
      if s[0] < 128 then Ok((low, 1))
      else
        match ReadVarint(s[1..], weight * 128)
        case Ok((high, n)) => Ok((low + high, n + 1))
        case Err(e) => Err(e)
  }

  function BitLen(n: nat): nat {
    if n == 0 then 0 else 1 + BitLen(n / 2)
  }

  function Or1(x: nat): nat {
    if x % 2 == 0 then x + 1 else x
  }

  /** Length of the encoding of `x`, from the position of its highest bit. */
  function Sov(x: nat): nat {
    (BitLen(Or1(x)) + 6) / 7
  }

  lemma BitLenUnroll(n: nat)
    requires n >= 128
    ensures BitLen(n) == 7 + BitLen(n / 128)
  {
    assert BitLen(n) == 1 + BitLen(n / 2) == 2 + BitLen(n / 2 / 2);
    var m := n / 2 / 2;
    assert m == n / 4;
    assert BitLen(m) == 1 + BitLen(m / 2) == 2 + BitLen(m / 2 / 2);
    var k := m / 2 / 2;
    assert k == n / 16;
    assert BitLen(k) == 1 + BitLen(k / 2) == 2 + BitLen(k / 2 / 2);
    var j := k / 2 / 2;
    assert j == n / 64;
    assert BitLen(j) == 1 + BitLen(j / 2);
    assert j / 2 == n / 128;
  }

  lemma {:induction false} BitLenBound(n: nat, bits: nat)
    requires n < Pow2(bits)
    ensures BitLen(n) <= bits
  {
    if n > 0 {
      BitLenBound(n / 2, bits - 1);
    }
  }

  function Pow2(n: nat): nat {
    if n == 0 then 1 else 2 * Pow2(n - 1)
  }

  lemma OneByteSov(v: nat)
    requires v < 128
    ensures Sov(v) == 1
  {
    assert Pow2(7) == 2 * Pow2(6) == 4 * Pow2(5) == 8 * Pow2(4) == 16 * Pow2(3);
    assert Pow2(3) == 2 * Pow2(2) == 4 * Pow2(1) == 8 * Pow2(0);
    BitLenBound(Or1(v), 7);
  }

  lemma SovDrops(v: nat)
    requires v >= 128
    ensures Sov(v) == 1 + Sov(v / 128)
  {
    BitLenUnroll(Or1(v));
    assert Or1(v) / 128 == v / 128;
    assert BitLen(Or1(v / 128)) == BitLen(v / 128) by {
      assert Or1(v / 128) / 2 == v / 128 / 2;
    }
    hide BitLen;
  }

  /** The size computed from the bit length is the size written, for every value. */
  lemma {:induction false} SovIsLength(v: nat)
    ensures Sov(v) == |Varint(v)|
  {
    if v < 128 {
      OneByteSov(v);
    } else {
      SovIsLength(v / 128);
      SovDrops(v);
      hide Sov;
    }
  }

  /** Reading back what was written, whatever follows it. */
  lemma {:induction false} ReadsBack(v: nat, weight: nat, rest: seq<Byte>)
    requires 1 <= weight && v * weight < TWO_64
    requires v > 0 || weight < TWO_64
    ensures ReadVarint(Varint(v) + rest, weight) == Ok((v * weight, |Varint(v)|))
  {
    var s := Varint(v) + rest;
    assert weight < TWO_64 by {
      if v > 0 {
        Grows(v, weight);
      }
    }
    var low, high := v % 128, v / 128;
    Split(v, low, high, weight);
    assert s[0] % 128 == low;
    SmallMod(low * weight);
    if v < 128 {
      assert low == v;
    } else {
      assert s[1..] == Varint(high) + rest;
      ReadsBack(high, weight * 128, rest);
    }
  }

  lemma SmallMod(x: nat)
    requires x < TWO_64
    ensures x % TWO_64 == x
  {}

  lemma Grows(v: nat, weight: nat)
    requires v > 0
    ensures weight <= v * weight
  {}

  lemma Split(v: nat, low: nat, high: nat, weight: nat)
    requires v == low + 128 * high
    ensures v * weight == low * weight + high * (weight * 128)
    ensures 0 <= low * weight && 0 <= high * (weight * 128)
  {}

  /** 1 << 7k, and how often it goes into 2^64, for each of the ten bytes a varint may have. */
  function Weight(k: nat): nat
    requires k <= 9
  {
    if k == 0 then 1 else 128 * Weight(k - 1)
  }

  function Quotient(k: nat): nat
    requires k <= 9
    decreases 9 - k
  {
    if k == 9 then 2 else 128 * Quotient(k + 1)
  }

  lemma {:induction false} WeightTimesQuotient(k: nat)
    requires k <= 9
    ensures Weight(k) * Quotient(k) == TWO_64
    decreases 9 - k
  {
    if k == 9 {
      assert Weight(3) == 128 * Weight(2) == 128 * 128 * Weight(1) == 0x20_0000;
      assert Weight(6) == 128 * Weight(5) == 128 * 128 * Weight(4) == 128 * 128 * 128 * Weight(3);
      assert Weight(9) == 128 * Weight(8) == 128 * 128 * Weight(7) == 128 * 128 * 128 * Weight(6);
    } else {
      WeightTimesQuotient(k + 1);
      assert Weight(k) * (128 * Quotient(k + 1)) == 128 * Weight(k) * Quotient(k + 1);
    }
  }

  /** What is read from the byte of index `k` on is a multiple of that byte's weight below 2^64. */
  lemma {:induction false} ReadsMultiple(s: seq<Byte>, k: nat) returns (m: nat)
    requires k <= 9 && ReadVarint(s, Weight(k)).Ok?
    ensures m < Quotient(k) && ReadVarint(s, Weight(k)).value.0 == m * Weight(k)
    decreases |s|
  {
    var w, q, d := Weight(k), Quotient(k), s[0] % 128;
    WeightTimesQuotient(k);
    if k == 9 {
      DropsHighBits(d, w);
      m := d % 2;
      assert w * 128 >= TWO_64;
    } else {
      Below(d, q, w);
      m := d;
      if s[0] >= 128 {
        assert w * 128 == Weight(k + 1);
        var rest := ReadsMultiple(s[1..], k + 1);
        m := d + 128 * rest;
        assert w * 128 == 128 * w;
        Split(m, d, rest, w);
      }
    }
  }

  lemma Below(m: nat, q: nat, w: nat)
    requires m < q && w * q == TWO_64
    ensures (m * w) % TWO_64 == m * w
  {
    assert w > 0;
    assert (q - m) * w > 0;
    SmallMod(m * w);
  }

  lemma DropsHighBits(d: nat, w: nat)
    requires 2 * w == TWO_64
    ensures (d * w) % TWO_64 == d % 2 * w
  {
    assert d * w == (d / 2 * 2 + d % 2) * w == d / 2 * TWO_64 + d % 2 * w;
  }

  lemma ReadVarintFits(s: seq<Byte>)
    requires ReadVarint(s, 1).Ok?
    ensures ReadVarint(s, 1).value.0 < TWO_64
  {
    var m := ReadsMultiple(s, 0);
    WeightTimesQuotient(0);
  }

  lemma {:induction false} ReadVarintExtends(s: seq<Byte>, weight: nat, rest: seq<Byte>)
    requires ReadVarint(s, weight).Ok?
    ensures ReadVarint(s + rest, weight) == ReadVarint(s, weight)
    decreases |s|
  {
    assert (s + rest)[0] == s[0];
    if s[0] >= 128 {
      assert (s + rest)[1..] == s[1..] + rest;
      ReadVarintExtends(s[1..], weight * 128, rest);
    }
  }

  lemma {:induction false} ReadsWithin(s: seq<Byte>, k: nat)
    requires k <= 9
    ensures var r := ReadVarint(s, Weight(k));
            && (r.Ok? <==> exists i :: 0 <= i < |s| && i < 10 - k && s[i] < 128)
            && (r.Ok? ==> r.value.1 <= 10 - k && s[r.value.1 - 1] < 128
                          && forall i :: 0 <= i < r.value.1 - 1 ==> s[i] >= 128)
            && (r.Err? ==> r.error == if |s| < 10 - k then UnexpectedEOF else IntOverflow)
    decreases |s|
  {
    WeightTimesQuotient(k);
    assert Weight(k) < TWO_64;
    if s != [] && s[0] >= 128 {
      var rest := s[1..];
      assert Weight(k) * 128 == 128 * Weight(k);
      if k == 9 {
        assert ReadVarint(rest, Weight(9) * 128) == Err(IntOverflow);
      } else {
        ReadsWithin(rest, k + 1);
        assert forall i :: 0 <= i < |rest| ==> rest[i] == s[i + 1];
      }
    }
  }

  lemma {:induction false} ReadsGroups(s: seq<Byte>, k: nat) returns (over: nat)
    requires k <= 9 && ReadVarint(s, Weight(k)).Ok?
    ensures var (v, n) := ReadVarint(s, Weight(k)).value; Groups(s[..n]) * Weight(k) == v + over * TWO_64
    decreases |s|
  {
    var w, d := Weight(k), s[0] % 128;
    var (v, n) := ReadVarint(s, w).value;
    var x := d * w;
    assert x == x % TWO_64 + x / TWO_64 * TWO_64;
    assert s[..n][0] == s[0] && s[..n][1..] == s[1..n];
    if s[0] < 128 {
      over := x / TWO_64;
      assert Groups(s[1..n]) == 0;
    } else {
      ReadsWithin(s, k);
      assert w * 128 == 128 * w;
      WeightTimesQuotient(9);
      var more := ReadsGroups(s[1..], k + 1);
      over := x / TWO_64 + more;
      assert s[1..][..n - 1] == s[1..n];
      Split(Groups(s[..n]), d, Groups(s[1..n]), w);
      assert over * TWO_64 == x / TWO_64 * TWO_64 + more * TWO_64;
    }
  }

  /** A varint reads if and only if one of its first ten bytes is its last; its value is that of its groups,
      cut to 64 bits. Otherwise it ends too early or is too long. */
  lemma VarintReadsIff(s: seq<Byte>)
    ensures var r := ReadVarint(s, 1);
            && (r.Ok? <==> exists i :: 0 <= i < |s| && i < 10 && s[i] < 128)
            && (r.Ok? ==> var (v, n) := r.value;
                          && n <= 10 && s[n - 1] < 128 && (forall i :: 0 <= i < n - 1 ==> s[i] >= 128)
                          && v == Groups(s[..n]) % TWO_64)
            && (r.Err? ==> r.error == if |s| < 10 then UnexpectedEOF else IntOverflow)
  {
    assert Weight(0) == 1;
    ReadsWithin(s, 0);
    if ReadVarint(s, 1).Ok? {
      var over := ReadsGroups(s, 0);
      ReadVarintFits(s);
      var (v, n) := ReadVarint(s, 1).value;
      Remainder(Groups(s[..n]), v, over);
    }
  }

  lemma Remainder(x: nat, v: nat, over: nat)
    requires x == v + over * TWO_64 && v < TWO_64
    ensures x % TWO_64 == v
  {}

  method DecodeVarint(data: seq<Byte>, start: nat) returns (r: Result<(nat, nat), Error>)
    requires start <= |data|
    ensures r == match ReadVarint(data[start..], 1)
                 case Ok((v, n)) => Ok((v, start + n))
                 case Err(e) => Err(e)
  {
    var value, weight, i := 0, 1, start;
    ghost var whole := ReadVarint(data[start..], 1);
    while true
      invariant start <= i <= |data| && weight >= 1
      invariant match ReadVarint(data[i..], weight)
                case Ok((v, n)) => whole == Ok((value + v, i - start + n))
                case Err(e) => whole == Err(e)
      decreases |data| - i
    {
      if weight >= TWO_64 {
        return Err(IntOverflow);
      }
      if i >= |data| {
        return Err(UnexpectedEOF);
      }
      var b := data[i];
      assert data[i..][1..] == data[i + 1..];
      i := i + 1;
      value := value + (b % 128 * weight) % TWO_64;
      if b < 128 {
        return Ok((value, i));
      }
      weight := weight * 128;
    }
  }

  /** Writes `v` so that it ends just before `offset`; returns where it starts. */
  method EncodeVarint(buf: array<Byte>, offset: nat, v: nat) returns (base: nat)
    requires |Varint(v)| <= offset <= buf.Length
    modifies buf
    ensures base == offset - |Varint(v)|
    ensures buf[..] == old(buf[..base]) + Varint(v) + old(buf[offset..])
  {
    SovIsLength(v);
    base := offset - Sov(v);
    var i, w := base, v;
    while w >= 128
      invariant base <= i < offset && i + |Varint(w)| == offset
      invariant buf[..i] + Varint(w) == old(buf[..base]) + Varint(v)
      invariant buf[offset..] == old(buf[offset..])
    {
      ghost var before := buf[..i];
      buf[i] := w % 128 + 128;
      assert buf[..i + 1] == before + [w % 128 + 128];
      assert before + Varint(w) == buf[..i + 1] + Varint(w / 128);
      w := w / 128;
      i := i + 1;
    }
    ghost var before := buf[..i];
    buf[i] := w;
    assert buf[..i + 1] == before + Varint(w);
    assert buf[..] == buf[..offset] + buf[offset..];
  }

  // ---- skipping ----

  /** Reads fields from `s`, which starts at index `at`, until none is open; returns the index after
      the last one, which may lie past the end. `open` counts the groups that are open. */
  function SkipFrom(s: seq<Byte>, at: nat, open: nat): (r: Result<nat, Error>)
    ensures r.Ok? ==> at < r.value < TWO_63
    decreases |s|
  {
    if s == [] then Err(UnexpectedEOF)
    else
      match SkipOne(s, at, open)
      case Err(e) => Err(e)
      case Ok((n, depth)) =>
        if depth == 0 then Ok(at + n)
        else if n > |s| then Err(UnexpectedEOF)
        else SkipFrom(s[n..], at + n, depth)
  }

  datatype WireType = VarintField | Fixed64 | LengthDelimited | StartGroup | CloseGroup | Fixed32 | Undefined

  function TypeOf(wire: nat): WireType {
    match wire % 8
    case 0 => VarintField
    case 1 => Fixed64
    case 2 => LengthDelimited
    case 3 => StartGroup
    case 4 => CloseGroup
    case 5 => Fixed32
    case _ => Undefined
  }

  /** What follows a tag of wire type `t`: how many bytes belong to it. */
  function BodyLength(t: WireType, s: seq<Byte>): Result<nat, Error> {
    match t
    case VarintField => (match ReadVarint(s, 1) case Ok((_, m)) => Ok(m) case Err(e) => Err(e))
    case Fixed64 => Ok(8)
    case LengthDelimited =>
      (match ReadVarint(s, 1)
       case Ok((len, m)) => if len >= TWO_63 then Err(InvalidLength) else Ok(m + len)
       case Err(e) => Err(e))
    case StartGroup => Ok(0)
    case CloseGroup => Ok(0)
    case Fixed32 => Ok(4)
    case Undefined => Err(IllegalWireType)
  }

  /** One tag and what it announces: the bytes passed over and the groups open afterwards. */
  function SkipOne(s: seq<Byte>, at: nat, open: nat): (r: Result<(nat, nat), Error>)
    ensures r.Ok? ==> 1 <= r.value.0 && at + r.value.0 < TWO_63
  {
    match ReadVarint(s, 1)
    case Err(e) => Err(e)
    case Ok((wire, n)) =>
      var t := TypeOf(wire);
      if t == CloseGroup && open == 0 then Err(UnexpectedEndOfGroup)
      else
        match BodyLength(t, s[n..])
        case Err(e) => Err(e)
        case Ok(m) =>
          if at + n + m >= TWO_63 then Err(InvalidLength)
          else Ok((n + m, if t == StartGroup then open + 1 else if t == CloseGroup then open - 1 else open))
  }

  lemma BodyExtends(t: WireType, s: seq<Byte>, rest: seq<Byte>)
    requires BodyLength(t, s).Ok?
    ensures BodyLength(t, s + rest) == BodyLength(t, s)
  {
    if t == VarintField || t == LengthDelimited {
      ReadVarintExtends(s, 1, rest);
    }
  }

  lemma SkipOneExtends(s: seq<Byte>, at: nat, open: nat, rest: seq<Byte>)
    requires SkipOne(s, at, open).Ok?
    ensures SkipOne(s + rest, at, open) == SkipOne(s, at, open)
  {
    ReadVarintExtends(s, 1, rest);
    var (wire, n) := ReadVarint(s, 1).value;
    assert (s + rest)[n..] == s[n..] + rest;
    BodyExtends(TypeOf(wire), s[n..], rest);
  }

  /** A skip that stays inside its input does not look at what follows. */
  lemma {:induction false} SkipExtends(s: seq<Byte>, at: nat, open: nat, rest: seq<Byte>)
    requires SkipFrom(s, at, open).Ok? && SkipFrom(s, at, open).value <= at + |s|
    ensures SkipFrom(s + rest, at, open) == SkipFrom(s, at, open)
    decreases |s|
  {
    hide SkipOne;
    SkipOneExtends(s, at, open, rest);
    var (n, depth) := SkipOne(s, at, open).value;
    if depth > 0 {
      assert (s + rest)[n..] == s[n..] + rest;
      SkipExtends(s[n..], at + n, depth, rest);
    }
  }

  lemma SkipOneMoves(s: seq<Byte>, at: nat, to: nat, open: nat)
    requires SkipOne(s, at, open).Ok? && SkipOne(s, at, open).value.0 <= |s| && to + |s| < TWO_63
    ensures SkipOne(s, to, open) == SkipOne(s, at, open)
  {}

  /** Where a skip starts counting makes no difference, as long as indices fit. */
  lemma {:induction false} SkipMoves(s: seq<Byte>, at: nat, to: nat, open: nat)
    requires SkipFrom(s, at, open).Ok? && SkipFrom(s, at, open).value <= at + |s|
    requires to + |s| < TWO_63
    ensures SkipFrom(s, to, open) == Ok(SkipFrom(s, at, open).value - at + to)
    decreases |s|
  {
    hide SkipOne;
    SkipOneMoves(s, at, to, open);
    var (n, depth) := SkipOne(s, at, open).value;
    if depth > 0 {
      SkipMoves(s[n..], at + n, to + n, depth);
    }
  }

  /** One turn of the skipping loop: the index and the group depth after the field at `i`. */
  method SkipField(data: seq<Byte>, i: nat, open: nat) returns (r: Result<(nat, nat), Error>)
    requires i <= |data|
    ensures r == match SkipOne(data[i..], i, open)
                 case Ok((n, depth)) => Ok((i + n, depth))
                 case Err(e) => Err(e)
  {
    var tag := DecodeVarint(data, i);
    if tag.Err? {
      return Err(tag.error);
    }
    var wire, end, depth := tag.value.0, tag.value.1, open;
    assert data[i..][end - i..] == data[end..];
    if wire % 8 == 0 {
      var v := DecodeVarint(data, end);
      if v.Err? {
        return Err(v.error);
      }
      end := v.value.1;
    } else if wire % 8 == 1 {
      end := end + 8;
    } else if wire % 8 == 2 {
      var len := DecodeVarint(data, end);
      if len.Err? {
        return Err(len.error);
      }
      if len.value.0 >= TWO_63 {
        return Err(InvalidLength);
      }
      end := len.value.1 + len.value.0;
    } else if wire % 8 == 3 {
      depth := depth + 1;
    } else if wire % 8 == 4 {
      if depth == 0 {
        return Err(UnexpectedEndOfGroup);
      }
      depth := depth - 1;
    } else if wire % 8 == 5 {
      end := end + 4;
    } else {
      return Err(IllegalWireType);
    }
    if end >= TWO_63 {
      return Err(InvalidLength);
    }
    return Ok((end, depth));
  }

  /** Halts on every byte string. */
  method Skip(data: seq<Byte>) returns (r: Result<nat, Error>)
    ensures r == SkipFrom(data, 0, 0)
  {
    hide SkipOne;
    var i, depth := 0, 0;
    while i < |data|
      invariant 0 <= i
      invariant i <= |data| ==> SkipFrom(data, 0, 0) == SkipFrom(data[i..], i, depth)
      invariant i > |data| ==> SkipFrom(data, 0, 0) == Err(UnexpectedEOF)
      decreases |data| - i
    {
      var next := SkipField(data, i, depth);
      if next.Err? {
        return Err(next.error);
      }
      assert next.value.0 <= |data| ==> data[i..][next.value.0 - i..] == data[next.value.0..];
      i, depth := next.value.0, next.value.1;
      if depth == 0 {
        return Ok(i);
      }
    }
    return Err(UnexpectedEOF);
  }
}
