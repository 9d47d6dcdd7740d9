/** What the generated marshalling code for a message means, given the kinds of its fields in order of
    their numbers. The generator emits the same template for every message; this is that template. */
module Schema {
  import opened Wrappers
  import opened Wire

  /** The custom types of the fields, whose own encodings are opaque here. */
  datatype Codec = IntegerCodec | DecimalCodec

  /** Which bytes the decoder of a custom type accepts. */
  type Decoders = (Codec, seq<Byte>) -> bool

  datatype Kind = BoolKind | Uint64Kind | StringKind | PayloadKind(codec: Codec) | MessageKind(fields: seq<Kind>)

  datatype Value = Bool(b: bool) | Uint(u: nat) | Bytes(bytes: seq<Byte>) | Message(fields: seq<Value>)

  // ---- encoding ----

  function Tag(num: nat, t: nat): seq<Byte> {
    Varint(8 * num + t)
  }

  function Delimited(num: nat, bytes: seq<Byte>): seq<Byte> {
    Tag(num, 2) + Varint(|bytes|) + bytes
  }

  ghost predicate Typed(k: Kind, v: Value)
    decreases k
  {
    match k
    case BoolKind => v.Bool?
    case Uint64Kind => v.Uint? && v.u < TWO_64
    case StringKind => v.Bytes?
    case PayloadKind(_) => v.Bytes?
    case MessageKind(fields) => v.Message? && AllTyped(fields, v.fields)
  }

  ghost predicate AllTyped(ks: seq<Kind>, vs: seq<Value>)
    decreases ks
  {
    |ks| == |vs| && forall i :: 0 <= i < |ks| ==> Typed(ks[i], vs[i])
  }

  /** The zero value a message is decoded into. */
  function Zero(k: Kind): Value
    decreases k
  {
    match k
    case BoolKind => Bool(false)
    case Uint64Kind => Uint(0)
    case StringKind => Bytes([])
    case PayloadKind(_) => Bytes([])
    case MessageKind(fields) => Message(Zeros(fields))
  }

  function Zeros(ks: seq<Kind>): (r: seq<Value>)
    ensures |r| == |ks| && forall i :: 0 <= i < |ks| ==> r[i] == Zero(ks[i])
    decreases ks
  {
    if ks == [] then [] else [Zero(ks[0])] + Zeros(ks[1..])
  }

  function EncodeField(num: nat, k: Kind, v: Value): seq<Byte>
    requires Typed(k, v)
    decreases k
  {
    match k
    case BoolKind => if v.b then Tag(num, 0) + [1] else []
    case Uint64Kind => if v.u != 0 then Tag(num, 0) + Varint(v.u) else []
    case StringKind => if v.bytes != [] then Delimited(num, v.bytes) else []
    case PayloadKind(_) => Delimited(num, v.bytes)
    case MessageKind(fields) => Delimited(num, Encode(fields, v.fields, 1))
  }

  /** Fields numbered from `num` on. */
  function Encode(ks: seq<Kind>, vs: seq<Value>, num: nat): seq<Byte>
    requires AllTyped(ks, vs)
    decreases ks
  {
    if ks == [] then [] else EncodeField(num, ks[0], vs[0]) + Encode(ks[1..], vs[1..], num + 1)
  }

  /** What has been written once the fields from index `k` on are. */
  function EncodeFrom(ks: seq<Kind>, vs: seq<Value>, k: nat): seq<Byte>
    requires AllTyped(ks, vs) && k <= |ks|
  {
    Encode(ks[k..], vs[k..], k + 1)
  }

  lemma EncodeFromUnfold(ks: seq<Kind>, vs: seq<Value>, k: nat)
    requires AllTyped(ks, vs) && k <= |ks|
    ensures k < |ks| ==> EncodeFrom(ks, vs, k) == EncodeField(k + 1, ks[k], vs[k]) + EncodeFrom(ks, vs, k + 1)
    ensures k == |ks| ==> EncodeFrom(ks, vs, k) == []
    ensures k == 0 ==> EncodeFrom(ks, vs, k) == Encode(ks, vs, 1)
  {
    if k < |ks| {
      assert ks[k..][1..] == ks[k + 1..] && vs[k..][1..] == vs[k + 1..];
    }
    assert ks[0..] == ks && vs[0..] == vs;
  }

  // ---- decoding ----

  /** int32 of an unsigned number: the low 32 bits, read as a signed value. */
  function Int32(x: nat): int {
    if x % TWO_32 >= TWO_31 then x % TWO_32 - TWO_32 else x % TWO_32
  }

  /** A length and that many bytes, from `s` which starts at index `pos`; also how far they reach. */
  function ReadBytes(s: seq<Byte>, pos: nat): (r: Result<(seq<Byte>, nat), Error>)
    ensures r.Ok? ==> 1 <= r.value.1 <= |s| && |r.value.0| < |s|
  {
    match ReadVarint(s, 1)
    case Err(e) => Err(e)
    case Ok((len, n)) =>
      if len >= TWO_63 || pos + n + len >= TWO_63 then Err(InvalidLength)
      else if n + len > |s| then Err(UnexpectedEOF)
      else Ok((s[n..n + len], n + len))
  }

  function WireTypeFor(k: Kind): WireType {
    if k.BoolKind? || k.Uint64Kind? then VarintField else LengthDelimited
  }

  /** What a delimited field becomes, given its bytes. */
  function FromBytes(k: Kind, prior: Value, bytes: seq<Byte>, accepts: Decoders): (r: Result<Value, Error>)
    requires Typed(k, prior) && WireTypeFor(k) == LengthDelimited
    ensures r.Ok? ==> Typed(k, r.value)
    decreases |bytes|, 3
  {
    if k.MessageKind? then
      match Decode(k.fields, prior.fields, bytes, 0, accepts)
      case Err(e) => Err(e)
      case Ok(fields) => Ok(Message(fields))
    else if k.PayloadKind? && !accepts(k.codec, bytes) then Err(BadPayload)
    else Ok(Bytes(bytes))
  }

  /** The body of a known field: its new value and the bytes it took. */
  function ReadField(k: Kind, prior: Value, s: seq<Byte>, pos: nat, accepts: Decoders)
    : (r: Result<(Value, nat), Error>)
    requires Typed(k, prior)
    ensures r.Ok? ==> 1 <= r.value.1 <= |s| && Typed(k, r.value.0)
    decreases |s|, 0
  {
    if WireTypeFor(k) == VarintField then
      match ReadVarint(s, 1)
      case Err(e) => Err(e)
      case Ok((v, n)) =>
        ReadVarintFits(s);
        Ok((if k.BoolKind? then Bool(v != 0) else Uint(v), n))
    else
      match ReadBytes(s, pos)
      case Err(e) => Err(e)
      case Ok((bytes, n)) =>
        match FromBytes(k, prior, bytes, accepts)
        case Err(e) => Err(e)
        case Ok(v) => Ok((v, n))
  }

  /** One field, known or not: the values afterwards and the bytes it took. */
  function Step(ks: seq<Kind>, cur: seq<Value>, s: seq<Byte>, pos: nat, accepts: Decoders)
    : (r: Result<(seq<Value>, nat), Error>)
    requires AllTyped(ks, cur)
    ensures r.Ok? ==> 1 <= r.value.1 <= |s| && AllTyped(ks, r.value.0)
    decreases |s|, 1
  {
    match ReadVarint(s, 1)
    case Err(e) => Err(e)
    case Ok((wire, n)) =>
      var num, t := Int32(wire / 8), TypeOf(wire);
      if t == CloseGroup then Err(EndGroup)
      else if num <= 0 then Err(IllegalTag)
      else if num <= |ks| then
        if t != WireTypeFor(ks[num - 1]) then Err(WrongWireType)
        else
          match ReadField(ks[num - 1], cur[num - 1], s[n..], pos + n, accepts)
          case Err(e) => Err(e)
          case Ok((v, m)) => Ok((cur[num - 1 := v], n + m))
      else
        match SkipFrom(s, 0, 0)
        case Err(e) => Err(e)
        case Ok(m) =>
          if pos + m >= TWO_63 then Err(InvalidLength)
          else if m > |s| then Err(UnexpectedEOF)
          else Ok((cur, m))
  }

  /** All of `s`, merged into the values `cur`. */
  function Decode(ks: seq<Kind>, cur: seq<Value>, s: seq<Byte>, pos: nat, accepts: Decoders)
    : (r: Result<seq<Value>, Error>)
    requires AllTyped(ks, cur)
    ensures r.Ok? ==> AllTyped(ks, r.value)
    decreases |s|, 2
  {
    if s == [] then Ok(cur)
    else
      match Step(ks, cur, s, pos, accepts)
      case Err(e) => Err(e)
      case Ok((next, n)) => Decode(ks, next, s[n..], pos + n, accepts)
  }
}
