/** Properties of the codec template, for every message schema: what is written is read back, inputs
    may be concatenated, and fields the schema does not know are passed over. */
module RoundTrip {
  import opened Wrappers
  import opened Wire
  import opened Schema

  /** Field numbers fit the tag arithmetic, at every level. */
  ghost predicate Numbered(ks: seq<Kind>)
    decreases ks
  {
    |ks| < 0x1000_0000 && forall i :: 0 <= i < |ks| && ks[i].MessageKind? ==> Numbered(ks[i].fields)
  }

  /** Every payload is one its own decoder takes. */
  ghost predicate Accepted(ks: seq<Kind>, vs: seq<Value>, accepts: Decoders)
    requires AllTyped(ks, vs)
    decreases ks
  {
    forall i :: 0 <= i < |ks| ==> FieldAccepted(ks[i], vs[i], accepts)
  }

  ghost predicate FieldAccepted(k: Kind, v: Value, accepts: Decoders)
    requires Typed(k, v)
    decreases k
  {
    && (k.PayloadKind? ==> accepts(k.codec, v.bytes))
    && (k.MessageKind? ==> Accepted(k.fields, v.fields, accepts))
  }

  // ---- writing and reading back ----

  lemma TagBack(num: nat, t: nat, rest: seq<Byte>)
    requires 1 <= num < 0x1000_0000 && t < 8
    ensures ReadVarint(Tag(num, t) + rest, 1) == Ok((8 * num + t, |Tag(num, t)|))
    ensures (8 * num + t) / 8 == num == Int32(num) && (8 * num + t) % 8 == t
  {
    ReadsBack(8 * num + t, 1, rest);
  }

  lemma BytesBack(bytes: seq<Byte>, rest: seq<Byte>, pos: nat)
    requires pos + |Varint(|bytes|)| + |bytes| < TWO_63
    ensures ReadBytes(Varint(|bytes|) + bytes + rest, pos) == Ok((bytes, |Varint(|bytes|)| + |bytes|))
  {
    var s, n := Varint(|bytes|) + bytes + rest, |Varint(|bytes|)|;
    ReadsBack(|bytes|, 1, bytes + rest);
    assert s == Varint(|bytes|) + (bytes + rest);
    assert s[n..n + |bytes|] == bytes;
  }

  /** The body of a delimited field, as the decoder meets it. */
  lemma DelimitedBack(num: nat, bytes: seq<Byte>, rest: seq<Byte>, pos: nat)
    requires 1 <= num < 0x1000_0000 && pos + |Delimited(num, bytes)| < TWO_63
    ensures var s, n := Delimited(num, bytes) + rest, |Tag(num, 2)|;
            && ReadVarint(s, 1) == Ok((8 * num + 2, n))
            && ReadBytes(s[n..], pos + n) == Ok((bytes, |Delimited(num, bytes)| - n))
            && s[|Delimited(num, bytes)|..] == rest
  {
    var s, n := Delimited(num, bytes) + rest, |Tag(num, 2)|;
    TagBack(num, 2, Varint(|bytes|) + bytes + rest);
    assert s == Tag(num, 2) + (Varint(|bytes|) + bytes + rest);
    assert s[n..] == Varint(|bytes|) + bytes + rest;
    BytesBack(bytes, rest, pos + n);
  }

  lemma ScalarBack(num: nat, v: nat, rest: seq<Byte>)
    requires 1 <= num < 0x1000_0000 && v < TWO_64
    ensures var s, n := Tag(num, 0) + Varint(v) + rest, |Tag(num, 0)|;
            && ReadVarint(s, 1) == Ok((8 * num, n))
            && ReadVarint(s[n..], 1) == Ok((v, |Varint(v)|))
            && s[n + |Varint(v)|..] == rest
  {
    var s, n := Tag(num, 0) + Varint(v) + rest, |Tag(num, 0)|;
    TagBack(num, 0, Varint(v) + rest);
    assert s == Tag(num, 0) + (Varint(v) + rest);
    assert s[n..] == Varint(v) + rest;
    ReadsBack(v, 1, rest);
  }

  /** How the decoder takes a known scalar or delimited field, whatever follows it. */
  lemma StepScalar(ks: seq<Kind>, cur: seq<Value>, k: nat, v: nat, rest: seq<Byte>, pos: nat, accepts: Decoders)
    requires AllTyped(ks, cur) && k < |ks| < 0x1000_0000 && WireTypeFor(ks[k]) == VarintField && v < TWO_64
    ensures var e := Tag(k + 1, 0) + Varint(v);
            && Step(ks, cur, e + rest, pos, accepts)
               == Ok((cur[k := if ks[k].BoolKind? then Bool(v != 0) else Uint(v)], |e|))
            && (e + rest)[|e|..] == rest
  {
    hide FromBytes;
    hide ReadVarint;
    hide Varint;
    hide SkipFrom;
    ScalarBack(k + 1, v, rest);
    TagBack(k + 1, 0, []);
  }

  lemma StepDelimited(ks: seq<Kind>, cur: seq<Value>, k: nat, bytes: seq<Byte>, rest: seq<Byte>, pos: nat,
                      accepts: Decoders)
    requires AllTyped(ks, cur) && k < |ks| < 0x1000_0000 && WireTypeFor(ks[k]) == LengthDelimited
    requires pos + |Delimited(k + 1, bytes)| < TWO_63
    requires FromBytes(ks[k], cur[k], bytes, accepts).Ok?
    ensures var e := Delimited(k + 1, bytes);
            && Step(ks, cur, e + rest, pos, accepts)
               == Ok((cur[k := FromBytes(ks[k], cur[k], bytes, accepts).value], |e|))
            && (e + rest)[|e|..] == rest
  {
    hide FromBytes;
    hide ReadBytes;
    hide Varint;
    hide ReadVarint;
    hide SkipFrom;
    DelimitedBack(k + 1, bytes, rest, pos);
    TagBack(k + 1, 2, []);
  }

  /** A field that is written is read back by one step of the decoder, whatever follows it. */
  lemma {:induction false} FieldBack(ks: seq<Kind>, vs: seq<Value>, cur: seq<Value>, k: nat, rest: seq<Byte>, pos: nat,
                  accepts: Decoders)
    requires AllTyped(ks, vs) && AllTyped(ks, cur) && Numbered(ks) && Accepted(ks, vs, accepts)
    requires k < |ks| && cur[k] == Zero(ks[k])
    requires EncodeField(k + 1, ks[k], vs[k]) != []
    requires pos + |EncodeField(k + 1, ks[k], vs[k])| < TWO_63
    ensures var e := EncodeField(k + 1, ks[k], vs[k]);
            && Step(ks, cur, e + rest, pos, accepts) == Ok((cur[k := vs[k]], |e|))
            && (e + rest)[|e|..] == rest
    decreases ks, 0, 0
  {
    hide Step;
    hide Delimited;
    assert FieldAccepted(ks[k], vs[k], accepts);
    match ks[k] {
      case BoolKind =>
        StepScalar(ks, cur, k, 1, rest, pos, accepts);
        assert Varint(1) == [1];
      case Uint64Kind =>
        StepScalar(ks, cur, k, vs[k].u, rest, pos, accepts);
      case StringKind =>
        StepDelimited(ks, cur, k, vs[k].bytes, rest, pos, accepts);
      case PayloadKind(_) =>
        StepDelimited(ks, cur, k, vs[k].bytes, rest, pos, accepts);
      case MessageKind(fields) =>
        var values := vs[k].fields;
        var inner := Encode(fields, values, 1);
        InnerIsShorter(k + 1, inner);
        EncodeFromUnfold(fields, values, 0);
        PartialEnds(fields, values);
        DecodesEncoded(fields, values, 0, 0, accepts);
        assert FromBytes(ks[k], cur[k], inner, accepts) == Ok(vs[k]);
        StepDelimited(ks, cur, k, inner, rest, pos, accepts);
    }
  }

  lemma InnerIsShorter(num: nat, bytes: seq<Byte>)
    ensures |bytes| < |Delimited(num, bytes)|
  {}

  lemma ZeroIsOmitted(num: nat, k: Kind, v: Value)
    requires Typed(k, v) && EncodeField(num, k, v) == []
    ensures v == Zero(k)
  {}

  /** The message while it is being read: fields before `k` are there, the others still zero. */
  ghost function Partial(ks: seq<Kind>, vs: seq<Value>, k: nat): seq<Value>
    requires |ks| == |vs| && k <= |ks|
  {
    vs[..k] + Zeros(ks)[k..]
  }

  lemma PartialNext(ks: seq<Kind>, vs: seq<Value>, k: nat)
    requires |ks| == |vs| && k < |ks|
    ensures Partial(ks, vs, k)[k] == Zero(ks[k])
    ensures Partial(ks, vs, k)[k := vs[k]] == Partial(ks, vs, k + 1)
  {
    hide Zero;
  }

  lemma PartialEnds(ks: seq<Kind>, vs: seq<Value>)
    requires |ks| == |vs|
    ensures Partial(ks, vs, 0) == Zeros(ks) && Partial(ks, vs, |ks|) == vs
  {}

  lemma PartialTyped(ks: seq<Kind>, vs: seq<Value>, k: nat)
    requires AllTyped(ks, vs) && k <= |ks|
    ensures AllTyped(ks, Partial(ks, vs, k))
  {
    hide Typed;
    ZerosTyped(ks);
    forall i | 0 <= i < |ks|
      ensures Typed(ks[i], Partial(ks, vs, k)[i])
    {
      assert Typed(ks[i], vs[i]) && Typed(ks[i], Zeros(ks)[i]);
    }
  }

  lemma {:induction false} DecodesEncoded(ks: seq<Kind>, vs: seq<Value>, k: nat, pos: nat, accepts: Decoders)
    requires AllTyped(ks, vs) && Numbered(ks) && Accepted(ks, vs, accepts) && k <= |ks|
    requires pos + |EncodeFrom(ks, vs, k)| < TWO_63
    ensures AllTyped(ks, Partial(ks, vs, k))
    ensures Decode(ks, Partial(ks, vs, k), EncodeFrom(ks, vs, k), pos, accepts) == Ok(vs)
    decreases ks, 1, |ks| - k
  {
    hide Step;
    hide EncodeField;
    hide EncodeFrom;
    hide Partial;
    hide Typed;
    PartialTyped(ks, vs, k);
    PartialEnds(ks, vs);
    EncodeFromUnfold(ks, vs, k);
    if k < |ks| {
      var cur, e, rest := Partial(ks, vs, k), EncodeField(k + 1, ks[k], vs[k]), EncodeFrom(ks, vs, k + 1);
      PartialNext(ks, vs, k);
      if e == [] {
        ZeroIsOmitted(k + 1, ks[k], vs[k]);
        assert cur[k := vs[k]] == cur && e + rest == rest;
      } else {
        FieldBack(ks, vs, cur, k, rest, pos, accepts);
      }
      DecodesEncoded(ks, vs, k + 1, pos + |e|, accepts);
    }
  }

  lemma {:induction false} ZerosTyped(ks: seq<Kind>)
    ensures AllTyped(ks, Zeros(ks))
    decreases ks
  {
    forall i | 0 <= i < |ks|
      ensures Typed(ks[i], Zero(ks[i]))
    {
      if ks[i].MessageKind? {
        ZerosTyped(ks[i].fields);
      }
    }
  }

  /** Unmarshalling what was marshalled gives the message back, for every schema and every message
      whose encoding a slice can hold. */
  lemma UnmarshalMarshal(ks: seq<Kind>, vs: seq<Value>, accepts: Decoders)
    requires AllTyped(ks, vs) && Numbered(ks) && Accepted(ks, vs, accepts) && |Encode(ks, vs, 1)| < TWO_63
    ensures AllTyped(ks, Zeros(ks))
    ensures Decode(ks, Zeros(ks), Encode(ks, vs, 1), 0, accepts) == Ok(vs)
  {
    EncodeFromUnfold(ks, vs, 0);
    PartialEnds(ks, vs);
    DecodesEncoded(ks, vs, 0, 0, accepts);
  }

  /** What is refused, and why: a group that was not opened, field 0, a known field of another wire type, a
      payload its own decoder does not take, and the two wire types that do not exist. */
  lemma Refuses(ks: seq<Kind>, cur: seq<Value>, num: nat, t: nat, rest: seq<Byte>, pos: nat, accepts: Decoders)
    requires AllTyped(ks, cur) && |ks| < 0x1000_0000 && num < 0x1000_0000 && t < 8
    ensures var r := Decode(ks, cur, Tag(num, t) + rest, pos, accepts);
            && (t == 4 ==> r == Err(EndGroup))
            && (t != 4 && num == 0 ==> r == Err(IllegalTag))
            && (t != 4 && 1 <= num <= |ks| && t != (if ks[num - 1].BoolKind? || ks[num - 1].Uint64Kind? then 0
                else 2) ==>
                  r == Err(WrongWireType))
            && (t >= 6 && num > |ks| ==> r == Err(IllegalWireType))
  {
    hide ReadField;
    hide ReadVarint;
    hide Varint;
    var s := Tag(num, t) + rest;
    ReadsBack(8 * num + t, 1, rest);
    assert ReadVarint(s, 1) == Ok((8 * num + t, |Tag(num, t)|));
    assert (8 * num + t) / 8 == num == Int32(num) && (8 * num + t) % 8 == t;
    hide Tag;
    if t >= 6 {
      assert SkipOne(s, 0, 0) == Err(IllegalWireType);
      assert SkipFrom(s, 0, 0) == Err(IllegalWireType);
    }
  }

  lemma RefusesPayload(ks: seq<Kind>, cur: seq<Value>, num: nat, bytes: seq<Byte>, rest: seq<Byte>, pos: nat,
                       accepts: Decoders)
    requires AllTyped(ks, cur) && 1 <= num <= |ks| < 0x1000_0000 && ks[num - 1].PayloadKind?
    requires !accepts(ks[num - 1].codec, bytes) && pos + |Delimited(num, bytes)| < TWO_63
    ensures Decode(ks, cur, Delimited(num, bytes) + rest, pos, accepts) == Err(BadPayload)
  {
    hide ReadBytes;
    hide Varint;
    hide ReadVarint;
    hide SkipFrom;
    DelimitedBack(num, bytes, rest, pos);
    TagBack(num, 2, []);
    assert FromBytes(ks[num - 1], cur[num - 1], bytes, accepts) == Err(BadPayload);
    assert Step(ks, cur, Delimited(num, bytes) + rest, pos, accepts) == Err(BadPayload);
  }

  // ---- concatenation ----

  lemma ReadBytesExtends(s: seq<Byte>, pos: nat, rest: seq<Byte>)
    requires ReadBytes(s, pos).Ok?
    ensures ReadBytes(s + rest, pos) == ReadBytes(s, pos)
  {
    ReadVarintExtends(s, 1, rest);
    var (len, n) := ReadVarint(s, 1).value;
    assert (s + rest)[n..n + len] == s[n..n + len];
  }

  lemma ReadFieldExtends(k: Kind, v: Value, s: seq<Byte>, pos: nat, rest: seq<Byte>, accepts: Decoders)
    requires Typed(k, v) && ReadField(k, v, s, pos, accepts).Ok?
    ensures ReadField(k, v, s + rest, pos, accepts) == ReadField(k, v, s, pos, accepts)
  {
    hide FromBytes;
    if WireTypeFor(k) == VarintField {
      ReadVarintExtends(s, 1, rest);
    } else {
      ReadBytesExtends(s, pos, rest);
    }
  }

  lemma StepExtends(ks: seq<Kind>, cur: seq<Value>, s: seq<Byte>, pos: nat, rest: seq<Byte>, accepts: Decoders)
    requires AllTyped(ks, cur) && Step(ks, cur, s, pos, accepts).Ok?
    ensures Step(ks, cur, s + rest, pos, accepts) == Step(ks, cur, s, pos, accepts)
  {
    hide ReadField;
    hide SkipFrom;
    ReadVarintExtends(s, 1, rest);
    var (wire, n) := ReadVarint(s, 1).value;
    var num := Int32(wire / 8);
    if num <= |ks| {
      assert (s + rest)[n..] == s[n..] + rest;
      ReadFieldExtends(ks[num - 1], cur[num - 1], s[n..], pos + n, rest, accepts);
    } else {
      SkipExtends(s, 0, 0, rest);
    }
  }

  /** Decoding a concatenation is decoding the second part into what the first one left. */
  lemma {:induction false} DecodeConcat(ks: seq<Kind>, cur: seq<Value>, a: seq<Byte>, b: seq<Byte>, pos: nat,
                                        accepts: Decoders)
    requires AllTyped(ks, cur) && Decode(ks, cur, a, pos, accepts).Ok?
    ensures Decode(ks, cur, a + b, pos, accepts)
         == Decode(ks, Decode(ks, cur, a, pos, accepts).value, b, pos + |a|, accepts)
    decreases |a|
  {
    hide Step;
    if a == [] {
      assert a + b == b;
    } else {
      StepExtends(ks, cur, a, pos, b, accepts);
      var (next, n) := Step(ks, cur, a, pos, accepts).value;
      assert (a + b)[n..] == a[n..] + b;
      DecodeConcat(ks, next, a[n..], b, pos + n, accepts);
    }
  }

  // ---- unknown fields ----

  lemma ReadFieldMoves(k: Kind, v: Value, s: seq<Byte>, pos: nat, to: nat, accepts: Decoders)
    requires Typed(k, v) && ReadField(k, v, s, pos, accepts).Ok? && to + |s| < TWO_63
    ensures ReadField(k, v, s, to, accepts) == ReadField(k, v, s, pos, accepts)
  {}

  lemma StepMoves(ks: seq<Kind>, cur: seq<Value>, s: seq<Byte>, pos: nat, to: nat, accepts: Decoders)
    requires AllTyped(ks, cur) && Step(ks, cur, s, pos, accepts).Ok? && to + |s| < TWO_63
    ensures Step(ks, cur, s, to, accepts) == Step(ks, cur, s, pos, accepts)
  {
    hide ReadField;
    hide SkipFrom;
    var (wire, n) := ReadVarint(s, 1).value;
    var num := Int32(wire / 8);
    if num <= |ks| {
      ReadFieldMoves(ks[num - 1], cur[num - 1], s[n..], pos + n, to + n, accepts);
    }
  }

  /** Where in a buffer a byte string stands makes no difference to what it decodes to. */
  lemma {:induction false} DecodeMoves(ks: seq<Kind>, cur: seq<Value>, s: seq<Byte>, pos: nat, to: nat,
                                       accepts: Decoders)
    requires AllTyped(ks, cur) && Decode(ks, cur, s, pos, accepts).Ok? && to + |s| < TWO_63
    ensures Decode(ks, cur, s, to, accepts) == Decode(ks, cur, s, pos, accepts)
    decreases |s|
  {
    hide Step;
    if s != [] {
      StepMoves(ks, cur, s, pos, to, accepts);
      var (next, n) := Step(ks, cur, s, pos, accepts).value;
      DecodeMoves(ks, next, s[n..], pos + n, to + n, accepts);
    }
  }

  /** A field of any number, as some other version of the message might carry it. Varints need not be
      in their shortest form, and groups nest. */
  datatype Unknown = Unknown(tag: seq<Byte>, body: Body)

  datatype Body =
    | Scalar(varint: seq<Byte>)
    | Eight(bytes: seq<Byte>)
    | Blob(length: seq<Byte>, bytes: seq<Byte>)
    | Group(fields: seq<Unknown>, end: seq<Byte>)
    | Four(bytes: seq<Byte>)

  ghost predicate WholeVarint(s: seq<Byte>) {
    ReadVarint(s, 1).Ok? && ReadVarint(s, 1).value.1 == |s|
  }

  ghost predicate TagOf(s: seq<Byte>, t: WireType) {
    WholeVarint(s) && TypeOf(ReadVarint(s, 1).value.0) == t
  }

  ghost predicate WellFormed(u: Unknown)
    decreases u
  {
    match u.body
    case Scalar(v) => TagOf(u.tag, VarintField) && WholeVarint(v)
    case Eight(bytes) => TagOf(u.tag, Fixed64) && |bytes| == 8
    case Blob(len, bytes) =>
      TagOf(u.tag, LengthDelimited) && WholeVarint(len) && ReadVarint(len, 1).value.0 == |bytes| < TWO_63
    case Group(fields, end) =>
      TagOf(u.tag, StartGroup) && TagOf(end, CloseGroup) && forall i :: 0 <= i < |fields| ==> WellFormed(fields[i])
    case Four(bytes) => TagOf(u.tag, Fixed32) && |bytes| == 4
  }

  function Wired(u: Unknown): seq<Byte>
    decreases u, 0
  {
    match u.body
    case Scalar(v) => u.tag + v
    case Eight(bytes) => u.tag + bytes
    case Blob(len, bytes) => u.tag + (len + bytes)
    case Group(fields, end) => u.tag + (WiredAll(fields) + end)
    case Four(bytes) => u.tag + bytes
  }

  function WiredAll(us: seq<Unknown>): seq<Byte>
    decreases us, 1
  {
    if us == [] then [] else Wired(us[0]) + WiredAll(us[1..])
  }

  lemma SkipOneAtTag(tag: seq<Byte>, t: WireType, after: seq<Byte>, at: nat, open: nat)
    requires TagOf(tag, t) && (t == CloseGroup ==> open > 0)
    requires BodyLength(t, after).Ok? && at + |tag| + BodyLength(t, after).value < TWO_63
    ensures SkipOne(tag + after, at, open)
         == Ok((|tag| + BodyLength(t, after).value,
                if t == StartGroup then open + 1 else if t == CloseGroup then open - 1 else open))
  {
    hide BodyLength;
    ReadVarintExtends(tag, 1, after);
    assert (tag + after)[|tag|..] == after;
  }

  /** The first turn of a skip: past the tag of a group, or past a whole field of any other type. */
  lemma SkipsHead(u: Unknown, rest: seq<Byte>, at: nat, open: nat)
    requires WellFormed(u) && at + |Wired(u)| < TWO_63
    ensures u.body.Group? ==> SkipOne(Wired(u) + rest, at, open) == Ok((|u.tag|, open + 1))
    ensures !u.body.Group? ==> SkipOne(Wired(u) + rest, at, open) == Ok((|Wired(u)|, open))
  {
    hide SkipOne;
    hide ReadVarint;
    var after := (Wired(u) + rest)[|u.tag|..];
    assert Wired(u) + rest == u.tag + after;
    match u.body {
      case Scalar(v) =>
        assert after == v + rest;
        ReadVarintExtends(v, 1, rest);
        SkipOneAtTag(u.tag, VarintField, after, at, open);
      case Eight(_) => SkipOneAtTag(u.tag, Fixed64, after, at, open);
      case Blob(len, bytes) =>
        assert after == len + (bytes + rest);
        ReadVarintExtends(len, 1, bytes + rest);
        SkipOneAtTag(u.tag, LengthDelimited, after, at, open);
      case Group(_, _) => SkipOneAtTag(u.tag, StartGroup, after, at, open);
      case Four(_) => SkipOneAtTag(u.tag, Fixed32, after, at, open);
    }
  }

  /** Inside an open group, well-formed fields are passed over, balanced groups among them. */
  lemma {:induction false} SkipsAll(us: seq<Unknown>, rest: seq<Byte>, at: nat, open: nat)
    requires (forall i :: 0 <= i < |us| ==> WellFormed(us[i])) && open > 0 && at + |WiredAll(us)| < TWO_63
    ensures SkipFrom(WiredAll(us) + rest, at, open) == SkipFrom(rest, at + |WiredAll(us)|, open)
    decreases us, 1
  {
    hide SkipFrom;
    hide SkipOne;
    if us == [] {
      assert WiredAll(us) + rest == rest;
    } else {
      var tail := WiredAll(us[1..]) + rest;
      assert WiredAll(us) + rest == Wired(us[0]) + tail;
      SkipsOneField(us[0], tail, at, open);
      SkipsAll(us[1..], rest, at + |Wired(us[0])|, open);
    }
  }

  lemma SkipUnfold(s: seq<Byte>, at: nat, open: nat, n: nat, depth: nat)
    requires s != [] && n <= |s| && SkipOne(s, at, open) == Ok((n, depth))
    ensures SkipFrom(s, at, open) == if depth == 0 then Ok(at + n) else SkipFrom(s[n..], at + n, depth)
  {
    hide SkipOne;
  }

  lemma {:induction false} SkipsOneField(u: Unknown, rest: seq<Byte>, at: nat, open: nat)
    requires WellFormed(u) && at + |Wired(u)| < TWO_63
    ensures SkipFrom(Wired(u) + rest, at, open)
         == if open == 0 then Ok(at + |Wired(u)|) else SkipFrom(rest, at + |Wired(u)|, open)
    decreases u, 0
  {
    hide SkipOne;
    hide SkipFrom;
    hide ReadVarint;
    var s := Wired(u) + rest;
    SkipsHead(u, rest, at, open);
    assert |u.tag| > 0;
    if u.body.Group? {
      var fields, end := u.body.fields, u.body.end;
      SkipUnfold(s, at, open, |u.tag|, open + 1);
      assert s[|u.tag|..] == WiredAll(fields) + (end + rest);
      SkipsAll(fields, end + rest, at + |u.tag|, open + 1);
      var close := at + |u.tag| + |WiredAll(fields)|;
      SkipOneAtTag(end, CloseGroup, rest, close, open + 1);
      SkipUnfold(end + rest, close, open + 1, |end|, open);
      assert (end + rest)[|end|..] == rest;
    } else {
      SkipUnfold(s, at, open, |Wired(u)|, open);
      assert s[|Wired(u)|..] == rest;
    }
  }

  lemma WiredTag(u: Unknown)
    requires WellFormed(u)
    ensures |u.tag| > 0 && u.tag <= Wired(u) && ReadVarint(Wired(u), 1) == Ok((ReadVarint(u.tag, 1).value.0, |u.tag|))
    ensures TypeOf(ReadVarint(u.tag, 1).value.0) != CloseGroup
  {
    ReadVarintExtends(u.tag, 1, Wired(u)[|u.tag|..]);
    assert Wired(u) == u.tag + Wired(u)[|u.tag|..];
  }

  /** An unknown field is one step of the decoder that changes nothing. */
  lemma StepOverUnknown(ks: seq<Kind>, cur: seq<Value>, u: Unknown, pos: nat, accepts: Decoders)
    requires AllTyped(ks, cur) && WellFormed(u) && pos + |Wired(u)| < TWO_63
    requires Int32(ReadVarint(u.tag, 1).value.0 / 8) > |ks|
    ensures Wired(u) != [] && Step(ks, cur, Wired(u), pos, accepts) == Ok((cur, |Wired(u)|))
  {
    hide Wired;
    hide ReadVarint;
    hide ReadField;
    hide SkipFrom;
    assert Wired(u) + [] == Wired(u);
    SkipsOneField(u, [], 0, 0);
    WiredTag(u);
  }

  /** So in front of anything it decodes as if it were not there, further along in the buffer. */
  lemma UnknownThenRest(ks: seq<Kind>, cur: seq<Value>, u: Unknown, b: seq<Byte>, pos: nat, accepts: Decoders)
    requires AllTyped(ks, cur) && WellFormed(u) && pos + |Wired(u)| < TWO_63
    requires Int32(ReadVarint(u.tag, 1).value.0 / 8) > |ks|
    ensures Decode(ks, cur, Wired(u) + b, pos, accepts) == Decode(ks, cur, b, pos + |Wired(u)|, accepts)
  {
    hide Step;
    hide Wired;
    var s := Wired(u);
    StepOverUnknown(ks, cur, u, pos, accepts);
    StepExtends(ks, cur, s, pos, b, accepts);
    assert (s + b)[|s|..] == b;
  }

  lemma DecodeAgrees(ks: seq<Kind>, cur: seq<Value>, s: seq<Byte>, pos: nat, to: nat, accepts: Decoders)
    requires AllTyped(ks, cur) && pos + |s| < TWO_63 && to + |s| < TWO_63
    ensures var x, y := Decode(ks, cur, s, pos, accepts), Decode(ks, cur, s, to, accepts);
            (x.Ok? <==> y.Ok?) && (x.Ok? ==> x == y)
  {
    if Decode(ks, cur, s, pos, accepts).Ok? {
      DecodeMoves(ks, cur, s, pos, to, accepts);
    } else if Decode(ks, cur, s, to, accepts).Ok? {
      DecodeMoves(ks, cur, s, to, pos, accepts);
    }
  }

  /** Splicing a well-formed unknown field in after any decodable beginning, before anything at all,
      changes neither whether the whole decodes nor what it decodes to. */
  lemma UnknownFieldIsIgnored(ks: seq<Kind>, cur: seq<Value>, a: seq<Byte>, u: Unknown, b: seq<Byte>,
                              accepts: Decoders)
    requires AllTyped(ks, cur) && WellFormed(u) && |a| + |Wired(u)| + |b| < TWO_63
    requires Int32(ReadVarint(u.tag, 1).value.0 / 8) > |ks|
    requires Decode(ks, cur, a, 0, accepts).Ok?
    ensures var spliced, plain := Decode(ks, cur, a + Wired(u) + b, 0, accepts), Decode(ks, cur, a + b, 0, accepts);
            (spliced.Ok? <==> plain.Ok?) && (spliced.Ok? ==> spliced == plain)
  {
    hide *;
    var s, mid := Wired(u), Decode(ks, cur, a, 0, accepts).value;
    assert a + s + b == a + (s + b);
    DecodeConcat(ks, cur, a, b, 0, accepts);
    DecodeConcat(ks, cur, a, s + b, 0, accepts);
    UnknownThenRest(ks, mid, u, b, |a|, accepts);
    DecodeAgrees(ks, mid, b, |a|, |a| + |s|, accepts);
  }
}
