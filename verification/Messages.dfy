/** The generated code of x/rewardstreamer for its stored params and its two governance messages:
    sizing, filling a buffer from the back, and reading in a loop over fields. */
module Messages {
  import opened Wrappers
  import opened Wire
  import opened Schema
  import RoundTrip

  /** Integer and decimal fields are held as the bytes of their own encoding. */
  datatype Params = Params(enabled: bool, rewardDenom: seq<Byte>, annualReward: seq<Byte>, blocksPerYear: Uint64)

  datatype MsgUpdateParams = MsgUpdateParams(authority: seq<Byte>, params: Params)

  datatype MsgUpdateFormulaParams = MsgUpdateFormulaParams(
    authority: seq<Byte>, enabled: bool, ratePerDay: seq<Byte>, floorPerDay: seq<Byte>, capPerDay: seq<Byte>,
    blocksPerDay: Uint64, rewardDenom: seq<Byte>, maxTotalPerDay: seq<Byte>)

  const PARAMS: seq<Kind> := [BoolKind, StringKind, PayloadKind(IntegerCodec), Uint64Kind]
  const UPDATE_PARAMS: seq<Kind> := [StringKind, MessageKind(PARAMS)]
  const UPDATE_FORMULA: seq<Kind> :=
    [StringKind, BoolKind, PayloadKind(DecimalCodec), PayloadKind(IntegerCodec), PayloadKind(IntegerCodec), Uint64Kind,
     StringKind, PayloadKind(IntegerCodec)]

  const NO_PARAMS := Params(false, [], [], 0)

  function ParamsValues(m: Params): (r: seq<Value>)
    ensures AllTyped(PARAMS, r)
  {
    [Bool(m.enabled), Bytes(m.rewardDenom), Bytes(m.annualReward), Uint(m.blocksPerYear)]
  }

  function UpdateParamsValues(m: MsgUpdateParams): (r: seq<Value>)
    ensures AllTyped(UPDATE_PARAMS, r)
  {
    [Bytes(m.authority), Message(ParamsValues(m.params))]
  }

  function UpdateFormulaValues(m: MsgUpdateFormulaParams): (r: seq<Value>)
    ensures AllTyped(UPDATE_FORMULA, r)
  {
    [Bytes(m.authority), Bool(m.enabled), Bytes(m.ratePerDay), Bytes(m.floorPerDay), Bytes(m.capPerDay),
     Uint(m.blocksPerDay), Bytes(m.rewardDenom), Bytes(m.maxTotalPerDay)]
  }

  // ---- sizes ----

  function DelimitedSize(len: nat): nat {
    1 + len + Sov(len)
  }

  function ParamsSize(m: Params): nat {
    (if m.enabled then 2 else 0)
    + (if |m.rewardDenom| > 0 then DelimitedSize(|m.rewardDenom|) else 0)
    + DelimitedSize(|m.annualReward|)
    + (if m.blocksPerYear != 0 then 1 + Sov(m.blocksPerYear) else 0)
  }

  function UpdateParamsSize(m: MsgUpdateParams): nat {
    (if |m.authority| > 0 then DelimitedSize(|m.authority|) else 0)
    + DelimitedSize(ParamsSize(m.params))
  }

  function UpdateFormulaSize(m: MsgUpdateFormulaParams): nat {
    (if |m.authority| > 0 then DelimitedSize(|m.authority|) else 0)
    + (if m.enabled then 2 else 0)
    + DelimitedSize(|m.ratePerDay|) + DelimitedSize(|m.floorPerDay|) + DelimitedSize(|m.capPerDay|)
    + (if m.blocksPerDay != 0 then 1 + Sov(m.blocksPerDay) else 0)
    + (if |m.rewardDenom| > 0 then DelimitedSize(|m.rewardDenom|) else 0)
    + DelimitedSize(|m.maxTotalPerDay|)
  }

  lemma DelimitedLength(num: nat, bytes: seq<Byte>)
    requires 8 * num + 2 < 128
    ensures |Delimited(num, bytes)| == DelimitedSize(|bytes|)
  {
    SovIsLength(|bytes|);
  }

  /** What one field adds to the size; fields that are zero are not written. */
  function FieldSize(k: Kind, v: Value): nat
    requires Typed(k, v)
  {
    match k
    case BoolKind => if v.b then 2 else 0
    case Uint64Kind => if v.u != 0 then 1 + Sov(v.u) else 0
    case StringKind => if |v.bytes| > 0 then DelimitedSize(|v.bytes|) else 0
    case PayloadKind(_) => DelimitedSize(|v.bytes|)
    case MessageKind(fields) => DelimitedSize(|Encode(fields, v.fields, 1)|)
  }

  lemma SizeUnfold(ks: seq<Kind>, vs: seq<Value>, k: nat)
    requires AllTyped(ks, vs) && k <= |ks| < 16 && 8 * |ks| + 2 < 128
    ensures k < |ks| ==> |EncodeFrom(ks, vs, k)| == FieldSize(ks[k], vs[k]) + |EncodeFrom(ks, vs, k + 1)|
    ensures k == |ks| ==> |EncodeFrom(ks, vs, k)| == 0
    ensures k == 0 ==> |EncodeFrom(ks, vs, k)| == |Encode(ks, vs, 1)|
  {
    hide EncodeFrom;
    hide Delimited;
    hide Sov;
    EncodeFromUnfold(ks, vs, k);
    if k < |ks| {
      match ks[k]
      case BoolKind =>
      case Uint64Kind => SovIsLength(vs[k].u);
      case StringKind => DelimitedLength(k + 1, vs[k].bytes);
      case PayloadKind(_) => DelimitedLength(k + 1, vs[k].bytes);
      case MessageKind(fields) => DelimitedLength(k + 1, Encode(fields, vs[k].fields, 1));
    }
  }

  /** The sizes the messages announce are the sizes they have. */
  lemma ParamsSizeIsExact(m: Params)
    ensures ParamsSize(m) == |Encode(PARAMS, ParamsValues(m), 1)|
  {
    hide Encode;
    hide EncodeFrom;
    hide DelimitedSize;
    hide Sov;
    var vs := ParamsValues(m);
    SizeUnfold(PARAMS, vs, 0);
    SizeUnfold(PARAMS, vs, 1);
    SizeUnfold(PARAMS, vs, 2);
    SizeUnfold(PARAMS, vs, 3);
    SizeUnfold(PARAMS, vs, 4);
  }

  lemma UpdateParamsSizeIsExact(m: MsgUpdateParams)
    ensures UpdateParamsSize(m) == |Encode(UPDATE_PARAMS, UpdateParamsValues(m), 1)|
  {
    hide Encode;
    hide EncodeFrom;
    hide DelimitedSize;
    hide Sov;
    var vs := UpdateParamsValues(m);
    ParamsSizeIsExact(m.params);
    SizeUnfold(UPDATE_PARAMS, vs, 0);
    SizeUnfold(UPDATE_PARAMS, vs, 1);
    SizeUnfold(UPDATE_PARAMS, vs, 2);
  }

  lemma UpdateFormulaSizeIsExact(m: MsgUpdateFormulaParams)
    ensures UpdateFormulaSize(m) == |Encode(UPDATE_FORMULA, UpdateFormulaValues(m), 1)|
  {
    hide Encode;
    hide EncodeFrom;
    hide DelimitedSize;
    hide Sov;
    var vs := UpdateFormulaValues(m);
    SizeUnfold(UPDATE_FORMULA, vs, 0);
    SizeUnfold(UPDATE_FORMULA, vs, 1);
    SizeUnfold(UPDATE_FORMULA, vs, 2);
    SizeUnfold(UPDATE_FORMULA, vs, 3);
    SizeUnfold(UPDATE_FORMULA, vs, 4);
    SizeUnfold(UPDATE_FORMULA, vs, 5);
    SizeUnfold(UPDATE_FORMULA, vs, 6);
    SizeUnfold(UPDATE_FORMULA, vs, 7);
    SizeUnfold(UPDATE_FORMULA, vs, 8);
  }

  // ---- what stands where ----

  lemma DelimitedIs(num: nat, tag: Byte, bytes: seq<Byte>)
    requires tag == 8 * num + 2 < 128
    ensures Delimited(num, bytes) == [tag] + Varint(|bytes|) + bytes
  {
    TagIs(num, tag);
    hide Varint;
    hide Tag;
  }

  lemma TagIs(num: nat, tag: Byte)
    requires tag < 128
    ensures tag == 8 * num + 2 ==> Tag(num, 2) == [tag]
    ensures tag == 8 * num ==> Tag(num, 0) == [tag]
  {
    hide Varint;
    OneByte(tag);
  }

  lemma OneByte(v: nat)
    requires v < 128
    ensures Varint(v) == [v]
  {}

  lemma TextIs(num: nat, tag: Byte, s: seq<Byte>)
    requires tag == 8 * num + 2 < 128
    ensures EncodeField(num, StringKind, Bytes(s)) == if s != [] then [tag] + Varint(|s|) + s else []
  {
    DelimitedIs(num, tag, s);
    hide Delimited;
    hide Varint;
  }

  lemma PayloadIs(num: nat, tag: Byte, codec: Codec, s: seq<Byte>)
    requires tag == 8 * num + 2 < 128
    ensures EncodeField(num, PayloadKind(codec), Bytes(s)) == [tag] + Varint(|s|) + s
  {
    DelimitedIs(num, tag, s);
    hide Delimited;
    hide Varint;
  }

  lemma ScalarIs(num: nat, tag: Byte, v: nat, b: bool)
    requires tag == 8 * num < 128 && v < TWO_64
    ensures EncodeField(num, Uint64Kind, Uint(v)) == if v != 0 then [tag] + Varint(v) else []
    ensures EncodeField(num, BoolKind, Bool(b)) == if b then [tag, 1] else []
  {
    TagIs(num, tag);
    hide Tag;
    hide Varint;
  }

  /** One more field stands behind those already laid out. */
  lemma Behind(ks: seq<Kind>, vs: seq<Value>, k: nat, before: seq<Byte>, field: seq<Byte>)
    requires AllTyped(ks, vs) && k < |ks| && EncodeField(k + 1, ks[k], vs[k]) == field
    requires Encode(ks, vs, 1) == before + EncodeFrom(ks, vs, k)
    ensures Encode(ks, vs, 1) == before + field + EncodeFrom(ks, vs, k + 1)
  {
    hide Encode;
    hide EncodeFrom;
    EncodeFromUnfold(ks, vs, k);
    assert before + (field + EncodeFrom(ks, vs, k + 1)) == before + field + EncodeFrom(ks, vs, k + 1);
  }

  lemma Front(ks: seq<Kind>, vs: seq<Value>, field: seq<Byte>)
    requires AllTyped(ks, vs) && 0 < |ks| && EncodeField(1, ks[0], vs[0]) == field
    ensures Encode(ks, vs, 1) == field + EncodeFrom(ks, vs, 1)
  {
    EncodeFromUnfold(ks, vs, 0);
  }

  lemma Back(ks: seq<Kind>, vs: seq<Value>, all: seq<Byte>)
    requires AllTyped(ks, vs) && Encode(ks, vs, 1) == all + EncodeFrom(ks, vs, |ks|)
    ensures Encode(ks, vs, 1) == all
  {
    EncodeFromUnfold(ks, vs, |ks|);
  }

  /** What is laid out up to field `k`, with the next two fields behind it. */
  lemma TwoMore(ks: seq<Kind>, vs: seq<Value>, k: nat, before: seq<Byte>, f: seq<Byte>, g: seq<Byte>)
    requires AllTyped(ks, vs) && k + 1 < |ks|
    requires EncodeField(k + 1, ks[k], vs[k]) == f && EncodeField(k + 2, ks[k + 1], vs[k + 1]) == g
    requires Encode(ks, vs, 1) == before + EncodeFrom(ks, vs, k)
    ensures Encode(ks, vs, 1) == before + f + g + EncodeFrom(ks, vs, k + 2)
  {
    hide Encode;
    hide EncodeFrom;
    Behind(ks, vs, k, before, f);
    Behind(ks, vs, k + 1, before + f, g);
  }

  lemma FirstTwo(ks: seq<Kind>, vs: seq<Value>, f: seq<Byte>, g: seq<Byte>)
    requires AllTyped(ks, vs) && 1 < |ks|
    requires EncodeField(1, ks[0], vs[0]) == f && EncodeField(2, ks[1], vs[1]) == g
    ensures Encode(ks, vs, 1) == f + g + EncodeFrom(ks, vs, 2)
  {
    EncodeFromUnfold(ks, vs, 0);
    hide Encode;
    hide EncodeFrom;
    Behind(ks, vs, 1, f, g);
  }

  lemma FourFields(ks: seq<Kind>, vs: seq<Value>, f1: seq<Byte>, f2: seq<Byte>, f3: seq<Byte>, f4: seq<Byte>)
    requires AllTyped(ks, vs) && |ks| == 4
    requires EncodeField(1, ks[0], vs[0]) == f1 && EncodeField(2, ks[1], vs[1]) == f2
    requires EncodeField(3, ks[2], vs[2]) == f3 && EncodeField(4, ks[3], vs[3]) == f4
    ensures Encode(ks, vs, 1) == f1 + f2 + f3 + f4
  {
    hide Encode;
    hide EncodeFrom;
    hide EncodeField;
    FirstTwo(ks, vs, f1, f2);
    TwoMore(ks, vs, 2, f1 + f2, f3, f4);
    Back(ks, vs, f1 + f2 + f3 + f4);
  }

  lemma EightFields(ks: seq<Kind>, vs: seq<Value>, f1: seq<Byte>, f2: seq<Byte>, f3: seq<Byte>, f4: seq<Byte>,
                    f5: seq<Byte>, f6: seq<Byte>, f7: seq<Byte>, f8: seq<Byte>)
    requires AllTyped(ks, vs) && |ks| == 8
    requires EncodeField(1, ks[0], vs[0]) == f1 && EncodeField(2, ks[1], vs[1]) == f2
    requires EncodeField(3, ks[2], vs[2]) == f3 && EncodeField(4, ks[3], vs[3]) == f4
    requires EncodeField(5, ks[4], vs[4]) == f5 && EncodeField(6, ks[5], vs[5]) == f6
    requires EncodeField(7, ks[6], vs[6]) == f7 && EncodeField(8, ks[7], vs[7]) == f8
    ensures Encode(ks, vs, 1) == f1 + f2 + f3 + f4 + f5 + f6 + f7 + f8
  {
    hide Encode;
    hide EncodeFrom;
    hide EncodeField;
    FirstTwo(ks, vs, f1, f2);
    TwoMore(ks, vs, 2, f1 + f2, f3, f4);
    TwoMore(ks, vs, 4, f1 + f2 + f3 + f4, f5, f6);
    TwoMore(ks, vs, 6, f1 + f2 + f3 + f4 + f5 + f6, f7, f8);
    Back(ks, vs, f1 + f2 + f3 + f4 + f5 + f6 + f7 + f8);
  }

  /** The bytes of the stored params, member by member. */
  lemma ParamsLayout(m: Params)
    ensures Encode(PARAMS, ParamsValues(m), 1) ==
            (if m.enabled then [0x08, 1] else [])
            + (if m.rewardDenom != [] then [0x12] + Varint(|m.rewardDenom|) + m.rewardDenom else [])
            + ([0x1a] + Varint(|m.annualReward|) + m.annualReward)
            + (if m.blocksPerYear != 0 then [0x20] + Varint(m.blocksPerYear) else [])
  {
    ScalarIs(1, 0x08, 0, m.enabled);
    TextIs(2, 0x12, m.rewardDenom);
    PayloadIs(3, 0x1a, IntegerCodec, m.annualReward);
    ScalarIs(4, 0x20, m.blocksPerYear, false);
    hide Encode;
    hide EncodeField;
    hide Varint;
    FourFields(PARAMS, ParamsValues(m),
      if m.enabled then [0x08, 1] else [],
      if m.rewardDenom != [] then [0x12] + Varint(|m.rewardDenom|) + m.rewardDenom else [],
      [0x1a] + Varint(|m.annualReward|) + m.annualReward,
      if m.blocksPerYear != 0 then [0x20] + Varint(m.blocksPerYear) else []);
  }

  lemma UpdateParamsLayout(m: MsgUpdateParams)
    ensures var params := Encode(PARAMS, ParamsValues(m.params), 1);
            Encode(UPDATE_PARAMS, UpdateParamsValues(m), 1) ==
            (if m.authority != [] then [0x0a] + Varint(|m.authority|) + m.authority else [])
            + ([0x12] + Varint(|params|) + params)
  {
    var vs, params := UpdateParamsValues(m), Encode(PARAMS, ParamsValues(m.params), 1);
    TextIs(1, 0x0a, m.authority);
    DelimitedIs(2, 0x12, params);
    hide Encode;
    hide EncodeFrom;
    hide Varint;
    hide Delimited;
    var f := if m.authority != [] then [0x0a] + Varint(|m.authority|) + m.authority else [];
    var g := [0x12] + Varint(|params|) + params;
    FirstTwo(UPDATE_PARAMS, vs, f, g);
    Back(UPDATE_PARAMS, vs, f + g);
  }

  lemma FormulaFields(m: MsgUpdateFormulaParams)
    ensures var ks, vs := UPDATE_FORMULA, UpdateFormulaValues(m);
            && EncodeField(1, ks[0], vs[0]) == (if m.authority != [] then [0x0a] + Varint(|m.authority|) + m.authority
                else [])
            && EncodeField(2, ks[1], vs[1]) == (if m.enabled then [0x10, 1] else [])
            && EncodeField(3, ks[2], vs[2]) == ([0x1a] + Varint(|m.ratePerDay|) + m.ratePerDay)
            && EncodeField(4, ks[3], vs[3]) == ([0x22] + Varint(|m.floorPerDay|) + m.floorPerDay)
            && EncodeField(5, ks[4], vs[4]) == ([0x2a] + Varint(|m.capPerDay|) + m.capPerDay)
            && EncodeField(6, ks[5], vs[5]) == (if m.blocksPerDay != 0 then [0x30] + Varint(m.blocksPerDay) else [])
            && EncodeField(7, ks[6], vs[6])
               == (if m.rewardDenom != [] then [0x3a] + Varint(|m.rewardDenom|) + m.rewardDenom else [])
            && EncodeField(8, ks[7], vs[7]) == ([0x42] + Varint(|m.maxTotalPerDay|) + m.maxTotalPerDay)
  {
    hide EncodeField;
    hide Varint;
    TextIs(1, 0x0a, m.authority);
    ScalarIs(2, 0x10, 0, m.enabled);
    PayloadIs(3, 0x1a, DecimalCodec, m.ratePerDay);
    PayloadIs(4, 0x22, IntegerCodec, m.floorPerDay);
    PayloadIs(5, 0x2a, IntegerCodec, m.capPerDay);
    ScalarIs(6, 0x30, m.blocksPerDay, false);
    TextIs(7, 0x3a, m.rewardDenom);
    PayloadIs(8, 0x42, IntegerCodec, m.maxTotalPerDay);
  }

  lemma UpdateFormulaLayout(m: MsgUpdateFormulaParams)
    ensures Encode(UPDATE_FORMULA, UpdateFormulaValues(m), 1) ==
            (if m.authority != [] then [0x0a] + Varint(|m.authority|) + m.authority else [])
            + (if m.enabled then [0x10, 1] else [])
            + ([0x1a] + Varint(|m.ratePerDay|) + m.ratePerDay)
            + ([0x22] + Varint(|m.floorPerDay|) + m.floorPerDay)
            + ([0x2a] + Varint(|m.capPerDay|) + m.capPerDay)
            + (if m.blocksPerDay != 0 then [0x30] + Varint(m.blocksPerDay) else [])
            + (if m.rewardDenom != [] then [0x3a] + Varint(|m.rewardDenom|) + m.rewardDenom else [])
            + ([0x42] + Varint(|m.maxTotalPerDay|) + m.maxTotalPerDay)
  {
    FormulaFields(m);
    assert |UPDATE_FORMULA| == 8;
    hide Encode;
    hide EncodeField;
    hide Varint;
    hide UpdateFormulaValues;
    EightFields(UPDATE_FORMULA, UpdateFormulaValues(m),
      if m.authority != [] then [0x0a] + Varint(|m.authority|) + m.authority else [],
      if m.enabled then [0x10, 1] else [],
      [0x1a] + Varint(|m.ratePerDay|) + m.ratePerDay,
      [0x22] + Varint(|m.floorPerDay|) + m.floorPerDay,
      [0x2a] + Varint(|m.capPerDay|) + m.capPerDay,
      if m.blocksPerDay != 0 then [0x30] + Varint(m.blocksPerDay) else [],
      if m.rewardDenom != [] then [0x3a] + Varint(|m.rewardDenom|) + m.rewardDenom else [],
      [0x42] + Varint(|m.maxTotalPerDay|) + m.maxTotalPerDay);
  }

  // ---- filling a buffer from the back ----

  /** Between `i` and `hi` the buffer now holds `content`; everything else is as it was. */
  ghost predicate Filled(was: seq<Byte>, now: seq<Byte>, i: nat, hi: nat, content: seq<Byte>) {
    i + |content| == hi <= |was| && now == was[..i] + content + was[hi..]
  }

  lemma FilledMore(was: seq<Byte>, mid: seq<Byte>, now: seq<Byte>, j: nat, i: nat, hi: nat, more: seq<Byte>,
      content: seq<Byte>)
    requires Filled(was, mid, i, hi, content) && Filled(mid, now, j, i, more)
    ensures Filled(was, now, j, hi, more + content)
  {
    assert mid[..j] == was[..j];
    assert mid[i..] == content + was[hi..];
    assert now == was[..j] + (more + content) + was[hi..];
  }

  /** The writers take what is already in place as ghosts and extend it towards the front. */
  method PutVarint(buf: array<Byte>, i: nat, v: nat, ghost was: seq<Byte>, ghost hi: nat, ghost content: seq<Byte>)
    returns (j: nat)
    requires |Varint(v)| <= i <= buf.Length && Filled(was, buf[..], i, hi, content)
    modifies buf
    ensures j == i - |Varint(v)| && Filled(was, buf[..], j, hi, Varint(v) + content)
  {
    j := EncodeVarint(buf, i, v);
    FilledMore(was, old(buf[..]), buf[..], j, i, hi, Varint(v), content);
  }

  method PutByte(buf: array<Byte>, i: nat, b: Byte, ghost was: seq<Byte>, ghost hi: nat, ghost content: seq<Byte>)
    returns (j: nat)
    requires 1 <= i <= buf.Length && Filled(was, buf[..], i, hi, content)
    modifies buf
    ensures j == i - 1 && Filled(was, buf[..], j, hi, [b] + content)
  {
    j := i - 1;
    buf[j] := b;
    assert buf[..] == old(buf[..j]) + [b] + old(buf[i..]);
    FilledMore(was, old(buf[..]), buf[..], j, i, hi, [b], content);
  }

  method PutScalar(buf: array<Byte>, i: nat, tag: Byte, v: nat, ghost was: seq<Byte>, ghost hi: nat,
      ghost content: seq<Byte>)
    returns (j: nat)
    requires 1 + |Varint(v)| <= i <= buf.Length && Filled(was, buf[..], i, hi, content)
    modifies buf
    ensures j == i - 1 - |Varint(v)| && Filled(was, buf[..], j, hi, [tag] + Varint(v) + content)
  {
    hide Filled;
    j := PutVarint(buf, i, v, was, hi, content);
    j := PutByte(buf, j, tag, was, hi, Varint(v) + content);
    assert [tag] + (Varint(v) + content) == [tag] + Varint(v) + content;
  }

  method PutDelimited(buf: array<Byte>, i: nat, num: nat, tag: Byte, bytes: seq<Byte>,
                      ghost was: seq<Byte>, ghost hi: nat, ghost content: seq<Byte>)
    returns (j: nat)
    requires tag == 8 * num + 2 < 128 && |Delimited(num, bytes)| <= i <= buf.Length
    requires Filled(was, buf[..], i, hi, content)
    modifies buf
    ensures j == i - |Delimited(num, bytes)| && Filled(was, buf[..], j, hi, Delimited(num, bytes) + content)
  {
    j := i - |bytes|;
    forall k | 0 <= k < |bytes| {
      buf[j + k] := bytes[k];
    }
    assert buf[..] == old(buf[..j]) + bytes + old(buf[i..]);
    FilledMore(was, old(buf[..]), buf[..], j, i, hi, bytes, content);
    j := PutScalar(buf, j, tag, |bytes|, was, hi, bytes + content);
    assert Delimited(num, bytes) + content == [tag] + Varint(|bytes|) + (bytes + content);
  }

  /** The four kinds of field the messages have: index `k` of the schema is about to be written in
      front of the fields after it. */
  ghost predicate Written(ks: seq<Kind>, vs: seq<Value>, k: nat, was: seq<Byte>, now: seq<Byte>, i: nat, hi: nat)
    requires AllTyped(ks, vs) && k <= |ks|
  {
    i == hi - |EncodeFrom(ks, vs, k)| && Filled(was, now, i, hi, EncodeFrom(ks, vs, k))
  }

  ghost predicate Room(ks: seq<Kind>, vs: seq<Value>, hi: nat)
    requires AllTyped(ks, vs)
  {
    forall k :: 0 <= k <= |ks| ==> |EncodeFrom(ks, vs, k)| <= hi
  }

  method PutUint64(buf: array<Byte>, i: nat, tag: Byte, ghost ks: seq<Kind>, ghost vs: seq<Value>, ghost k: nat, v: nat,
                   ghost was: seq<Byte>, ghost hi: nat)
    returns (j: nat)
    requires AllTyped(ks, vs) && k < |ks| && ks[k] == Uint64Kind && vs[k] == Uint(v) && tag == 8 * (k + 1) < 128
    requires Room(ks, vs, hi) && i <= buf.Length && Written(ks, vs, k + 1, was, buf[..], i, hi)
    modifies buf
    ensures j <= i && Written(ks, vs, k, was, buf[..], j, hi)
  {
    hide EncodeFrom;
    EncodeFromUnfold(ks, vs, k);
    j := i;
    if v != 0 {
      assert EncodeField(k + 1, ks[k], vs[k]) == [tag] + Varint(v);
      j := PutScalar(buf, i, tag, v, was, hi, EncodeFrom(ks, vs, k + 1));
    }
  }

  method PutBool(buf: array<Byte>, i: nat, tag: Byte, ghost ks: seq<Kind>, ghost vs: seq<Value>, ghost k: nat, v: bool,
                 ghost was: seq<Byte>, ghost hi: nat)
    returns (j: nat)
    requires AllTyped(ks, vs) && k < |ks| && ks[k] == BoolKind && vs[k] == Bool(v) && tag == 8 * (k + 1) < 128
    requires Room(ks, vs, hi) && i <= buf.Length && Written(ks, vs, k + 1, was, buf[..], i, hi)
    modifies buf
    ensures j <= i && Written(ks, vs, k, was, buf[..], j, hi)
  {
    hide EncodeFrom;
    EncodeFromUnfold(ks, vs, k);
    j := i;
    if v {
      ghost var rest := EncodeFrom(ks, vs, k + 1);
      assert EncodeField(k + 1, ks[k], vs[k]) == [tag, 1];
      j := PutByte(buf, i, 1, was, hi, rest);
      j := PutByte(buf, j, tag, was, hi, [1] + rest);
      assert [tag] + ([1] + rest) == [tag, 1] + rest;
    }
  }

  method PutString(buf: array<Byte>, i: nat, tag: Byte, ghost ks: seq<Kind>, ghost vs: seq<Value>, k: nat, s: seq<Byte>,
                   ghost was: seq<Byte>, ghost hi: nat)
    returns (j: nat)
    requires AllTyped(ks, vs) && k < |ks| && ks[k] == StringKind && vs[k] == Bytes(s) && tag == 8 * (k + 1) + 2 < 128
    requires Room(ks, vs, hi) && i <= buf.Length && Written(ks, vs, k + 1, was, buf[..], i, hi)
    modifies buf
    ensures j <= i && Written(ks, vs, k, was, buf[..], j, hi)
  {
    hide EncodeFrom;
    EncodeFromUnfold(ks, vs, k);
    j := i;
    if |s| > 0 {
      j := PutDelimited(buf, i, k + 1, tag, s, was, hi, EncodeFrom(ks, vs, k + 1));
    }
  }

  method PutPayload(buf: array<Byte>, i: nat, tag: Byte, ghost ks: seq<Kind>, ghost vs: seq<Value>, k: nat,
      s: seq<Byte>,
                    ghost was: seq<Byte>, ghost hi: nat)
    returns (j: nat)
    requires AllTyped(ks, vs) && k < |ks| && ks[k].PayloadKind? && vs[k] == Bytes(s) && tag == 8 * (k + 1) + 2 < 128
    requires Room(ks, vs, hi) && i <= buf.Length && Written(ks, vs, k + 1, was, buf[..], i, hi)
    modifies buf
    ensures j <= i && Written(ks, vs, k, was, buf[..], j, hi)
  {
    hide EncodeFrom;
    EncodeFromUnfold(ks, vs, k);
    j := PutDelimited(buf, i, k + 1, tag, s, was, hi, EncodeFrom(ks, vs, k + 1));
  }

  /** Nothing written yet, and room for everything. */
  lemma Start(ks: seq<Kind>, vs: seq<Value>, was: seq<Byte>, hi: nat)
    requires AllTyped(ks, vs) && |Encode(ks, vs, 1)| <= hi <= |was|
    ensures Room(ks, vs, hi) && Written(ks, vs, |ks|, was, was, hi, hi)
  {
    EncodeFromUnfold(ks, vs, |ks|);
    EncodeFromUnfold(ks, vs, 0);
    forall k | 0 <= k <= |ks|
      ensures |EncodeFrom(ks, vs, k)| <= hi
    {
      SuffixIsShorter(ks, vs, k);
    }
  }

  lemma {:induction false} SuffixIsShorter(ks: seq<Kind>, vs: seq<Value>, k: nat)
    requires AllTyped(ks, vs) && k <= |ks|
    ensures |EncodeFrom(ks, vs, k)| <= |EncodeFrom(ks, vs, 0)|
  {
    if k > 0 {
      EncodeFromUnfold(ks, vs, k - 1);
      SuffixIsShorter(ks, vs, k - 1);
    }
  }

  method ParamsToSizedBuffer(buf: array<Byte>, hi: nat, m: Params) returns (n: nat)
    requires ParamsSize(m) <= hi <= buf.Length
    modifies buf
    ensures n == ParamsSize(m)
    ensures Filled(old(buf[..]), buf[..], hi - n, hi, Encode(PARAMS, ParamsValues(m), 1))
  {
    hide Encode;
    hide EncodeFrom;
    hide Room;
    hide Filled;
    ghost var was, vs := buf[..], ParamsValues(m);
    ParamsSizeIsExact(m);
    Start(PARAMS, vs, was, hi);
    var i := PutUint64(buf, hi, 0x20, PARAMS, vs, 3, m.blocksPerYear, was, hi);
    i := PutPayload(buf, i, 0x1a, PARAMS, vs, 2, m.annualReward, was, hi);
    i := PutString(buf, i, 0x12, PARAMS, vs, 1, m.rewardDenom, was, hi);
    i := PutBool(buf, i, 0x08, PARAMS, vs, 0, m.enabled, was, hi);
    EncodeFromUnfold(PARAMS, vs, 0);
    return hi - i;
  }

  method UpdateParamsToSizedBuffer(buf: array<Byte>, hi: nat, m: MsgUpdateParams) returns (n: nat)
    requires UpdateParamsSize(m) <= hi <= buf.Length
    modifies buf
    ensures n == UpdateParamsSize(m)
    ensures Filled(old(buf[..]), buf[..], hi - n, hi, Encode(UPDATE_PARAMS, UpdateParamsValues(m), 1))
  {
    hide Encode;
    hide EncodeFrom;
    hide Room;
    hide Filled;
    hide Sov;
    hide Varint;
    ghost var was, vs := buf[..], UpdateParamsValues(m);
    ghost var inner := Encode(PARAMS, ParamsValues(m.params), 1);
    UpdateParamsSizeIsExact(m);
    ParamsSizeIsExact(m.params);
    SovIsLength(|inner|);
    EncodeFromUnfold(UPDATE_PARAMS, vs, 0);
    EncodeFromUnfold(UPDATE_PARAMS, vs, 1);
    EncodeFromUnfold(UPDATE_PARAMS, vs, 2);
    var size := ParamsToSizedBuffer(buf, hi, m.params);
    var i := PutScalar(buf, hi - size, 0x12, size, was, hi, inner);
    DelimitedIs(2, 0x12, inner);
    assert EncodeFrom(UPDATE_PARAMS, vs, 1) == Delimited(2, inner) + [] == Delimited(2, inner);
    Start(UPDATE_PARAMS, vs, was, hi);
    i := PutString(buf, i, 0x0a, UPDATE_PARAMS, vs, 0, m.authority, was, hi);
    return hi - i;
  }

  method UpdateFormulaToSizedBuffer(buf: array<Byte>, hi: nat, m: MsgUpdateFormulaParams) returns (n: nat)
    requires UpdateFormulaSize(m) <= hi <= buf.Length
    modifies buf
    ensures n == UpdateFormulaSize(m)
    ensures Filled(old(buf[..]), buf[..], hi - n, hi, Encode(UPDATE_FORMULA, UpdateFormulaValues(m), 1))
  {
    hide Encode;
    hide EncodeFrom;
    hide Room;
    hide Filled;
    ghost var was, vs := buf[..], UpdateFormulaValues(m);
    UpdateFormulaSizeIsExact(m);
    Start(UPDATE_FORMULA, vs, was, hi);
    var i := PutPayload(buf, hi, 0x42, UPDATE_FORMULA, vs, 7, m.maxTotalPerDay, was, hi);
    i := PutString(buf, i, 0x3a, UPDATE_FORMULA, vs, 6, m.rewardDenom, was, hi);
    i := PutUint64(buf, i, 0x30, UPDATE_FORMULA, vs, 5, m.blocksPerDay, was, hi);
    i := PutPayload(buf, i, 0x2a, UPDATE_FORMULA, vs, 4, m.capPerDay, was, hi);
    i := PutPayload(buf, i, 0x22, UPDATE_FORMULA, vs, 3, m.floorPerDay, was, hi);
    i := PutPayload(buf, i, 0x1a, UPDATE_FORMULA, vs, 2, m.ratePerDay, was, hi);
    i := PutBool(buf, i, 0x10, UPDATE_FORMULA, vs, 1, m.enabled, was, hi);
    i := PutString(buf, i, 0x0a, UPDATE_FORMULA, vs, 0, m.authority, was, hi);
    EncodeFromUnfold(UPDATE_FORMULA, vs, 0);
    return hi - i;
  }

  // ---- whole buffers: sized first, then filled to the last byte ----

  method MarshalParams(m: Params) returns (bytes: array<Byte>)
    ensures bytes[..] == Encode(PARAMS, ParamsValues(m), 1)
    ensures bytes[..] ==
            (if m.enabled then [0x08, 1] else [])
            + (if m.rewardDenom != [] then [0x12] + Varint(|m.rewardDenom|) + m.rewardDenom else [])
            + ([0x1a] + Varint(|m.annualReward|) + m.annualReward)
            + (if m.blocksPerYear != 0 then [0x20] + Varint(m.blocksPerYear) else [])
  {
    ParamsLayout(m);
    hide Encode;
    hide Varint;
    bytes := new Byte[ParamsSize(m)](_ => 0);
    var n := ParamsToSizedBuffer(bytes, ParamsSize(m), m);
  }

  method MarshalUpdateParams(m: MsgUpdateParams) returns (bytes: array<Byte>)
    ensures bytes[..] == Encode(UPDATE_PARAMS, UpdateParamsValues(m), 1)
    ensures var params := Encode(PARAMS, ParamsValues(m.params), 1);
            bytes[..] ==
            (if m.authority != [] then [0x0a] + Varint(|m.authority|) + m.authority else [])
            + ([0x12] + Varint(|params|) + params)
  {
    UpdateParamsLayout(m);
    hide Encode;
    hide Varint;
    bytes := new Byte[UpdateParamsSize(m)](_ => 0);
    var n := UpdateParamsToSizedBuffer(bytes, UpdateParamsSize(m), m);
  }

  method MarshalUpdateFormula(m: MsgUpdateFormulaParams) returns (bytes: array<Byte>)
    ensures bytes[..] == Encode(UPDATE_FORMULA, UpdateFormulaValues(m), 1)
    ensures bytes[..] ==
            (if m.authority != [] then [0x0a] + Varint(|m.authority|) + m.authority else [])
            + (if m.enabled then [0x10, 1] else [])
            + ([0x1a] + Varint(|m.ratePerDay|) + m.ratePerDay)
            + ([0x22] + Varint(|m.floorPerDay|) + m.floorPerDay)
            + ([0x2a] + Varint(|m.capPerDay|) + m.capPerDay)
            + (if m.blocksPerDay != 0 then [0x30] + Varint(m.blocksPerDay) else [])
            + (if m.rewardDenom != [] then [0x3a] + Varint(|m.rewardDenom|) + m.rewardDenom else [])
            + ([0x42] + Varint(|m.maxTotalPerDay|) + m.maxTotalPerDay)
  {
    UpdateFormulaLayout(m);
    hide Encode;
    hide Varint;
    bytes := new Byte[UpdateFormulaSize(m)](_ => 0);
    var n := UpdateFormulaToSizedBuffer(bytes, UpdateFormulaSize(m), m);
  }

  // ---- reading ----

  /** At `start` stands a tag of field `num` and type `t` which ends at `at`. */
  ghost predicate AtField(data: seq<Byte>, start: nat, num: int, t: WireType, at: nat) {
    && start < at <= |data|
    && match ReadVarint(data[start..], 1)
       case Ok((wire, n)) => at == start + n && num == Int32(wire / 8) && t == TypeOf(wire)
       case Err(_) => false
  }

  /** One turn of the reading loop. */
  lemma DecodeUnfold(ks: seq<Kind>, cur: seq<Value>, data: seq<Byte>, start: nat, accepts: Decoders)
    requires AllTyped(ks, cur) && start < |data|
    ensures match Step(ks, cur, data[start..], start, accepts)
            case Err(e) => Decode(ks, cur, data[start..], start, accepts) == Err(e)
            case Ok((next, n)) =>
              start + n <= |data|
              && Decode(ks, cur, data[start..], start, accepts)
                  == Decode(ks, next, data[start + n..], start + n, accepts)
  {
    hide Step;
    var step := Step(ks, cur, data[start..], start, accepts);
    if step.Ok? {
      assert data[start..][step.value.1..] == data[start + step.value.1..];
    }
  }

  /** The readers say what decoding from `start` comes to: a failure, or decoding from further on. */
  method TakeTag(data: seq<Byte>, start: nat, ghost ks: seq<Kind>, ghost cur: seq<Value>, accepts: Decoders)
    returns (r: Result<(int, WireType, nat), Error>)
    requires AllTyped(ks, cur) && start < |data|
    ensures r.Ok? ==> r.value.0 > 0 && r.value.1 != CloseGroup && AtField(data, start, r.value.0, r.value.1, r.value.2)
    ensures r.Err? ==> Decode(ks, cur, data[start..], start, accepts) == Err(r.error)
  {
    hide ReadField;
    hide SkipFrom;
    hide ReadVarint;
    hide Decode;
    DecodeUnfold(ks, cur, data, start, accepts);
    var tag := DecodeVarint(data, start);
    if tag.Err? {
      return Err(tag.error);
    }
    var num, t := Int32(tag.value.0 / 8), TypeOf(tag.value.0);
    if t == CloseGroup {
      return Err(EndGroup);
    }
    if num <= 0 {
      return Err(IllegalTag);
    }
    return Ok((num, t, tag.value.1));
  }

  ghost predicate Took(ks: seq<Kind>, cur: seq<Value>, data: seq<Byte>, start: nat, accepts: Decoders,
                       num: nat, v: Value, next: nat)
    requires AllTyped(ks, cur) && start <= |data| && 1 <= num <= |ks| && Typed(ks[num - 1], v)
  {
    && start < next <= |data|
    && Decode(ks, cur, data[start..], start, accepts) == Decode(ks, cur[num - 1 := v], data[next..], next, accepts)
  }

  method TakeScalar(data: seq<Byte>, start: nat, num: nat, t: WireType, at: nat,
                    ghost ks: seq<Kind>, ghost cur: seq<Value>, accepts: Decoders)
    returns (r: Result<(Uint64, nat), Error>)
    requires AllTyped(ks, cur) && 1 <= num <= |ks| && WireTypeFor(ks[num - 1]) == VarintField
    requires t != CloseGroup && AtField(data, start, num, t, at)
    ensures r.Ok? ==>
              Took(ks, cur, data, start, accepts, num, if ks[num - 1].BoolKind? then Bool(r.value.0 != 0)
                  else Uint(r.value.0), r.value.1)
    ensures r.Err? ==> Decode(ks, cur, data[start..], start, accepts) == Err(r.error)
  {
    hide ReadVarint;
    hide SkipFrom;
    hide ReadBytes;
    hide Decode;
    DecodeUnfold(ks, cur, data, start, accepts);
    assert data[start..][at - start..] == data[at..];
    if t != VarintField {
      return Err(WrongWireType);
    }
    var v := DecodeVarint(data, at);
    if v.Err? {
      return Err(v.error);
    }
    ReadVarintFits(data[at..]);
    assert ReadField(ks[num - 1], cur[num - 1], data[at..], at, accepts)
        == Ok((if ks[num - 1].BoolKind? then Bool(v.value.0 != 0) else Uint(v.value.0), v.value.1 - at));
    return Ok((v.value.0, v.value.1));
  }

  /** The bytes of a delimited field; what becomes of them is up to the field. */
  method TakeBytes(data: seq<Byte>, start: nat, num: nat, t: WireType, at: nat,
                   ghost ks: seq<Kind>, ghost cur: seq<Value>, accepts: Decoders)
    returns (r: Result<(seq<Byte>, nat), Error>)
    requires AllTyped(ks, cur) && 1 <= num <= |ks| && WireTypeFor(ks[num - 1]) == LengthDelimited
    requires t != CloseGroup && AtField(data, start, num, t, at)
    ensures r.Ok? ==>
              var f := FromBytes(ks[num - 1], cur[num - 1], r.value.0, accepts);
              && (f.Ok? ==> Took(ks, cur, data, start, accepts, num, f.value, r.value.1))
              && (f.Err? ==> Decode(ks, cur, data[start..], start, accepts) == Err(f.error))
    ensures r.Err? ==> Decode(ks, cur, data[start..], start, accepts) == Err(r.error)
  {
    hide ReadVarint;
    hide SkipFrom;
    hide FromBytes;
    hide Decode;
    DecodeUnfold(ks, cur, data, start, accepts);
    assert data[start..][at - start..] == data[at..];
    if t != LengthDelimited {
      return Err(WrongWireType);
    }
    var len := DecodeVarint(data, at);
    if len.Err? {
      return Err(len.error);
    }
    var from, to := len.value.1, len.value.1 + len.value.0;
    if len.value.0 >= TWO_63 || to >= TWO_63 {
      return Err(InvalidLength);
    }
    if to > |data| {
      return Err(UnexpectedEOF);
    }
    assert data[at..][from - at..to - at] == data[from..to];
    return Ok((data[from..to], to));
  }

  method TakeText(data: seq<Byte>, start: nat, num: nat, t: WireType, at: nat,
                  ghost ks: seq<Kind>, ghost cur: seq<Value>, accepts: Decoders)
    returns (r: Result<(seq<Byte>, nat), Error>)
    requires AllTyped(ks, cur) && 1 <= num <= |ks| && ks[num - 1] == StringKind
    requires t != CloseGroup && AtField(data, start, num, t, at)
    ensures r.Ok? ==> Took(ks, cur, data, start, accepts, num, Bytes(r.value.0), r.value.1)
    ensures r.Err? ==> Decode(ks, cur, data[start..], start, accepts) == Err(r.error)
  {
    hide Took;
    hide Step;
    hide AtField;
    r := TakeBytes(data, start, num, t, at, ks, cur, accepts);
  }

  /** A payload goes through its own decoder. */
  method TakePayload(data: seq<Byte>, start: nat, num: nat, t: WireType, at: nat, codec: Codec,
                     ghost ks: seq<Kind>, ghost cur: seq<Value>, accepts: Decoders)
    returns (r: Result<(seq<Byte>, nat), Error>)
    requires AllTyped(ks, cur) && 1 <= num <= |ks| && ks[num - 1] == PayloadKind(codec)
    requires t != CloseGroup && AtField(data, start, num, t, at)
    ensures r.Ok? ==> Took(ks, cur, data, start, accepts, num, Bytes(r.value.0), r.value.1)
    ensures r.Err? ==> Decode(ks, cur, data[start..], start, accepts) == Err(r.error)
  {
    hide Took;
    hide Step;
    hide AtField;
    r := TakeBytes(data, start, num, t, at, ks, cur, accepts);
    if r.Ok? && !accepts(codec, r.value.0) {
      return Err(BadPayload);
    }
  }

  method TakeUnknown(data: seq<Byte>, start: nat, num: nat, t: WireType, at: nat,
                     ghost ks: seq<Kind>, ghost cur: seq<Value>, accepts: Decoders)
    returns (r: Result<nat, Error>)
    requires AllTyped(ks, cur) && num > |ks|
    requires t != CloseGroup && AtField(data, start, num, t, at)
    ensures r.Ok? ==>
              && start < r.value <= |data|
              && Decode(ks, cur, data[start..], start, accepts) == Decode(ks, cur, data[r.value..], r.value, accepts)
    ensures r.Err? ==> Decode(ks, cur, data[start..], start, accepts) == Err(r.error)
  {
    hide ReadVarint;
    hide SkipFrom;
    hide Decode;
    DecodeUnfold(ks, cur, data, start, accepts);
    var n := Skip(data[start..]);
    if n.Err? {
      return n;
    }
    if start + n.value >= TWO_63 {
      return Err(InvalidLength);
    }
    if start + n.value > |data| {
      return Err(UnexpectedEOF);
    }
    return Ok(start + n.value);
  }

  lemma DecodeNothing(ks: seq<Kind>, cur: seq<Value>, pos: nat, accepts: Decoders)
    requires AllTyped(ks, cur)
    ensures Decode(ks, cur, [], pos, accepts) == Ok(cur)
  {}

  lemma ParamsApart(p: Params)
    ensures forall q :: ParamsValues(q) == ParamsValues(p) ==> q == p
  {
    forall q | ParamsValues(q) == ParamsValues(p) ensures q == p {
      var a, b := ParamsValues(q), ParamsValues(p);
      assert forall i :: 0 <= i < |a| ==> a[i] == b[i];
    }
  }

  lemma UpdateParamsApart(p: MsgUpdateParams)
    ensures forall q :: UpdateParamsValues(q) == UpdateParamsValues(p) ==> q == p
  {
    forall q | UpdateParamsValues(q) == UpdateParamsValues(p) ensures q == p {
      var a, b := UpdateParamsValues(q), UpdateParamsValues(p);
      assert forall i :: 0 <= i < |a| ==> a[i] == b[i];
      ParamsApart(p.params);
    }
  }

  lemma UpdateFormulaApart(p: MsgUpdateFormulaParams)
    ensures forall q :: UpdateFormulaValues(q) == UpdateFormulaValues(p) ==> q == p
  {
    forall q | UpdateFormulaValues(q) == UpdateFormulaValues(p) ensures q == p {
      var a, b := UpdateFormulaValues(q), UpdateFormulaValues(p);
      assert forall i :: 0 <= i < |a| ==> a[i] == b[i];
    }
  }

  method UnmarshalParams(m: Params, data: seq<Byte>, accepts: Decoders) returns (r: Result<Params, Error>)
    ensures match r
            case Ok(p) => Decode(PARAMS, ParamsValues(m), data, 0, accepts) == Ok(ParamsValues(p))
            case Err(e) => Decode(PARAMS, ParamsValues(m), data, 0, accepts) == Err(e)
    ensures forall q :: Decode(PARAMS, ParamsValues(m), data, 0, accepts) == Ok(ParamsValues(q)) ==> r == Ok(q)
  {
    hide Step;
    hide AtField;
    hide Decode;
    hide Typed;
    hide AllTyped;
    hide FromBytes;
    ghost var whole := Decode(PARAMS, ParamsValues(m), data, 0, accepts);
    assert data[0..] == data;
    var p, i := m, 0;
    while i < |data|
      invariant 0 <= i <= |data|
      invariant whole == Decode(PARAMS, ParamsValues(p), data[i..], i, accepts)
    {
      ghost var cur := ParamsValues(p);
      var tag := TakeTag(data, i, PARAMS, cur, accepts);
      if tag.Err? {
        return Err(tag.error);
      }
      var (num, t, at) := tag.value;
      match num {
        case 1 =>
          var f := TakeScalar(data, i, 1, t, at, PARAMS, cur, accepts);
          if f.Err? {
            return Err(f.error);
          }
          p, i := p.(enabled := f.value.0 != 0), f.value.1;
          assert ParamsValues(p) == cur[0 := Bool(p.enabled)];
        case 2 =>
          var f := TakeText(data, i, 2, t, at, PARAMS, cur, accepts);
          if f.Err? {
            return Err(f.error);
          }
          p, i := p.(rewardDenom := f.value.0), f.value.1;
          assert ParamsValues(p) == cur[1 := Bytes(p.rewardDenom)];
        case 3 =>
          var f := TakePayload(data, i, 3, t, at, IntegerCodec, PARAMS, cur, accepts);
          if f.Err? {
            return Err(f.error);
          }
          p, i := p.(annualReward := f.value.0), f.value.1;
          assert ParamsValues(p) == cur[2 := Bytes(p.annualReward)];
        case 4 =>
          var f := TakeScalar(data, i, 4, t, at, PARAMS, cur, accepts);
          if f.Err? {
            return Err(f.error);
          }
          p, i := p.(blocksPerYear := f.value.0), f.value.1;
          assert ParamsValues(p) == cur[3 := Uint(p.blocksPerYear)];
        case _ =>
          var f := TakeUnknown(data, i, num, t, at, PARAMS, cur, accepts);
          if f.Err? {
            return Err(f.error);
          }
          i := f.value;
      }
    }
    DecodeNothing(PARAMS, ParamsValues(p), i, accepts);
    assert data[i..] == [];
    ParamsApart(p);
    return Ok(p);
  }

  method UnmarshalUpdateParams(m: MsgUpdateParams, data: seq<Byte>, accepts: Decoders)
    returns (r: Result<MsgUpdateParams, Error>)
    ensures match r
            case Ok(p) => Decode(UPDATE_PARAMS, UpdateParamsValues(m), data, 0, accepts) == Ok(UpdateParamsValues(p))
            case Err(e) => Decode(UPDATE_PARAMS, UpdateParamsValues(m), data, 0, accepts) == Err(e)
    ensures forall q ::
              Decode(UPDATE_PARAMS, UpdateParamsValues(m), data, 0, accepts) == Ok(UpdateParamsValues(q)) ==> r == Ok(q)
  {
    hide Step;
    hide AtField;
    hide Decode;
    ghost var whole := Decode(UPDATE_PARAMS, UpdateParamsValues(m), data, 0, accepts);
    assert data[0..] == data;
    var p, i := m, 0;
    while i < |data|
      invariant 0 <= i <= |data|
      invariant whole == Decode(UPDATE_PARAMS, UpdateParamsValues(p), data[i..], i, accepts)
    {
      ghost var cur := UpdateParamsValues(p);
      var tag := TakeTag(data, i, UPDATE_PARAMS, cur, accepts);
      if tag.Err? {
        return Err(tag.error);
      }
      var (num, t, at) := tag.value;
      match num {
        case 1 =>
          var f := TakeText(data, i, 1, t, at, UPDATE_PARAMS, cur, accepts);
          if f.Err? {
            return Err(f.error);
          }
          p, i := p.(authority := f.value.0), f.value.1;
          assert UpdateParamsValues(p) == cur[0 := Bytes(p.authority)];
        case 2 =>
          var f := TakeBytes(data, i, 2, t, at, UPDATE_PARAMS, cur, accepts);
          if f.Err? {
            return Err(f.error);
          }
          var inner := UnmarshalParams(p.params, f.value.0, accepts);
          if inner.Err? {
            return Err(inner.error);
          }
          p, i := p.(params := inner.value), f.value.1;
          assert UpdateParamsValues(p) == cur[1 := Message(ParamsValues(p.params))];
        case _ =>
          var f := TakeUnknown(data, i, num, t, at, UPDATE_PARAMS, cur, accepts);
          if f.Err? {
            return Err(f.error);
          }
          i := f.value;
      }
    }
    DecodeNothing(UPDATE_PARAMS, UpdateParamsValues(p), i, accepts);
    assert data[i..] == [];
    UpdateParamsApart(p);
    return Ok(p);
  }

  /** One turn of the loop: the field at `i`. */
  method UpdateFormulaField(p: MsgUpdateFormulaParams, data: seq<Byte>, i: nat, accepts: Decoders)
    returns (r: Result<(MsgUpdateFormulaParams, nat), Error>)
    requires i < |data|
    ensures r.Ok? ==>
              && i < r.value.1 <= |data|
              && Decode(UPDATE_FORMULA, UpdateFormulaValues(p), data[i..], i, accepts)
                 == Decode(UPDATE_FORMULA, UpdateFormulaValues(r.value.0), data[r.value.1..], r.value.1, accepts)
    ensures r.Err? ==> Decode(UPDATE_FORMULA, UpdateFormulaValues(p), data[i..], i, accepts) == Err(r.error)
  {
    hide Step;
    hide AtField;
    hide Decode;
    hide Typed;
    hide AllTyped;
    hide FromBytes;
    var next: MsgUpdateFormulaParams, to: nat;
    ghost var cur := UpdateFormulaValues(p);
    var tag := TakeTag(data, i, UPDATE_FORMULA, cur, accepts);
    if tag.Err? {
      return Err(tag.error);
    }
    var (num, t, at) := tag.value;
    match num {
      case 1 =>
        var f := TakeText(data, i, 1, t, at, UPDATE_FORMULA, cur, accepts);
        if f.Err? {
          return Err(f.error);
        }
        next, to := p.(authority := f.value.0), f.value.1;
        assert UpdateFormulaValues(next) == cur[0 := Bytes(next.authority)];
      case 2 =>
        var f := TakeScalar(data, i, 2, t, at, UPDATE_FORMULA, cur, accepts);
        if f.Err? {
          return Err(f.error);
        }
        next, to := p.(enabled := f.value.0 != 0), f.value.1;
        assert UpdateFormulaValues(next) == cur[1 := Bool(next.enabled)];
      case 3 =>
        var f := TakePayload(data, i, 3, t, at, DecimalCodec, UPDATE_FORMULA, cur, accepts);
        if f.Err? {
          return Err(f.error);
        }
        next, to := p.(ratePerDay := f.value.0), f.value.1;
        assert UpdateFormulaValues(next) == cur[2 := Bytes(next.ratePerDay)];
      case 4 =>
        var f := TakePayload(data, i, 4, t, at, IntegerCodec, UPDATE_FORMULA, cur, accepts);
        if f.Err? {
          return Err(f.error);
        }
        next, to := p.(floorPerDay := f.value.0), f.value.1;
        assert UpdateFormulaValues(next) == cur[3 := Bytes(next.floorPerDay)];
      case 5 =>
        var f := TakePayload(data, i, 5, t, at, IntegerCodec, UPDATE_FORMULA, cur, accepts);
        if f.Err? {
          return Err(f.error);
        }
        next, to := p.(capPerDay := f.value.0), f.value.1;
        assert UpdateFormulaValues(next) == cur[4 := Bytes(next.capPerDay)];
      case 6 =>
        var f := TakeScalar(data, i, 6, t, at, UPDATE_FORMULA, cur, accepts);
        if f.Err? {
          return Err(f.error);
        }
        next, to := p.(blocksPerDay := f.value.0), f.value.1;
        assert UpdateFormulaValues(next) == cur[5 := Uint(next.blocksPerDay)];
      case 7 =>
        var f := TakeText(data, i, 7, t, at, UPDATE_FORMULA, cur, accepts);
        if f.Err? {
          return Err(f.error);
        }
        next, to := p.(rewardDenom := f.value.0), f.value.1;
        assert UpdateFormulaValues(next) == cur[6 := Bytes(next.rewardDenom)];
      case 8 =>
        var f := TakePayload(data, i, 8, t, at, IntegerCodec, UPDATE_FORMULA, cur, accepts);
        if f.Err? {
          return Err(f.error);
        }
        next, to := p.(maxTotalPerDay := f.value.0), f.value.1;
        assert UpdateFormulaValues(next) == cur[7 := Bytes(next.maxTotalPerDay)];
      case _ =>
        var f := TakeUnknown(data, i, num, t, at, UPDATE_FORMULA, cur, accepts);
        if f.Err? {
          return Err(f.error);
        }
        next, to := p, f.value;
    }
    return Ok((next, to));
  }

  method UnmarshalUpdateFormula(m: MsgUpdateFormulaParams, data: seq<Byte>, accepts: Decoders)
    returns (r: Result<MsgUpdateFormulaParams, Error>)
    ensures match r
            case Ok(p) => Decode(UPDATE_FORMULA, UpdateFormulaValues(m), data, 0, accepts) == Ok(UpdateFormulaValues(p))
            case Err(e) => Decode(UPDATE_FORMULA, UpdateFormulaValues(m), data, 0, accepts) == Err(e)
    ensures forall q ::
              Decode(UPDATE_FORMULA, UpdateFormulaValues(m), data, 0, accepts) == Ok(UpdateFormulaValues(q)) ==>
                r == Ok(q)
  {
    hide Decode;
    ghost var whole := Decode(UPDATE_FORMULA, UpdateFormulaValues(m), data, 0, accepts);
    assert data[0..] == data;
    var p, i := m, 0;
    while i < |data|
      invariant 0 <= i <= |data|
      invariant whole == Decode(UPDATE_FORMULA, UpdateFormulaValues(p), data[i..], i, accepts)
    {
      var f := UpdateFormulaField(p, data, i, accepts);
      if f.Err? {
        return Err(f.error);
      }
      p, i := f.value.0, f.value.1;
    }
    DecodeNothing(UPDATE_FORMULA, UpdateFormulaValues(p), i, accepts);
    assert data[i..] == [];
    UpdateFormulaApart(p);
    return Ok(p);
  }

  // ---- one field at a time ----

  lemma ReadsDelimited(ks: seq<Kind>, cur: seq<Value>, k: nat, tag: Byte, bytes: seq<Byte>, v: Value,
                       next: seq<Value>, accepts: Decoders)
    requires AllTyped(ks, cur) && k < |ks| < 16 && tag == 8 * (k + 1) + 2 < 128
        && 1 + |Varint(|bytes|)| + |bytes| < TWO_63
    requires WireTypeFor(ks[k]) == LengthDelimited && FromBytes(ks[k], cur[k], bytes, accepts) == Ok(v)
    requires next == cur[k := v]
    ensures Decode(ks, cur, [tag] + Varint(|bytes|) + bytes, 0, accepts) == Ok(next)
  {
    hide FromBytes;
    hide Step;
    hide Varint;
    DelimitedIs(k + 1, tag, bytes);
    var e := [tag] + Varint(|bytes|) + bytes;
    RoundTrip.StepDelimited(ks, cur, k, bytes, [], 0, accepts);
    hide Delimited;
    assert e + [] == e;
    DecodeNothing(ks, cur[k := v], |e|, accepts);
  }

  lemma ReadsScalar(ks: seq<Kind>, cur: seq<Value>, k: nat, tag: Byte, v: Uint64, next: seq<Value>, accepts: Decoders)
    requires AllTyped(ks, cur) && k < |ks| < 16 && tag == 8 * (k + 1) < 128 && WireTypeFor(ks[k]) == VarintField
    requires next == cur[k := if ks[k].BoolKind? then Bool(v != 0) else Uint(v)]
    ensures Decode(ks, cur, [tag] + Varint(v), 0, accepts) == Ok(next)
  {
    hide Step;
    hide Varint;
    TagIs(k + 1, tag);
    hide Tag;
    var e := [tag] + Varint(v);
    RoundTrip.StepScalar(ks, cur, k, v, [], 0, accepts);
    assert e + [] == e;
    DecodeNothing(ks, cur[k := if ks[k].BoolKind? then Bool(v != 0) else Uint(v)], |e|, accepts);
  }

  /** Each tag sets its own member and no other, whatever the message holds before. */
  lemma ParamsReads(m: Params, x: seq<Byte>, v: Uint64, accepts: Decoders)
    requires 1 + |Varint(|x|)| + |x| < TWO_63
    ensures Decode(PARAMS, ParamsValues(m), [0x08] + Varint(v), 0, accepts) == Ok(ParamsValues(m.(enabled := v != 0)))
    ensures Decode(PARAMS, ParamsValues(m), [0x12] + Varint(|x|) + x, 0, accepts)
         == Ok(ParamsValues(m.(rewardDenom := x)))
    ensures accepts(IntegerCodec, x) ==>
              Decode(PARAMS, ParamsValues(m), [0x1a] + Varint(|x|) + x, 0, accepts)
              == Ok(ParamsValues(m.(annualReward := x)))
    ensures Decode(PARAMS, ParamsValues(m), [0x20] + Varint(v), 0, accepts) == Ok(ParamsValues(m.(blocksPerYear := v)))
  {
    hide Decode;
    hide Varint;
    var cur := ParamsValues(m);
    ReadsScalar(PARAMS, cur, 0, 0x08, v, ParamsValues(m.(enabled := v != 0)), accepts);
    ReadsDelimited(PARAMS, cur, 1, 0x12, x, Bytes(x), ParamsValues(m.(rewardDenom := x)), accepts);
    if accepts(IntegerCodec, x) { ReadsDelimited(PARAMS, cur, 2, 0x1a, x, Bytes(x), ParamsValues(m.(annualReward :=
        x)), accepts); }
    ReadsScalar(PARAMS, cur, 3, 0x20, v, ParamsValues(m.(blocksPerYear := v)), accepts);
  }

  lemma UpdateParamsReads(m: MsgUpdateParams, x: seq<Byte>, p: Params, accepts: Decoders)
    requires 1 + |Varint(|x|)| + |x| < TWO_63
    ensures Decode(UPDATE_PARAMS, UpdateParamsValues(m), [0x0a] + Varint(|x|) + x, 0, accepts)
         == Ok(UpdateParamsValues(m.(authority := x)))
    ensures Decode(PARAMS, ParamsValues(m.params), x, 0, accepts) == Ok(ParamsValues(p)) ==>
              Decode(UPDATE_PARAMS, UpdateParamsValues(m), [0x12] + Varint(|x|) + x, 0, accepts)
              == Ok(UpdateParamsValues(m.(params := p)))
  {
    hide Decode;
    hide Varint;
    var cur := UpdateParamsValues(m);
    ReadsDelimited(UPDATE_PARAMS, cur, 0, 0x0a, x, Bytes(x), UpdateParamsValues(m.(authority := x)), accepts);
    if Decode(PARAMS, ParamsValues(m.params), x, 0, accepts) == Ok(ParamsValues(p)) {
      ReadsDelimited(UPDATE_PARAMS, cur, 1, 0x12, x, Message(ParamsValues(p)), UpdateParamsValues(m.(params :=
          p)), accepts);
    }
  }

  lemma FormulaReadsHead(m: MsgUpdateFormulaParams, x: seq<Byte>, v: Uint64, accepts: Decoders)
    requires 1 + |Varint(|x|)| + |x| < TWO_63
    ensures Decode(UPDATE_FORMULA, UpdateFormulaValues(m), [0x0a] + Varint(|x|) + x, 0, accepts)
         == Ok(UpdateFormulaValues(m.(authority := x)))
    ensures Decode(UPDATE_FORMULA, UpdateFormulaValues(m), [0x10] + Varint(v), 0, accepts)
         == Ok(UpdateFormulaValues(m.(enabled := v != 0)))
  {
    hide Decode;
    hide Varint;
    var cur := UpdateFormulaValues(m);
    ReadsDelimited(UPDATE_FORMULA, cur, 0, 0x0a, x, Bytes(x), UpdateFormulaValues(m.(authority := x)), accepts);
    ReadsScalar(UPDATE_FORMULA, cur, 1, 0x10, v, UpdateFormulaValues(m.(enabled := v != 0)), accepts);
  }

  lemma FormulaReadsTail(m: MsgUpdateFormulaParams, x: seq<Byte>, v: Uint64, accepts: Decoders)
    requires 1 + |Varint(|x|)| + |x| < TWO_63
    ensures Decode(UPDATE_FORMULA, UpdateFormulaValues(m), [0x30] + Varint(v), 0, accepts)
         == Ok(UpdateFormulaValues(m.(blocksPerDay := v)))
    ensures Decode(UPDATE_FORMULA, UpdateFormulaValues(m), [0x3a] + Varint(|x|) + x, 0, accepts)
         == Ok(UpdateFormulaValues(m.(rewardDenom := x)))
  {
    hide Decode;
    hide Varint;
    var cur := UpdateFormulaValues(m);
    ReadsScalar(UPDATE_FORMULA, cur, 5, 0x30, v, UpdateFormulaValues(m.(blocksPerDay := v)), accepts);
    ReadsDelimited(UPDATE_FORMULA, cur, 6, 0x3a, x, Bytes(x), UpdateFormulaValues(m.(rewardDenom := x)), accepts);
  }

  lemma FormulaReadsRates(m: MsgUpdateFormulaParams, x: seq<Byte>, accepts: Decoders)
    requires 1 + |Varint(|x|)| + |x| < TWO_63
    ensures accepts(DecimalCodec, x) ==>
              Decode(UPDATE_FORMULA, UpdateFormulaValues(m), [0x1a] + Varint(|x|) + x, 0, accepts)
              == Ok(UpdateFormulaValues(m.(ratePerDay := x)))
    ensures accepts(IntegerCodec, x) ==>
              Decode(UPDATE_FORMULA, UpdateFormulaValues(m), [0x22] + Varint(|x|) + x, 0, accepts)
              == Ok(UpdateFormulaValues(m.(floorPerDay := x)))
  {
    hide Decode;
    hide Varint;
    var cur := UpdateFormulaValues(m);
    if accepts(DecimalCodec, x) {
      ReadsDelimited(UPDATE_FORMULA, cur, 2, 0x1a, x, Bytes(x), UpdateFormulaValues(m.(ratePerDay := x)), accepts);
    }
    if accepts(IntegerCodec, x) {
      ReadsDelimited(UPDATE_FORMULA, cur, 3, 0x22, x, Bytes(x), UpdateFormulaValues(m.(floorPerDay := x)), accepts);
    }
  }

  lemma FormulaReadsLimits(m: MsgUpdateFormulaParams, x: seq<Byte>, accepts: Decoders)
    requires 1 + |Varint(|x|)| + |x| < TWO_63
    ensures accepts(IntegerCodec, x) ==>
              Decode(UPDATE_FORMULA, UpdateFormulaValues(m), [0x2a] + Varint(|x|) + x, 0, accepts)
              == Ok(UpdateFormulaValues(m.(capPerDay := x)))
    ensures accepts(IntegerCodec, x) ==>
              Decode(UPDATE_FORMULA, UpdateFormulaValues(m), [0x42] + Varint(|x|) + x, 0, accepts)
              == Ok(UpdateFormulaValues(m.(maxTotalPerDay := x)))
  {
    hide Decode;
    hide Varint;
    var cur := UpdateFormulaValues(m);
    if accepts(IntegerCodec, x) {
      ReadsDelimited(UPDATE_FORMULA, cur, 4, 0x2a, x, Bytes(x), UpdateFormulaValues(m.(capPerDay := x)), accepts);
      ReadsDelimited(UPDATE_FORMULA, cur, 7, 0x42, x, Bytes(x), UpdateFormulaValues(m.(maxTotalPerDay := x)), accepts);
    }
  }

  lemma UpdateFormulaReads(m: MsgUpdateFormulaParams, x: seq<Byte>, v: Uint64, accepts: Decoders)
    requires 1 + |Varint(|x|)| + |x| < TWO_63
    ensures Decode(UPDATE_FORMULA, UpdateFormulaValues(m), [0x0a] + Varint(|x|) + x, 0, accepts)
         == Ok(UpdateFormulaValues(m.(authority := x)))
    ensures Decode(UPDATE_FORMULA, UpdateFormulaValues(m), [0x10] + Varint(v), 0, accepts)
         == Ok(UpdateFormulaValues(m.(enabled := v != 0)))
    ensures accepts(DecimalCodec, x) ==>
              Decode(UPDATE_FORMULA, UpdateFormulaValues(m), [0x1a] + Varint(|x|) + x, 0, accepts)
              == Ok(UpdateFormulaValues(m.(ratePerDay := x)))
    ensures accepts(IntegerCodec, x) ==>
              Decode(UPDATE_FORMULA, UpdateFormulaValues(m), [0x22] + Varint(|x|) + x, 0, accepts)
              == Ok(UpdateFormulaValues(m.(floorPerDay := x)))
    ensures accepts(IntegerCodec, x) ==>
              Decode(UPDATE_FORMULA, UpdateFormulaValues(m), [0x2a] + Varint(|x|) + x, 0, accepts)
              == Ok(UpdateFormulaValues(m.(capPerDay := x)))
    ensures Decode(UPDATE_FORMULA, UpdateFormulaValues(m), [0x30] + Varint(v), 0, accepts)
         == Ok(UpdateFormulaValues(m.(blocksPerDay := v)))
    ensures Decode(UPDATE_FORMULA, UpdateFormulaValues(m), [0x3a] + Varint(|x|) + x, 0, accepts)
         == Ok(UpdateFormulaValues(m.(rewardDenom := x)))
    ensures accepts(IntegerCodec, x) ==>
              Decode(UPDATE_FORMULA, UpdateFormulaValues(m), [0x42] + Varint(|x|) + x, 0, accepts)
              == Ok(UpdateFormulaValues(m.(maxTotalPerDay := x)))
  {
    hide *;
    FormulaReadsHead(m, x, v, accepts);
    FormulaReadsRates(m, x, accepts);
    FormulaReadsLimits(m, x, accepts);
    FormulaReadsTail(m, x, v, accepts);
  }

  // ---- there and back ----

  lemma ParamsBack(m: Params, accepts: Decoders)
    requires accepts(IntegerCodec, m.annualReward) && ParamsSize(m) < TWO_63
    ensures Decode(PARAMS, ParamsValues(NO_PARAMS), Encode(PARAMS, ParamsValues(m), 1), 0, accepts)
         == Ok(ParamsValues(m))
  {
    hide Encode;
    hide Decode;
    ParamsSizeIsExact(m);
    assert ParamsValues(NO_PARAMS) == Zeros(PARAMS);
    assert RoundTrip.Numbered(PARAMS) && RoundTrip.Accepted(PARAMS, ParamsValues(m), accepts);
    RoundTrip.UnmarshalMarshal(PARAMS, ParamsValues(m), accepts);
  }

  lemma UpdateParamsBack(m: MsgUpdateParams, accepts: Decoders)
    requires accepts(IntegerCodec, m.params.annualReward) && UpdateParamsSize(m) < TWO_63
    ensures Decode(UPDATE_PARAMS, UpdateParamsValues(MsgUpdateParams([], NO_PARAMS)),
                   Encode(UPDATE_PARAMS, UpdateParamsValues(m), 1), 0, accepts) == Ok(UpdateParamsValues(m))
  {
    hide Encode;
    hide Decode;
    UpdateParamsSizeIsExact(m);
    assert ParamsValues(NO_PARAMS) == Zeros(PARAMS);
    assert UpdateParamsValues(MsgUpdateParams([], NO_PARAMS)) == Zeros(UPDATE_PARAMS);
    assert RoundTrip.Numbered(PARAMS) && RoundTrip.Accepted(PARAMS, ParamsValues(m.params), accepts);
    assert RoundTrip.Numbered(UPDATE_PARAMS) && RoundTrip.Accepted(UPDATE_PARAMS, UpdateParamsValues(m), accepts);
    RoundTrip.UnmarshalMarshal(UPDATE_PARAMS, UpdateParamsValues(m), accepts);
  }

  const NO_FORMULA := MsgUpdateFormulaParams([], false, [], [], [], 0, [], [])

  lemma ZeroFormula()
    ensures UpdateFormulaValues(NO_FORMULA) == Zeros(UPDATE_FORMULA)
  {
    var z, v := Zeros(UPDATE_FORMULA), UpdateFormulaValues(NO_FORMULA);
    hide Zeros;
    assert |z| == |v| == 8;
    assert z[0] == v[0] && z[1] == v[1] && z[2] == v[2] && z[3] == v[3];
    assert z[4] == v[4] && z[5] == v[5] && z[6] == v[6] && z[7] == v[7];
  }

  lemma UpdateFormulaBack(m: MsgUpdateFormulaParams, accepts: Decoders)
    requires accepts(DecimalCodec, m.ratePerDay) && accepts(IntegerCodec, m.floorPerDay)
        && accepts(IntegerCodec, m.capPerDay) && accepts(IntegerCodec, m.maxTotalPerDay)
    requires UpdateFormulaSize(m) < TWO_63
    ensures Decode(UPDATE_FORMULA, UpdateFormulaValues(NO_FORMULA), Encode(UPDATE_FORMULA, UpdateFormulaValues(m), 1),
        0, accepts)
         == Ok(UpdateFormulaValues(m))
  {
    hide Encode;
    hide Decode;
    UpdateFormulaSizeIsExact(m);
    ZeroFormula();
    hide Zeros;
    assert RoundTrip.Numbered(UPDATE_FORMULA) && RoundTrip.Accepted(UPDATE_FORMULA, UpdateFormulaValues(m), accepts);
    RoundTrip.UnmarshalMarshal(UPDATE_FORMULA, UpdateFormulaValues(m), accepts);
  }

  method ParamsRoundTrip(m: Params, accepts: Decoders) returns (r: Result<Params, Error>)
    requires accepts(IntegerCodec, m.annualReward) && ParamsSize(m) < TWO_63
    ensures r == Ok(m)
  {
    ParamsBack(m, accepts);
    var bytes := MarshalParams(m);
    r := UnmarshalParams(NO_PARAMS, bytes[..], accepts);
  }

  method UpdateParamsRoundTrip(m: MsgUpdateParams, accepts: Decoders) returns (r: Result<MsgUpdateParams, Error>)
    requires accepts(IntegerCodec, m.params.annualReward) && UpdateParamsSize(m) < TWO_63
    ensures r == Ok(m)
  {
    UpdateParamsBack(m, accepts);
    var bytes := MarshalUpdateParams(m);
    r := UnmarshalUpdateParams(MsgUpdateParams([], NO_PARAMS), bytes[..], accepts);
  }

  method UpdateFormulaRoundTrip(m: MsgUpdateFormulaParams, accepts: Decoders)
    returns (r: Result<MsgUpdateFormulaParams, Error>)
    requires accepts(DecimalCodec, m.ratePerDay) && accepts(IntegerCodec, m.floorPerDay)
        && accepts(IntegerCodec, m.capPerDay) && accepts(IntegerCodec, m.maxTotalPerDay)
    requires UpdateFormulaSize(m) < TWO_63
    ensures r == Ok(m)
  {
    UpdateFormulaBack(m, accepts);
    var bytes := MarshalUpdateFormula(m);
    r := UnmarshalUpdateFormula(NO_FORMULA, bytes[..], accepts);
  }
}
