/** The value the EVM transaction indexer stores, and its generated protobuf code
    (types/indexer.pb.go). */
module TxResultCodec {
  import opened Bits
  import opened Options
  import Varint
  import opened Records

  datatype TxResult = TxResult(
    height: int64,
    txIndex: uint32,
    msgIndex: uint32,
    ethTxIndex: int32,
    failed: bool,
    gasUsed: uint64,
    cumulativeGasUsed: uint64)

  const ZERO := TxResult(0, 0, 0, 0, false, 0, 0)

  const SCHEMA: Schema := map[1 := 0, 2 := 0, 3 := 0, 4 := 0, 5 := 0, 6 := 0, 7 := 0]

  // ------------------------------------------------------------------ encoding

  /** A field number with its value as the 64-bit pattern that is written. */
  datatype Field = Field(num: int, bits: uint64)

  function Fields(m: TxResult): seq<Field> {
    [ Field(1, ToUint64(m.height)),
      Field(2, m.txIndex),
      Field(3, m.msgIndex),
      Field(4, ToUint64(m.ethTxIndex)),
      Field(5, if m.failed then 1 else 0),
      Field(6, m.gasUsed),
      Field(7, m.cumulativeGasUsed) ]
  }

  predicate Numbered(fs: seq<Field>) {
    forall f :: f in fs ==> 1 <= f.num <= 7
  }

  /** Zero values are not written; the tag is the field number and wire type 0. */
  function FieldBytes(f: Field): seq<byte>
    requires 1 <= f.num <= 7
  {
    if f.bits == 0 then [] else [f.num * 8] + Varint.Encode(f.bits)
  }

  /** The fields from index `i` on, in order. */
  function EncodeFields(fs: seq<Field>, i: nat): seq<byte>
    requires Numbered(fs) && i <= |fs|
    decreases |fs| - i
  {
    if i == |fs| then [] else FieldBytes(fs[i]) + EncodeFields(fs, i + 1)
  }

  function Encode(m: TxResult): seq<byte> {
    EncodeFields(Fields(m), 0)
  }

  /** What Size adds for a number: nothing for zero, else its tag and its varint. */
  function NumberSize(bits: uint64): nat {
    if bits != 0 then 1 + Varint.Sov(bits) else 0
  }

  /** Size, field by field as the source counts. */
  function Size(m: TxResult): nat {
    NumberSize(ToUint64(m.height))
    + NumberSize(m.txIndex)
    + NumberSize(m.msgIndex)
    + NumberSize(ToUint64(m.ethTxIndex))
    + (if m.failed then 2 else 0)
    + NumberSize(m.gasUsed)
    + NumberSize(m.cumulativeGasUsed)
  }

  lemma {:induction false} FieldSize(f: Field)
    requires 1 <= f.num <= 7
    ensures |FieldBytes(f)| == NumberSize(f.bits)
  {
    Varint.SovIsLength(f.bits);
  }

  /** The encoding built from its end, as the encoder writes it. */
  lemma {:induction false} Unrolled(m: TxResult)
    ensures var fs := Fields(m);
            && EncodeFields(fs, 7) == []
            && EncodeFields(fs, 6) == FieldBytes(fs[6]) + EncodeFields(fs, 7)
            && EncodeFields(fs, 5) == FieldBytes(fs[5]) + EncodeFields(fs, 6)
            && EncodeFields(fs, 4) == FieldBytes(fs[4]) + EncodeFields(fs, 5)
            && EncodeFields(fs, 3) == FieldBytes(fs[3]) + EncodeFields(fs, 4)
            && EncodeFields(fs, 2) == FieldBytes(fs[2]) + EncodeFields(fs, 3)
            && EncodeFields(fs, 1) == FieldBytes(fs[1]) + EncodeFields(fs, 2)
            && Encode(m) == FieldBytes(fs[0]) + EncodeFields(fs, 1)
  {
    hide FieldBytes;
  }

  lemma {:induction false} EncodeLength(m: TxResult)
    ensures var fs := Fields(m);
            |Encode(m)| == |FieldBytes(fs[0])| + |FieldBytes(fs[1])| + |FieldBytes(fs[2])| + |FieldBytes(fs[3])|
                           + |FieldBytes(fs[4])| + |FieldBytes(fs[5])| + |FieldBytes(fs[6])|
  {
    Unrolled(m);
    hide FieldBytes, EncodeFields, Encode, Fields;
  }

  /** Size gives the exact length of the encoding. */
  lemma {:induction false} SizeIsLength(m: TxResult)
    ensures Size(m) == |Encode(m)|
  {
    EncodeLength(m);
    assert NumberSize(1) == 2 by { Varint.SovIsLength(1); }
    hide NumberSize, ToUint64, FieldBytes, EncodeFields, Encode;
    var fs := Fields(m);
    FieldSize(fs[0]);
    FieldSize(fs[1]);
    FieldSize(fs[2]);
    FieldSize(fs[3]);
    FieldSize(fs[4]);
    FieldSize(fs[5]);
    FieldSize(fs[6]);
  }

  /** One optional block of MarshalToSizedBuffer: the value in front of `i`, then
      the tag in front of the value. */
  method PutField(dAtA: array<byte>, i: nat, f: Field) returns (j: nat)
    requires 1 <= f.num <= 7 && |FieldBytes(f)| <= i <= dAtA.Length
    modifies dAtA
    ensures j == i - |FieldBytes(f)|
    ensures dAtA[j..] == FieldBytes(f) + old(dAtA[i..])
    ensures forall k :: 0 <= k < j ==> dAtA[k] == old(dAtA[k])
  {
    hide Varint.Encode;
    j := i;
    if f.bits != 0 {
      j := Varint.EncodeVarint(dAtA, j, f.bits);
      ghost var written := dAtA[j..];
      j := j - 1;
      dAtA[j] := f.num * 8;
      assert dAtA[j..] == [f.num * 8] + written;
      ConcatAssoc([f.num * 8], Varint.Encode(f.bits), old(dAtA[i..]));
    }
  }

  /** Fills the end of the buffer, last field first. */
  method MarshalToSizedBuffer(m: TxResult, dAtA: array<byte>) returns (n: nat)
    requires |Encode(m)| <= dAtA.Length
    modifies dAtA
    ensures n == |Encode(m)|
    ensures dAtA[dAtA.Length - n..] == Encode(m)
    ensures dAtA[..dAtA.Length - n] == old(dAtA[..dAtA.Length - n])
  {
    Unrolled(m);
    hide EncodeFields, FieldBytes, Encode;
    var fs := Fields(m);
    var i := dAtA.Length;
    i := PutField(dAtA, i, fs[6]);
    i := PutField(dAtA, i, fs[5]);
    i := PutField(dAtA, i, fs[4]);
    i := PutField(dAtA, i, fs[3]);
    i := PutField(dAtA, i, fs[2]);
    i := PutField(dAtA, i, fs[1]);
    i := PutField(dAtA, i, fs[0]);
    n := dAtA.Length - i;
  }

  /** Marshal allocates Size bytes and fills all of them. */
  method Marshal(m: TxResult) returns (bz: seq<byte>)
    ensures bz == Encode(m)
  {
    SizeIsLength(m);
    var size := Size(m);
    var dAtA := new byte[size];
    var n := MarshalToSizedBuffer(m, dAtA);
    bz := dAtA[..n];
    assert dAtA[size - n..] == dAtA[..n];
  }

  // ------------------------------------------------------------------ decoding

  /** What a decoded field does to the struct: its bits, truncated to its width. */
  function Apply(m: TxResult, u: Update): TxResult {
    match u
    case Bytes(_, _) => m
    case Number(f, raw) =>
      if f == 1 then m.(height := ToInt64(raw))
      else if f == 2 then m.(txIndex := raw % TWO_32)
      else if f == 3 then m.(msgIndex := raw % TWO_32)
      else if f == 4 then m.(ethTxIndex := ToInt32(raw))
      else if f == 5 then m.(failed := raw % TWO_64 != 0)
      else if f == 6 then m.(gasUsed := raw % TWO_64)
      else if f == 7 then m.(cumulativeGasUsed := raw % TWO_64)
      else m
  }

  function DecodeOnto(d: seq<byte>, m: TxResult): Option<TxResult> {
    Decode(SCHEMA, Apply, d, 0, m)
  }

  /** The case of field `f` in the decoder's switch: the value loop runs on a
      word of the field's width. */
  method ReadField(d: seq<byte>, i: nat, f: int, m: TxResult) returns (ok: bool, m': TxResult, next: nat)
    requires i <= |d| && 1 <= f <= 7
    ensures ok <==> Varint.Read(d, i).Some?
    ensures ok ==> m' == Apply(m, Number(f, Varint.Read(d, i).value.0)) && next == Varint.Read(d, i).value.1
  {
    m' := m;
    if 2 <= f <= 4 {
      var v: uint32;
      ok, v, next := Varint.ReadUint32(d, i);
      if ok {
        m' := if f == 2 then m.(txIndex := v) else if f == 3 then m.(msgIndex := v)
              else m.(ethTxIndex := ToInt32(v));
      }
    } else {
      var v: uint64;
      ok, v, next := Varint.ReadUint64(d, i);
      if ok {
        m' := if f == 1 then m.(height := ToInt64(v)) else if f == 5 then m.(failed := v != 0)
              else if f == 6 then m.(gasUsed := v) else m.(cumulativeGasUsed := v);
      }
    }
  }

  /** One turn of the Unmarshal loop. */
  method UnmarshalRecord(d: seq<byte>, i: nat, m: TxResult) returns (ok: bool, m': TxResult, next: nat)
    requires i < |d| < TWO_63
    ensures ok <==> Step(SCHEMA, d, i).Some?
    ensures ok ==> m' == Fold(Apply, m, Step(SCHEMA, d, i).value.0) && next == Step(SCHEMA, d, i).value.1
  {
    ok, m', next := false, m, i;
    var more, wire, iNdEx := Varint.ReadUint64(d, i);
    if !more { return; }
    Wire.TagBits(Varint.Read(d, i).value.0);
    hide Varint.Read, Wire.SkipFrom;
    var fieldNum := ToInt32(wire / 8);
    var wireType := wire % 8;
    if wireType == 4 { return; }
    if fieldNum <= 0 { return; }
    if 1 <= fieldNum <= 7 {
      if wireType != 0 { return; }
      ok, m', next := ReadField(d, iNdEx, fieldNum, m);
      if ok {
        ghost var u := Number(fieldNum, Varint.Read(d, iNdEx).value.0);
        assert Fold(Apply, m, [u]) == Apply(m, u) by { assert [u][1..] == []; }
      }
    } else {
      var fine, skippy := Wire.Skip(d, i);
      if !fine { return; }
      if skippy > |d| { return; }
      ok, next := true, skippy;
    }
  }

  /** Unmarshal onto a struct. Success means that the whole input was read. */
  method Unmarshal(d: seq<byte>, m: TxResult) returns (r: Option<TxResult>)
    requires |d| < TWO_63
    ensures r == DecodeOnto(d, m)
  {
    hide Step;
    var m', iNdEx := m, 0;
    while iNdEx < |d|
      invariant 0 <= iNdEx <= |d|
      invariant DecodeOnto(d, m) == Decode(SCHEMA, Apply, d, iNdEx, m')
    {
      ghost var before := m';
      ghost var at := iNdEx;
      var ok;
      ok, m', iNdEx := UnmarshalRecord(d, iNdEx, m');
      if !ok { return None; }
      DecodeNext(SCHEMA, Apply, d, at, before);
    }
    return Some(m');
  }

  // ---------------------------------------------------------------- round trip

  function RecordsFor(fs: seq<Field>, i: nat): seq<Record>
    requires Numbered(fs) && i <= |fs|
    decreases |fs| - i
  {
    if i == |fs| then []
    else if fs[i].bits == 0 then RecordsFor(fs, i + 1)
    else [NumberRecord([fs[i].num * 8], Varint.Encode(fs[i].bits))] + RecordsFor(fs, i + 1)
  }

  /** Sets the nonzero fields from index `i` on. */
  function SetAll(m: TxResult, fs: seq<Field>, i: nat): TxResult
    requires i <= |fs|
    decreases |fs| - i
  {
    if i == |fs| then m else SetAll(SetField(m, fs[i]), fs, i + 1)
  }

  function SetField(m: TxResult, f: Field): TxResult {
    if f.bits == 0 then m else Apply(m, Number(f.num, f.bits))
  }

  lemma {:induction false} OneField(f: Field)
    requires 1 <= f.num <= 7 && f.bits != 0
    ensures var r := NumberRecord([f.num * 8], Varint.Encode(f.bits));
            Fits(SCHEMA, r) && UpdateOf(r) == [Number(f.num, f.bits)] && PrintRecord(r) == FieldBytes(f)
  {
    Varint.EncodeIsVarint(f.bits);
    var tag: seq<byte> := [f.num * 8];
    assert Varint.Value(tag) == f.num * 8 by { assert Varint.Value(tag[1..]) == 0; }
    FieldNumSmall(f.num * 8);
    hide Varint.Value, FieldNum, Varint.Encode;
  }

  /** The encoding is the run of records of its nonzero fields, and decoding it
      sets exactly these. */
  lemma {:induction false} EncodedFields(fs: seq<Field>, i: nat, m: TxResult)
    requires Numbered(fs) && i <= |fs|
    ensures var rs := RecordsFor(fs, i);
            && AllFit(SCHEMA, rs)
            && PrintRecords(rs) == EncodeFields(fs, i)
            && Fold(Apply, m, UpdatesOf(rs)) == SetAll(m, fs, i)
    decreases |fs| - i
  {
    assert PrintRecords([]) == [] && UpdatesOf([]) == [] && Fold(Apply, m, []) == m;
    if i < |fs| && fs[i].bits != 0 { OneField(fs[i]); }
    if i < |fs| && fs[i].bits == 0 { assert FieldBytes(fs[i]) == []; }
    hide Fits, Apply, FieldBytes, PrintRecord, UpdateOf, PrintRecords, UpdatesOf, Fold, Varint.Encode;
    if i < |fs| {
      var f := fs[i];
      if f.bits == 0 {
        EncodedFields(fs, i + 1, m);
      } else {
        var r, u := NumberRecord([f.num * 8], Varint.Encode(f.bits)), Number(f.num, f.bits);
        var rest := RecordsFor(fs, i + 1);
        EncodedFields(fs, i + 1, Apply(m, u));
        RecordsCons(SCHEMA, r, rest);
        FoldCons(Apply, m, u, UpdatesOf(rest));
      }
    }
  }

  /** Setting the nonzero fields of `m` in the zero struct gives `m`. */
  lemma {:induction false} SetAllFields(m: TxResult)
    ensures SetAll(ZERO, Fields(m), 0) == m
  {
    var fs := Fields(m);
    var m1 := ZERO.(height := m.height);
    var m2 := m1.(txIndex := m.txIndex);
    var m3 := m2.(msgIndex := m.msgIndex);
    var m4 := m3.(ethTxIndex := m.ethTxIndex);
    var m5 := m4.(failed := m.failed);
    var m6 := m5.(gasUsed := m.gasUsed);
    assert SetField(ZERO, fs[0]) == m1 && SetField(m1, fs[1]) == m2 && SetField(m2, fs[2]) == m3;
    assert SetField(m3, fs[3]) == m4 && SetField(m4, fs[4]) == m5 && SetField(m5, fs[5]) == m6;
    assert SetField(m6, fs[6]) == m;
    hide SetField;
    assert SetAll(m6, fs, 6) == m;
    assert SetAll(m4, fs, 4) == SetAll(m5, fs, 5) == SetAll(m6, fs, 6);
    assert SetAll(m2, fs, 2) == SetAll(m3, fs, 3) == SetAll(m4, fs, 4);
    assert SetAll(ZERO, fs, 0) == SetAll(m1, fs, 1) == SetAll(m2, fs, 2);
  }

  /** Every TxResult, negative heights and indices included, comes back from its
      encoding unchanged. */
  lemma {:induction false} RoundTrip(m: TxResult)
    ensures DecodeOnto(Encode(m), ZERO) == Some(m)
  {
    EncodedFields(Fields(m), 0, ZERO);
    SetAllFields(m);
    assert Encode(m)[0..] == Encode(m);
    ParsePrinted(SCHEMA, Encode(m), 0, RecordsFor(Fields(m), 0));
  }

  /** The encoding is empty exactly for the zero struct. */
  lemma {:induction false} EncodeEmpty(m: TxResult)
    ensures Encode(m) == [] <==> m == ZERO
  {
    Unrolled(m);
  }

  // ----------------------------------------------- accepted inputs and extension

  /** Unmarshal succeeds exactly on runs of fitting records: every byte is accounted
      for, and nothing else is accepted. */
  lemma {:induction false} DecodeExact(d: seq<byte>, m: TxResult)
    ensures DecodeOnto(d, m).Some? <==> exists rs :: AllFit(SCHEMA, rs) && PrintRecords(rs) == d
    ensures forall rs :: AllFit(SCHEMA, rs) && PrintRecords(rs) == d ==>
              DecodeOnto(d, m) == Some(Fold(Apply, m, UpdatesOf(rs)))
  {
    ParseExact(SCHEMA, d);
  }

  /** Two valid inputs one after the other decode as the second on top of the first. */
  lemma {:induction false} DecodeMerges(a: seq<byte>, b: seq<byte>, m: TxResult)
    requires DecodeOnto(a, m).Some? && DecodeOnto(b, m).Some?
    ensures DecodeOnto(a + b, m) == DecodeOnto(b, DecodeOnto(a, m).value)
  {
    DecodeConcat(SCHEMA, Apply, a, b, m);
  }

  /** A well-formed field of another number may be inserted between records. */
  lemma {:induction false} DecodeSkipsUnknown(a: seq<byte>, x: Wire.Item, b: seq<byte>, m: TxResult)
    requires DecodeOnto(a, m).Some? && DecodeOnto(b, m).Some?
    requires Wire.WellFormed(x) && FieldNum(Varint.Value(x.tag)) > 7
    ensures DecodeOnto(a + Wire.Print(x) + b, m) == DecodeOnto(a + b, m)
  {
    assert Fits(SCHEMA, Unknown(x));
    hide Fits, FieldNum, Parse, Wire.WellFormed;
    DecodeExtended(SCHEMA, Apply, a, x, b, m);
  }

  // --------------------------------------------------------------- the bytes on disk

  /** A number behind its tag; zero is not written. */
  function Tagged(tag: byte, v: uint64): seq<byte> {
    if v == 0 then [] else [tag] + Varint.Encode(v)
  }

  /** The encoding is the fields in the order of their numbers 1 to 7, each with its tag;
      signed numbers are written as 64-bit two's complement. */
  lemma {:induction false} EncodeFormat(m: TxResult)
    ensures var height := if m.height < 0 then m.height + TWO_64 else m.height;
            var ethTxIndex := if m.ethTxIndex < 0 then m.ethTxIndex + TWO_64 else m.ethTxIndex;
            var failed := if m.failed then 1 else 0;
            Encode(m) == Tagged(0x08, height) + (Tagged(0x10, m.txIndex) + (Tagged(0x18, m.msgIndex)
                         + (Tagged(0x20, ethTxIndex) + (Tagged(0x28, failed)
                         + (Tagged(0x30, m.gasUsed) + Tagged(0x38, m.cumulativeGasUsed))))))
  {
    hide FieldBytes, Tagged, EncodeFields, Encode, ToUint64;
    Unrolled(m);
    var fs := Fields(m);
    FieldTagged(fs[0]);
    FieldTagged(fs[1]);
    FieldTagged(fs[2]);
    FieldTagged(fs[3]);
    FieldTagged(fs[4]);
    FieldTagged(fs[5]);
    FieldTagged(fs[6]);
    assert Tagged(0x38, m.cumulativeGasUsed) + [] == Tagged(0x38, m.cumulativeGasUsed);
  }

  lemma {:induction false} FieldTagged(f: Field)
    requires 1 <= f.num <= 7
    ensures FieldBytes(f) == Tagged(8 * f.num, f.bits)
  {
  }

  lemma {:induction false} NumberFits(f: int, v: uint64)
    requires 1 <= f <= 7
    ensures var r := NumberRecord([8 * f], Varint.Encode(v));
            Fits(SCHEMA, r) && UpdateOf(r) == [Number(f, v)] && PrintRecord(r) == [8 * f] + Varint.Encode(v)
  {
    Varint.EncodeIsVarint(v);
    var tag: seq<byte> := [8 * f];
    assert Varint.Value(tag) == 8 * f by { assert Varint.Value(tag[1..]) == 0; }
    FieldNumSmall(8 * f);
    hide Varint.Value, FieldNum, Varint.Encode;
  }

  lemma {:induction false} OneNumber(f: int, v: uint64, m: TxResult)
    requires 1 <= f <= 7
    ensures DecodeOnto([8 * f] + Varint.Encode(v), m) == Some(Apply(m, Number(f, v)))
  {
    NumberFits(f, v);
    hide Fits, PrintRecord, UpdateOf, Varint.Encode, Apply, Parse;
    var r, u := NumberRecord([8 * f], Varint.Encode(v)), Number(f, v);
    var d := [8 * f] + Varint.Encode(v);
    RecordsCons(SCHEMA, r, []);
    assert [r] + [] == [r] && d + [] == d && d[0..] == d && [u] + [] == [u];
    FoldCons(Apply, m, u, []);
    ParsePrinted(SCHEMA, d, 0, [r]);
  }

  /** What the decoder makes of a single field with any 64-bit value: the field of that
      number is set to the value cut to its width, and nothing else changes. */
  lemma {:induction false} DecodeField(v: uint64, m: TxResult)
    ensures DecodeOnto([0x08] + Varint.Encode(v), m) == Some(m.(height := if v < TWO_63 then v else v - TWO_64))
    ensures DecodeOnto([0x10] + Varint.Encode(v), m) == Some(m.(txIndex := v % TWO_32))
    ensures DecodeOnto([0x18] + Varint.Encode(v), m) == Some(m.(msgIndex := v % TWO_32))
    ensures DecodeOnto([0x20] + Varint.Encode(v), m)
            == Some(m.(ethTxIndex := if v % TWO_32 < TWO_31 then v % TWO_32 else v % TWO_32 - TWO_32))
    ensures DecodeOnto([0x28] + Varint.Encode(v), m) == Some(m.(failed := v != 0))
    ensures DecodeOnto([0x30] + Varint.Encode(v), m) == Some(m.(gasUsed := v))
    ensures DecodeOnto([0x38] + Varint.Encode(v), m) == Some(m.(cumulativeGasUsed := v))
  {
    hide DecodeOnto, Varint.Encode;
    OneNumber(1, v, m);
    OneNumber(2, v, m);
    OneNumber(3, v, m);
    OneNumber(4, v, m);
    OneNumber(5, v, m);
    OneNumber(6, v, m);
    OneNumber(7, v, m);
  }
}
