/** The Web3 extension option with its string and bytes fields, and its generated
    protobuf code (types/web3.pb.go). Strings are byte sequences. */
module Web3Codec {
  import opened Bits
  import opened Options
  import Varint
  import opened Records

  /** A Go string or slice: its length is a non-negative machine integer. */
  type Blob = s: seq<byte> | |s| < TWO_63

  datatype Web3Tx = Web3Tx(typedDataChainID: uint64, feePayer: Blob, feePayerSig: Blob)

  const ZERO := Web3Tx(0, [], [])

  const SCHEMA: Schema := map[1 := 0, 2 := 2, 3 := 2]

  // ------------------------------------------------------------------ encoding

  function NumberBytes(v: uint64): seq<byte> {
    if v == 0 then [] else [0x8] + Varint.Encode(v)
  }

  function BlobBytes(tag: byte, s: Blob): seq<byte> {
    if |s| == 0 then [] else [tag] + Varint.Encode(|s|) + s
  }

  function Encode(m: Web3Tx): seq<byte> {
    NumberBytes(m.typedDataChainID) + BlobBytes(0x12, m.feePayer) + BlobBytes(0x1a, m.feePayerSig)
  }

  function Size(m: Web3Tx): nat {
    (if m.typedDataChainID != 0 then 1 + Varint.Sov(m.typedDataChainID) else 0)
    + (if |m.feePayer| > 0 then 1 + |m.feePayer| + Varint.Sov(|m.feePayer|) else 0)
    + (if |m.feePayerSig| > 0 then 1 + |m.feePayerSig| + Varint.Sov(|m.feePayerSig|) else 0)
  }

  /** Size gives the exact length of the encoding. */
  lemma {:induction false} SizeIsLength(m: Web3Tx)
    ensures Size(m) == |Encode(m)|
  {
    Varint.SovIsLength(m.typedDataChainID);
    Varint.SovIsLength(|m.feePayer|);
    Varint.SovIsLength(|m.feePayerSig|);
    hide Varint.Sov;
  }

  /** A bytes block of MarshalToSizedBuffer: the copied body in front of `i`, its
      length in front of it, the tag first. */
  method PutBlob(dAtA: array<byte>, i: nat, tag: byte, s: Blob) returns (j: nat)
    requires |BlobBytes(tag, s)| <= i <= dAtA.Length
    modifies dAtA
    ensures j == i - |BlobBytes(tag, s)|
    ensures dAtA[j..] == BlobBytes(tag, s) + old(dAtA[i..])
    ensures forall k :: 0 <= k < j ==> dAtA[k] == old(dAtA[k])
  {
    hide Varint.Encode;
    j := i;
    if |s| > 0 {
      j := j - |s|;
      forall k | 0 <= k < |s| { dAtA[j + k] := s[k]; }
      assert dAtA[j..] == s + old(dAtA[i..]);
      j := Varint.EncodeVarint(dAtA, j, |s|);
      ghost var written := dAtA[j..];
      j := j - 1;
      dAtA[j] := tag;
      assert dAtA[j..] == [tag] + written;
      ConcatAssoc(Varint.Encode(|s|), s, old(dAtA[i..]));
      ConcatAssoc([tag], Varint.Encode(|s|) + s, old(dAtA[i..]));
      ConcatAssoc([tag], Varint.Encode(|s|), s);
    }
  }

  method PutNumber(dAtA: array<byte>, i: nat, v: uint64) returns (j: nat)
    requires |NumberBytes(v)| <= i <= dAtA.Length
    modifies dAtA
    ensures j == i - |NumberBytes(v)|
    ensures dAtA[j..] == NumberBytes(v) + old(dAtA[i..])
    ensures forall k :: 0 <= k < j ==> dAtA[k] == old(dAtA[k])
  {
    hide Varint.Encode;
    j := i;
    if v != 0 {
      j := Varint.EncodeVarint(dAtA, j, v);
      ghost var written := dAtA[j..];
      j := j - 1;
      dAtA[j] := 0x8;
      assert dAtA[j..] == [0x8] + written;
      ConcatAssoc([0x8], Varint.Encode(v), old(dAtA[i..]));
    }
  }

  /** Fills the end of the buffer, last field first. */
  method MarshalToSizedBuffer(m: Web3Tx, dAtA: array<byte>) returns (n: nat)
    requires |Encode(m)| <= dAtA.Length
    modifies dAtA
    ensures n == |Encode(m)|
    ensures dAtA[dAtA.Length - n..] == Encode(m)
    ensures forall k :: 0 <= k < dAtA.Length - n ==> dAtA[k] == old(dAtA[k])
  {
    hide BlobBytes, NumberBytes;
    var i := dAtA.Length;
    i := PutBlob(dAtA, i, 0x1a, m.feePayerSig);
    i := PutBlob(dAtA, i, 0x12, m.feePayer);
    i := PutNumber(dAtA, i, m.typedDataChainID);
    n := dAtA.Length - i;
  }

  /** Marshal allocates Size bytes and fills all of them. */
  method Marshal(m: Web3Tx) returns (bz: seq<byte>)
    ensures bz == Encode(m)
  {
    SizeIsLength(m);
    var size := Size(m);
    var dAtA := new byte[size];
    var n := MarshalToSizedBuffer(m, dAtA);
    bz := dAtA[..n];
    assert dAtA[size - n..] == dAtA[..n];
  }

  // ------------------------------------------------------------------ decoding

  function Apply(m: Web3Tx, u: Update): Web3Tx {
    match u
    case Number(f, raw) =>
      if f == 1 then m.(typedDataChainID := raw % TWO_64) else m
    case Bytes(f, body) =>
      if |body| >= TWO_63 then m
      else if f == 2 then m.(feePayer := body)
      else if f == 3 then m.(feePayerSig := body)
      else m
  }

  function DecodeOnto(d: seq<byte>, m: Web3Tx): Option<Web3Tx> {
    Decode(SCHEMA, Apply, d, 0, m)
  }

  /** The length-delimited cases: a length that is negative as a machine integer,
      wraps the cursor around or points past the input is refused. */
  method ReadBlob(d: seq<byte>, i: nat) returns (ok: bool, body: Blob, next: nat)
    requires i <= |d| < TWO_63
    ensures ok <==> Varint.Read(d, i).Some?
                    && var (len, m) := Varint.Read(d, i).value; 0 <= ToInt64(len) && m + ToInt64(len) <= |d|
    ensures ok ==> var (len, m) := Varint.Read(d, i).value;
                   next == m + ToInt64(len) && body == d[m..m + ToInt64(len)]
  {
    ok, body, next := false, [], i;
    var more, len, iNdEx := Varint.ReadUint64(d, i);
    if !more { return; }
    var intLen := ToInt64(len);
    if intLen < 0 { return; }
    var postIndex := ToInt64(iNdEx + intLen);
    if postIndex < 0 { return; }
    if postIndex > |d| { return; }
    ok, body, next := true, d[iNdEx..postIndex], postIndex;
  }

  lemma {:induction false} FoldOne(m: Web3Tx, u: Update)
    ensures Fold(Apply, m, [u]) == Apply(m, u)
  {
    assert [u][1..] == [];
  }

  /** One turn of the Unmarshal loop. */
  method UnmarshalRecord(d: seq<byte>, i: nat, m: Web3Tx) returns (ok: bool, m': Web3Tx, next: nat)
    requires i < |d| < TWO_63
    ensures ok <==> Step(SCHEMA, d, i).Some?
    ensures ok ==> m' == Fold(Apply, m, Step(SCHEMA, d, i).value.0) && next == Step(SCHEMA, d, i).value.1
  {
    ok, m', next := false, m, i;
    var more, wire, iNdEx := Varint.ReadUint64(d, i);
    if !more { return; }
    Wire.TagBits(Varint.Read(d, i).value.0);
    hide Varint.Read, Wire.SkipFrom;
    var fieldNum := ToInt32(wire / 8);
    var wireType := wire % 8;
    if wireType == 4 { return; }
    if fieldNum <= 0 { return; }
    if fieldNum == 1 {
      if wireType != 0 { return; }
      var fine, v, n := Varint.ReadUint64(d, iNdEx);
      if !fine { return; }
      FoldOne(m, Number(1, Varint.Read(d, iNdEx).value.0));
      ok, m', next := true, m.(typedDataChainID := v), n;
    } else if fieldNum == 2 || fieldNum == 3 {
      if wireType != 2 { return; }
      var fine, body, n := ReadBlob(d, iNdEx);
      if !fine { return; }
      FoldOne(m, Bytes(fieldNum, body));
      ok, m', next := true, if fieldNum == 2 then m.(feePayer := body) else m.(feePayerSig := body), n;
    } else {
      var fine, skippy := Wire.Skip(d, i);
      if !fine { return; }
      if skippy > |d| { return; }
      ok, next := true, skippy;
    }
  }

  /** Unmarshal onto a struct. Success means that the whole input was read. */
  method Unmarshal(d: seq<byte>, m: Web3Tx) returns (r: Option<Web3Tx>)
    requires |d| < TWO_63
    ensures r == DecodeOnto(d, m)
  {
    hide Step;
    var m', iNdEx := m, 0;
    while iNdEx < |d|
      invariant 0 <= iNdEx <= |d|
      invariant DecodeOnto(d, m) == Decode(SCHEMA, Apply, d, iNdEx, m')
    {
      ghost var before := m';
      ghost var at := iNdEx;
      var ok;
      ok, m', iNdEx := UnmarshalRecord(d, iNdEx, m');
      if !ok { return None; }
      DecodeNext(SCHEMA, Apply, d, at, before);
    }
    return Some(m');
  }

  // ---------------------------------------------------------------- round trip

  function NumberRecords(v: uint64): seq<Record> {
    if v == 0 then [] else [NumberRecord([0x8], Varint.Encode(v))]
  }

  function BlobRecords(tag: byte, s: Blob): seq<Record> {
    if |s| == 0 then [] else [BytesRecord([tag], Varint.Encode(|s|), s)]
  }

  function NumberUpdate(v: uint64): seq<Update> {
    if v == 0 then [] else [Number(1, v)]
  }

  function BlobUpdate(f: int, s: Blob): seq<Update> {
    if |s| == 0 then [] else [Bytes(f, s)]
  }

  lemma {:induction false} ShortTag(tag: byte)
    requires tag < 0x80
    ensures Varint.IsVarint([tag]) && Varint.Value([tag]) == tag
  {
    assert Varint.Value([tag][1..]) == 0;
  }

  lemma {:induction false} NumberPrinted(v: uint64)
    ensures var rs := NumberRecords(v);
            && AllFit(SCHEMA, rs) && PrintRecords(rs) == NumberBytes(v)
            && UpdatesOf(rs) == NumberUpdate(v)
  {
    if v != 0 {
      ShortTag(0x8);
      FieldNumSmall(0x8);
      Varint.EncodeIsVarint(v);
      hide Varint.IsVarint, Varint.Value, FieldNum, Varint.Encode;
      RecordsCons(SCHEMA, NumberRecord([0x8], Varint.Encode(v)), []);
      assert NumberRecords(v) == [NumberRecord([0x8], Varint.Encode(v))] + [];
    }
  }

  lemma {:induction false} BlobFits(tag: byte, s: Blob)
    requires (tag == 0x12 || tag == 0x1a) && |s| != 0
    ensures var r := BytesRecord([tag], Varint.Encode(|s|), s);
            Fits(SCHEMA, r) && PrintRecord(r) == BlobBytes(tag, s) && UpdateOf(r) == BlobUpdate(tag / 8, s)
  {
    hide Varint.IsVarint, Varint.Value, FieldNum, Varint.Encode, ToInt64;
    ShortTag(tag);
    FieldNumSmall(tag);
    Varint.EncodeIsVarint(|s|);
    assert Wire.IsTag([tag], 2);
  }

  lemma {:induction false} BlobPrinted(tag: byte, s: Blob)
    requires tag == 0x12 || tag == 0x1a
    ensures var rs := BlobRecords(tag, s);
            && AllFit(SCHEMA, rs) && PrintRecords(rs) == BlobBytes(tag, s)
            && UpdatesOf(rs) == BlobUpdate(tag / 8, s)
  {
    if |s| != 0 {
      var r := BytesRecord([tag], Varint.Encode(|s|), s);
      BlobFits(tag, s);
      hide Fits, PrintRecord, UpdateOf, BlobBytes, BlobUpdate, Varint.Encode;
      RecordsCons(SCHEMA, r, []);
      assert BlobRecords(tag, s) == [r] + [];
    }
  }

  /** The updates a message's encoding spells out, absent fields left out. */
  function Updates(m: Web3Tx): seq<Update> {
    NumberUpdate(m.typedDataChainID) + BlobUpdate(2, m.feePayer) + BlobUpdate(3, m.feePayerSig)
  }

  lemma {:induction false} EncodeParses(m: Web3Tx)
    ensures Parse(SCHEMA, Encode(m), 0) == Some(Updates(m))
  {
    hide PrintRecords, UpdatesOf, NumberRecords, BlobRecords, NumberBytes, BlobBytes, NumberUpdate, BlobUpdate;
    hide Fits, Parse;
    var r1 := NumberRecords(m.typedDataChainID);
    var r2, r3 := BlobRecords(0x12, m.feePayer), BlobRecords(0x1a, m.feePayerSig);
    NumberPrinted(m.typedDataChainID);
    BlobPrinted(0x12, m.feePayer);
    BlobPrinted(0x1a, m.feePayerSig);
    RecordsAppend(r1, r2);
    RecordsAppend(r1 + r2, r3);
    assert Encode(m)[0..] == Encode(m);
    ParsePrinted(SCHEMA, Encode(m), 0, r1 + r2 + r3);
  }

  /** Leaving out a zero field does no harm where the field is zero already. */
  lemma {:induction false} FoldNumber(m: Web3Tx, v: uint64)
    requires m.typedDataChainID == 0
    ensures Fold(Apply, m, NumberUpdate(v)) == m.(typedDataChainID := v)
  {
    FoldOne(m, Number(1, v));
  }

  lemma {:induction false} FoldBlob(m: Web3Tx, f: int, s: Blob)
    requires f == 2 || f == 3
    requires if f == 2 then m.feePayer == [] else m.feePayerSig == []
    ensures Fold(Apply, m, BlobUpdate(f, s)) == if f == 2 then m.(feePayer := s) else m.(feePayerSig := s)
  {
    FoldOne(m, Bytes(f, s));
  }

  /** Every extension option comes back from its encoding unchanged. */
  lemma {:induction false} RoundTrip(m: Web3Tx)
    ensures DecodeOnto(Encode(m), ZERO) == Some(m)
  {
    EncodeParses(m);
    hide Fold, Encode, NumberUpdate, BlobUpdate, Apply, Parse;
    var u1, u2, u3 := NumberUpdate(m.typedDataChainID), BlobUpdate(2, m.feePayer), BlobUpdate(3, m.feePayerSig);
    FoldAppend(Apply, ZERO, u1 + u2, u3);
    FoldAppend(Apply, ZERO, u1, u2);
    FoldNumber(ZERO, m.typedDataChainID);
    FoldBlob(Web3Tx(m.typedDataChainID, [], []), 2, m.feePayer);
    FoldBlob(Web3Tx(m.typedDataChainID, m.feePayer, []), 3, m.feePayerSig);
  }

  /** Unmarshal succeeds exactly on runs of fitting records. */
  lemma {:induction false} DecodeExact(d: seq<byte>, m: Web3Tx)
    ensures DecodeOnto(d, m).Some? <==> exists rs :: AllFit(SCHEMA, rs) && PrintRecords(rs) == d
    ensures forall rs :: AllFit(SCHEMA, rs) && PrintRecords(rs) == d ==>
              DecodeOnto(d, m) == Some(Fold(Apply, m, UpdatesOf(rs)))
  {
    ParseExact(SCHEMA, d);
  }

  // --------------------------------------------------------------- the bytes on the wire

  /** The encoding, byte by byte: each field that is not empty behind its tag, in order. */
  lemma {:induction false} EncodeFormat(m: Web3Tx)
    ensures Encode(m) == (if m.typedDataChainID == 0 then [] else [0x08] + Varint.Encode(m.typedDataChainID))
                         + (if m.feePayer == [] then [] else [0x12] + Varint.Encode(|m.feePayer|) + m.feePayer)
                         + (if m.feePayerSig == [] then [] else [0x1a] + Varint.Encode(|m.feePayerSig|) + m.feePayerSig)
  {
    hide Varint.Encode;
  }

  lemma {:induction false} OneRecord(r: Record, u: Update, m: Web3Tx)
    requires Fits(SCHEMA, r) && UpdateOf(r) == [u]
    ensures DecodeOnto(PrintRecord(r), m) == Some(Apply(m, u))
  {
    hide Fits, PrintRecord, UpdateOf, Apply, Parse;
    var d := PrintRecord(r);
    RecordsCons(SCHEMA, r, []);
    assert [r] + [] == [r] && d + [] == d && d[0..] == d && [u] + [] == [u];
    FoldOne(m, u);
    ParsePrinted(SCHEMA, d, 0, [r]);
  }

  lemma {:induction false} NumberFits(v: uint64)
    ensures var r := NumberRecord([0x8], Varint.Encode(v));
            Fits(SCHEMA, r) && PrintRecord(r) == [0x8] + Varint.Encode(v) && UpdateOf(r) == [Number(1, v)]
  {
    ShortTag(0x8);
    FieldNumSmall(0x8);
    Varint.EncodeIsVarint(v);
    hide Varint.IsVarint, Varint.Value, FieldNum, Varint.Encode;
  }

  lemma {:induction false} DecodeBlob(tag: byte, s: Blob, m: Web3Tx)
    requires (tag == 0x12 || tag == 0x1a) && s != []
    ensures DecodeOnto([tag] + Varint.Encode(|s|) + s, m) == Some(Apply(m, Bytes(tag / 8, s)))
  {
    BlobFits(tag, s);
    hide Fits, Varint.Encode, Apply, DecodeOnto;
    OneRecord(BytesRecord([tag], Varint.Encode(|s|), s), Bytes(tag / 8, s), m);
  }

  /** What the decoder makes of a single field: the field of that number is set and nothing
      else changes. */
  lemma {:induction false} DecodeField(v: uint64, s: Blob, m: Web3Tx)
    requires s != []
    ensures DecodeOnto([0x08] + Varint.Encode(v), m) == Some(m.(typedDataChainID := v))
    ensures DecodeOnto([0x12] + Varint.Encode(|s|) + s, m) == Some(m.(feePayer := s))
    ensures DecodeOnto([0x1a] + Varint.Encode(|s|) + s, m) == Some(m.(feePayerSig := s))
  {
    hide Fits, PrintRecord, UpdateOf, DecodeOnto, Varint.Encode;
    NumberFits(v);
    OneRecord(NumberRecord([0x8], Varint.Encode(v)), Number(1, v), m);
    DecodeBlob(0x12, s, m);
    DecodeBlob(0x1a, s, m);
  }
}
