/** The top level of a generated Unmarshal: a message is a run of records, known
    fields by number and wire type, everything else skipped. */
module Records {
  import opened Bits
  import opened Options
  import Varint
  import opened Wire

  /** The wire type, varint or length-delimited, of every field a message knows. */
  type Schema = s: map<int, int> | forall f :: f in s ==> f > 0 && (s[f] == 0 || s[f] == 2)
    witness map[]

  /** What one record does to the message being filled. */
  datatype Update = Number(field: int, raw: nat) | Bytes(field: int, body: seq<byte>)

  datatype Record =
    | NumberRecord(tag: seq<byte>, val: seq<byte>)
    | BytesRecord(tag: seq<byte>, len: seq<byte>, body: seq<byte>)
    | Unknown(item: Item)

  /** `int32(wire >> 3)` of a tag. */
  function FieldNum(raw: nat): int32 {
    ToInt32((raw % TWO_64) / 8)
  }

  lemma {:induction false} FieldNumSmall(tag: nat)
    requires tag < 0x80
    ensures FieldNum(tag) == tag / 8
  {
  }

  function PrintRecord(r: Record): seq<byte> {
    match r
    case NumberRecord(tag, val) => tag + val
    case BytesRecord(tag, len, body) => tag + len + body
    case Unknown(x) => Print(x)
  }

  function PrintRecords(rs: seq<Record>): seq<byte> {
    if rs == [] then [] else PrintRecord(rs[0]) + PrintRecords(rs[1..])
  }

  predicate Fits(s: Schema, r: Record) {
    match r
    case NumberRecord(tag, val) =>
      var f := FieldNum(Varint.Value(tag));
      IsTag(tag, 0) && f in s && s[f] == 0 && Varint.IsVarint(val)
    case BytesRecord(tag, len, body) =>
      var f := FieldNum(Varint.Value(tag));
      IsTag(tag, 2) && f in s && s[f] == 2 && Varint.IsVarint(len) && ToInt64(Varint.Value(len)) == |body|
    case Unknown(x) =>
      var f := FieldNum(Varint.Value(x.tag));
      WellFormed(x) && f > 0 && f !in s
  }

  predicate AllFit(s: Schema, rs: seq<Record>) {
    forall r :: r in rs ==> Fits(s, r)
  }

  function UpdateOf(r: Record): seq<Update> {
    match r
    case NumberRecord(tag, val) => [Number(FieldNum(Varint.Value(tag)), Varint.Value(val))]
    case BytesRecord(tag, len, body) => [Bytes(FieldNum(Varint.Value(tag)), body)]
    case Unknown(_) => []
  }

  function UpdatesOf(rs: seq<Record>): seq<Update> {
    if rs == [] then [] else UpdateOf(rs[0]) + UpdatesOf(rs[1..])
  }

  // ------------------------------------------------------------------- parsing

  /** One turn of the Unmarshal loop: the updates it makes and where it goes on. */
  function Step(s: Schema, d: seq<byte>, i: nat): (r: Option<(seq<Update>, nat)>)
    ensures r.Some? ==> i < r.value.1 <= |d|
  {
    match Varint.Read(d, i)
    case None => None
    case Some((raw, n)) =>
      var f, w := FieldNum(raw), raw % 8;
      if w == 4 || f <= 0 then None
      else if f in s then
        if w != s[f] then None
        else match Varint.Read(d, n)
             case None => None
             case Some((v, m)) =>
               if w == 0 then Some(([Number(f, v)], m))
               else if ToInt64(v) < 0 || m + ToInt64(v) > |d| then None
               else Some(([Bytes(f, d[m..m + ToInt64(v)])], m + ToInt64(v)))
      else match SkipFrom(d, i, 0)
           case None => None
           case Some(m) => Some(([], m))
  }

  function Parse(s: Schema, d: seq<byte>, i: nat): Option<seq<Update>>
    requires i <= |d|
    decreases |d| - i
  {
    if i == |d| then Some([])
    else match Step(s, d, i)
         case None => None
         case Some((us, n)) =>
           match Parse(s, d, n)
           case None => None
           case Some(rest) => Some(us + rest)
  }

  /** The message that results from a list of updates, the last one winning. */
  function Fold<M>(apply: (M, Update) -> M, m: M, us: seq<Update>): M
    decreases |us|
  {
    if us == [] then m else Fold(apply, apply(m, us[0]), us[1..])
  }

  function Decode<M>(s: Schema, apply: (M, Update) -> M, d: seq<byte>, i: nat, m: M): Option<M>
    requires i <= |d|
  {
    match Parse(s, d, i)
    case None => None
    case Some(us) => Some(Fold(apply, m, us))
  }

  // ------------------------------------------------ the parser against the grammar

  lemma {:induction false} StepPrinted(s: Schema, d: seq<byte>, i: nat, r: Record)
    requires Fits(s, r) && At(d, i, PrintRecord(r))
    ensures Step(s, d, i) == Some((UpdateOf(r), i + |PrintRecord(r)|))
  {
    hide SkipFrom, Varint.Read, Varint.Value;
    match r
    case NumberRecord(tag, val) =>
      AtSplit(d, i, tag, val);
      Varint.ReadSpelled(d, i, tag);
      Varint.ReadSpelled(d, i + |tag|, val);
    case BytesRecord(tag, len, body) =>
      AtThree(d, i, tag, len, body);
      Varint.ReadSpelled(d, i, tag);
      Varint.ReadSpelled(d, i + |tag|, len);
      AtUnique(d, i + |tag| + |len|, body);
    case Unknown(x) =>
      UnknownTag(d, i, x);
      SkipPrinted(d, i, x, 0);
  }

  lemma {:induction false} UnknownTag(d: seq<byte>, i: nat, x: Item)
    requires WellFormed(x) && At(d, i, Print(x))
    ensures Varint.Read(d, i) == Some((Varint.Value(x.tag), i + |x.tag|))
    ensures Varint.Value(x.tag) % 8 != 4
  {
    match x {
      case Plain(tag, body) => AtSplit(d, i, tag, body);
      case Sized(tag, len, body) => AtThree(d, i, tag, len, body);
      case Group(tag, items, close) => AtThree(d, i, tag, PrintAll(items), close);
    }
    Varint.ReadSpelled(d, i, x.tag);
  }

  /** The parser reads every run of fitting records, in any spelling, as the
      updates of those records in order. */
  lemma {:induction false} ParsePrinted(s: Schema, d: seq<byte>, i: nat, rs: seq<Record>)
    requires AllFit(s, rs) && i <= |d| && d[i..] == PrintRecords(rs)
    ensures Parse(s, d, i) == Some(UpdatesOf(rs))
    decreases rs
  {
    hide Step, Fits, PrintRecord, UpdateOf;
    if rs != [] {
      var n := i + |PrintRecord(rs[0])|;
      AtPrefix(d, i, PrintRecord(rs[0]), PrintRecords(rs[1..]));
      StepPrinted(s, d, i, rs[0]);
      ParsePrinted(s, d, n, rs[1..]);
      PrintedNotEmpty(s, rs[0]);
    }
  }

  lemma {:induction false} PrintedNotEmpty(s: Schema, r: Record)
    requires Fits(s, r)
    ensures PrintRecord(r) != []
  {
  }

  lemma {:induction false} StepSound(s: Schema, d: seq<byte>, i: nat) returns (r: Record)
    requires Step(s, d, i).Some?
    ensures Fits(s, r) && UpdateOf(r) == Step(s, d, i).value.0
    ensures PrintRecord(r) == d[i..Step(s, d, i).value.1]
  {
    hide SkipFrom, Varint.Read, Varint.Value;
    Varint.ReadSound(d, i);
    var (raw, n) := Varint.Read(d, i).value;
    var m := Step(s, d, i).value.1;
    if FieldNum(raw) in s {
      Varint.ReadSound(d, n);
      var l := Varint.Read(d, n).value.1;
      SliceJoin(d, i, n, l);
      SliceJoin(d, i, l, m);
      r := if raw % 8 == 0 then NumberRecord(d[i..n], d[n..l]) else BytesRecord(d[i..n], d[n..l], d[l..m]);
    } else {
      var x := SkipSound(d, i);
      AtSlice(d, i, m);
      UnknownTag(d, i, x);
      r := Unknown(x);
    }
  }

  /** Whatever the parser accepts is, to the last byte, a run of fitting records. */
  lemma {:induction false} ParseSound(s: Schema, d: seq<byte>, i: nat) returns (rs: seq<Record>)
    requires i <= |d| && Parse(s, d, i).Some?
    ensures AllFit(s, rs) && PrintRecords(rs) == d[i..] && UpdatesOf(rs) == Parse(s, d, i).value
    decreases |d| - i
  {
    hide Step, Fits;
    if i == |d| {
      rs := [];
    } else {
      var n := Step(s, d, i).value.1;
      var r := StepSound(s, d, i);
      var rest := ParseSound(s, d, n);
      rs := [r] + rest;
      assert rs[1..] == rest;
      SliceJoin(d, i, n, |d|);
    }
  }

  /** The accepted inputs are exactly the runs of fitting records, and the updates
      do not depend on how the input is cut into records. */
  lemma {:induction false} ParseExact(s: Schema, d: seq<byte>)
    ensures Parse(s, d, 0).Some? <==> exists rs :: AllFit(s, rs) && PrintRecords(rs) == d
    ensures forall rs :: AllFit(s, rs) && PrintRecords(rs) == d ==> Parse(s, d, 0) == Some(UpdatesOf(rs))
  {
    hide Parse, AllFit, UpdatesOf, PrintRecords;
    assert d[0..] == d;
    if Parse(s, d, 0).Some? {
      var rs := ParseSound(s, d, 0);
      assert AllFit(s, rs) && PrintRecords(rs) == d;
    }
    forall rs | AllFit(s, rs) && PrintRecords(rs) == d ensures Parse(s, d, 0) == Some(UpdatesOf(rs)) {
      ParsePrinted(s, d, 0, rs);
    }
  }

  // -------------------------------------------------- concatenation and extension

  lemma {:induction false} RecordsAppend(a: seq<Record>, b: seq<Record>)
    ensures PrintRecords(a + b) == PrintRecords(a) + PrintRecords(b)
    ensures UpdatesOf(a + b) == UpdatesOf(a) + UpdatesOf(b)
  {
    hide PrintRecord, UpdateOf;
    if a == [] {
      assert a + b == b;
    } else {
      RecordsAppend(a[1..], b);
      assert (a + b)[0] == a[0] && (a + b)[1..] == a[1..] + b;
      ConcatAssoc(PrintRecord(a[0]), PrintRecords(a[1..]), PrintRecords(b));
      ConcatAssoc(UpdateOf(a[0]), UpdatesOf(a[1..]), UpdatesOf(b));
    }
  }

  lemma {:induction false} RecordsInsert(a: seq<Record>, x: Item, b: seq<Record>)
    ensures var rs := a + [Unknown(x)] + b;
            && PrintRecords(rs) == PrintRecords(a) + Print(x) + PrintRecords(b)
            && UpdatesOf(rs) == UpdatesOf(a + b)
  {
    RecordsSingle(x);
    hide PrintRecords, UpdatesOf;
    var one := [Unknown(x)];
    RecordsAppend(a + one, b);
    RecordsAppend(a, one);
    RecordsAppend(a, b);
  }

  lemma {:induction false} RecordsCons(s: Schema, r: Record, rs: seq<Record>)
    ensures PrintRecords([r] + rs) == PrintRecord(r) + PrintRecords(rs)
    ensures UpdatesOf([r] + rs) == UpdateOf(r) + UpdatesOf(rs)
    ensures AllFit(s, [r] + rs) <==> Fits(s, r) && AllFit(s, rs)
  {
    hide PrintRecord, UpdateOf, Fits;
    assert ([r] + rs)[0] == r && ([r] + rs)[1..] == rs;
    forall q | q in rs ensures q in [r] + rs { }
  }

  lemma {:induction false} FoldCons<M>(apply: (M, Update) -> M, m: M, u: Update, us: seq<Update>)
    ensures Fold(apply, m, [u] + us) == Fold(apply, apply(m, u), us)
  {
    assert ([u] + us)[1..] == us;
  }

  lemma {:induction false} RecordsSingle(x: Item)
    ensures PrintRecords([Unknown(x)]) == Print(x) && UpdatesOf([Unknown(x)]) == []
  {
    assert [Unknown(x)][1..] == [];
  }

  lemma {:induction false} FoldAppend<M>(apply: (M, Update) -> M, m: M, a: seq<Update>, b: seq<Update>)
    ensures Fold(apply, m, a + b) == Fold(apply, Fold(apply, m, a), b)
    decreases |a|
  {
    if a == [] {
      assert a + b == b;
    } else {
      FoldAppend(apply, apply(m, a[0]), a[1..], b);
      assert (a + b)[1..] == a[1..] + b;
    }
  }

  /** One turn of the loop: decoding goes on behind the record, on the updated message. */
  lemma {:induction false} DecodeNext<M>(s: Schema, apply: (M, Update) -> M, d: seq<byte>, i: nat, m: M)
    requires i < |d| && Step(s, d, i).Some?
    ensures var (us, n) := Step(s, d, i).value;
            Decode(s, apply, d, i, m) == Decode(s, apply, d, n, Fold(apply, m, us))
  {
    hide Step;
    var (us, n) := Step(s, d, i).value;
    match Parse(s, d, n)
    case None =>
    case Some(rest) => FoldAppend(apply, m, us, rest);
  }

  /** Decoding two messages one after the other merges the second into the first. */
  lemma {:induction false} DecodeConcat<M>(s: Schema, apply: (M, Update) -> M, a: seq<byte>, b: seq<byte>, m: M)
    requires Parse(s, a, 0).Some? && Parse(s, b, 0).Some?
    ensures Decode(s, apply, a + b, 0, m) == Decode(s, apply, b, 0, Fold(apply, m, Parse(s, a, 0).value))
  {
    var ra := ParseSound(s, a, 0);
    var rb := ParseSound(s, b, 0);
    RecordsAppend(ra, rb);
    ParsePrinted(s, a + b, 0, ra + rb);
    FoldAppend(apply, m, UpdatesOf(ra), UpdatesOf(rb));
  }

  /** A well-formed field with a number the message does not know may stand between
      any two records and changes nothing. */
  lemma {:induction false} DecodeExtended<M>(
      s: Schema, apply: (M, Update) -> M, a: seq<byte>, x: Item, b: seq<byte>, m: M)
    requires Parse(s, a, 0).Some? && Parse(s, b, 0).Some? && Fits(s, Unknown(x))
    ensures Decode(s, apply, a + Print(x) + b, 0, m) == Decode(s, apply, a + b, 0, m)
  {
    var ra := ParseSound(s, a, 0);
    var rb := ParseSound(s, b, 0);
    RecordsAppend(ra, rb);
    RecordsInsert(ra, x, rb);
    assert a[0..] == a && b[0..] == b;
    hide PrintRecords, UpdatesOf, Fits;
    ParsePrinted(s, a + b, 0, ra + rb);
    ParsePrinted(s, a + Print(x) + b, 0, ra + [Unknown(x)] + rb);
  }
}
