/** The protobuf message format as the generated decoders accept it: the grammar
    of records on one side, the skipping and parsing code on the other. */
module Wire {
  import opened Bits
  import opened Options
  import Varint

  // ------------------------------------------------------------------- grammar

  /** A field the decoder does not know: a scalar of fixed or varint form, a
      length-delimited body, or a group of further fields. Tags and lengths may
      be spelled overlong, and a group's closing tag may name another field. */
  datatype Item =
    | Plain(tag: seq<byte>, body: seq<byte>)
    | Sized(tag: seq<byte>, len: seq<byte>, body: seq<byte>)
    | Group(tag: seq<byte>, items: seq<Item>, close: seq<byte>)

  function Print(x: Item): seq<byte> {
    match x
    case Plain(tag, body) => tag + body
    case Sized(tag, len, body) => tag + len + body
    case Group(tag, items, close) => tag + PrintAll(items) + close
  }

  function PrintAll(xs: seq<Item>): seq<byte> {
    if xs == [] then [] else Print(xs[0]) + PrintAll(xs[1..])
  }

  predicate IsTag(tag: seq<byte>, wireType: nat) {
    Varint.IsVarint(tag) && Varint.Value(tag) % 8 == wireType
  }

  predicate WellFormed(x: Item) {
    match x
    case Plain(tag, body) =>
      || (IsTag(tag, 0) && Varint.IsVarint(body))
      || (IsTag(tag, 1) && |body| == 8)
      || (IsTag(tag, 5) && |body| == 4)
    case Sized(tag, len, body) =>
      IsTag(tag, 2) && Varint.IsVarint(len) && ToInt64(Varint.Value(len)) == |body|
    case Group(tag, items, close) =>
      IsTag(tag, 3) && IsTag(close, 4) && AllWellFormed(items)
  }

  predicate AllWellFormed(xs: seq<Item>) {
    xs == [] || (WellFormed(xs[0]) && AllWellFormed(xs[1..]))
  }

  // ------------------------------------------------------------------ skipping

  /** What follows a tag of the given wire type at group depth `depth`: where it
      ends, possibly beyond the input, and the depth after it. */
  function SkipBody(wireType: nat, d: seq<byte>, i: nat, depth: nat): (r: Option<(nat, nat)>)
    ensures r.Some? ==> r.value.0 >= i
  {
    match wireType
    case 0 =>
      (match Varint.Read(d, i)
       case None => None
       case Some((_, n)) => Some((n, depth)))
    case 1 => Some((i + 8, depth))
    case 2 =>
      (match Varint.Read(d, i)
       case None => None
       case Some((len, n)) => if ToInt64(len) < 0 then None else Some((n + ToInt64(len), depth)))
    case 3 => Some((i, depth + 1))
    case 4 => if depth == 0 then None else Some((i, depth - 1))
    case 5 => Some((i + 4, depth))
    case _ => None
  }

  /** One turn of the skip loop: the tag at `i` and what follows it. */
  function SkipOne(d: seq<byte>, i: nat, depth: nat): (r: Option<(nat, nat)>)
    ensures r.Some? ==> r.value.0 > i
  {
    match Varint.Read(d, i)
    case None => None
    case Some((raw, n)) => SkipBody(raw % 8, d, n, depth)
  }

  /** Where the field at `i` ends, when it lies wholly in `d`. */
  function SkipFrom(d: seq<byte>, i: nat, depth: nat): (r: Option<nat>)
    ensures r.Some? ==> i < r.value <= |d|
    decreases |d| - i
  {
    match SkipOne(d, i, depth)
    case None => None
    case Some((n, depth')) =>
      if n > |d| then None
      else if depth' == 0 then Some(n)
      else SkipFrom(d, n, depth')
  }

  /** The switch of the skip loop. `iNdEx` is a machine integer: a large length can
      carry it past the input or wrap it around to a negative number. */
  method SkipAfterTag(wireType: nat, d: seq<byte>, start: nat, depth0: nat)
    returns (ok: bool, iNdEx: int, depth: nat)
    requires start <= |d| < TWO_63
    ensures var r := SkipBody(wireType, d, start, depth0);
            && (ok ==> r.Some? && iNdEx == r.value.0 && depth == r.value.1)
            && (!ok ==> r.None? || r.value.0 > |d|)
  {
    ok, iNdEx, depth := false, start, depth0;
    match wireType {
      case 0 =>
        var fine, _, next := Varint.ReadUint64(d, start);
        if !fine { return; }
        iNdEx := next;
      case 1 =>
        iNdEx := ToInt64(iNdEx + 8);
      case 2 =>
        var fine, len, next := Varint.ReadUint64(d, start);
        if !fine { return; }
        var length := ToInt64(len);
        if length < 0 { return; }
        iNdEx := ToInt64(next + length);
      case 3 =>
        depth := depth + 1;
      case 4 =>
        if depth == 0 { return; }
        depth := depth - 1;
      case 5 =>
        iNdEx := ToInt64(iNdEx + 4);
      case _ =>
        return;
    }
    if iNdEx < 0 { return; }
    ok := true;
  }

  lemma {:induction false} TagBits(raw: nat)
    ensures (raw % TWO_64) % 8 == raw % 8
  {
  }

  /** skipIndexer and skipWeb3, started at `start`. The returned index may lie
      beyond the input; the caller tests for that. */
  method Skip(d: seq<byte>, start: nat) returns (ok: bool, next: nat)
    requires start <= |d| < TWO_63
    ensures SkipFrom(d, start, 0).Some? ==> ok && next == SkipFrom(d, start, 0).value
    ensures SkipFrom(d, start, 0).None? ==> !ok || next > |d|
  {
    var iNdEx: int := start;
    var depth: nat := 0;
    while iNdEx < |d|
      invariant start <= iNdEx
      invariant SkipFrom(d, start, 0) == if iNdEx <= |d| then SkipFrom(d, iNdEx, depth) else None
      decreases |d| - iNdEx
    {
      var more, raw, i := Varint.ReadUint64(d, iNdEx);
      if !more { return false, 0; }
      TagBits(Varint.Read(d, iNdEx).value.0);
      var fine;
      fine, iNdEx, depth := SkipAfterTag(raw % 8, d, i, depth);
      if !fine { return false, 0; }
      if depth == 0 { return true, iNdEx; }
    }
    return false, 0;
  }

  // ------------------------------------------- the skipper accepts exactly the grammar

  /** Reading a tag of wire type `w` leads to the switch on `w`. */
  lemma {:induction false} TagLeads(d: seq<byte>, i: nat, tag: seq<byte>, w: nat, depth: nat)
    requires IsTag(tag, w) && At(d, i, tag)
    ensures SkipOne(d, i, depth) == SkipBody(w, d, i + |tag|, depth)
  {
    Varint.ReadSpelled(d, i, tag);
  }

  lemma {:induction false} SkipScalar(d: seq<byte>, i: nat, x: Item, depth: nat)
    requires WellFormed(x) && !x.Group? && At(d, i, Print(x))
    ensures SkipOne(d, i, depth) == Some((i + |Print(x)|, depth))
  {
    match x
    case Plain(tag, body) =>
      AtSplit(d, i, tag, body);
      TagLeads(d, i, tag, Varint.Value(tag) % 8, depth);
      if IsTag(tag, 0) { Varint.ReadSpelled(d, i + |tag|, body); }
    case Sized(tag, len, body) =>
      AtThree(d, i, tag, len, body);
      TagLeads(d, i, tag, 2, depth);
      Varint.ReadSpelled(d, i + |tag|, len);
  }

  lemma {:induction false} GroupEntered(d: seq<byte>, i: nat, tag: seq<byte>, depth: nat)
    requires IsTag(tag, 3) && At(d, i, tag)
    ensures SkipFrom(d, i, depth) == SkipFrom(d, i + |tag|, depth + 1)
  {
    TagLeads(d, i, tag, 3, depth);
  }

  lemma {:induction false} GroupLeft(d: seq<byte>, i: nat, close: seq<byte>, depth: nat)
    requires IsTag(close, 4) && At(d, i, close)
    ensures var n := i + |close|;
            SkipFrom(d, i, depth + 1) == if depth == 0 then Some(n) else SkipFrom(d, n, depth)
  {
    TagLeads(d, i, close, 4, depth + 1);
  }

  lemma {:induction false} ScalarPassed(d: seq<byte>, i: nat, x: Item, depth: nat)
    requires WellFormed(x) && !x.Group? && At(d, i, Print(x))
    ensures var n := i + |Print(x)|;
            SkipFrom(d, i, depth) == if depth == 0 then Some(n) else SkipFrom(d, n, depth)
  {
    SkipScalar(d, i, x, depth);
  }

  lemma {:induction false} GroupPassed(d: seq<byte>, i: nat, tag: seq<byte>, n: nat, close: seq<byte>, depth: nat)
    requires IsTag(tag, 3) && At(d, i, tag) && IsTag(close, 4) && At(d, n, close)
    requires SkipFrom(d, i + |tag|, depth + 1) == SkipFrom(d, n, depth + 1)
    ensures var m := n + |close|;
            SkipFrom(d, i, depth) == if depth == 0 then Some(m) else SkipFrom(d, m, depth)
  {
    calc {
      SkipFrom(d, i, depth);
      { GroupEntered(d, i, tag, depth); }
      SkipFrom(d, n, depth + 1);
      { GroupLeft(d, n, close, depth); }
      if depth == 0 then Some(n + |close|) else SkipFrom(d, n + |close|, depth);
    }
  }

  /** Every well-formed field is passed over as a whole, at any depth. */
  lemma {:induction false} SkipPrinted(d: seq<byte>, i: nat, x: Item, depth: nat)
    requires WellFormed(x) && At(d, i, Print(x))
    ensures var n := i + |Print(x)|;
            SkipFrom(d, i, depth) == if depth == 0 then Some(n) else SkipFrom(d, n, depth)
    decreases x
  {
    hide SkipFrom, SkipOne;
    match x
    case Group(tag, items, close) =>
      AtThree(d, i, tag, PrintAll(items), close);
      var n := i + |tag| + |PrintAll(items)|;
      assert SkipFrom(d, i + |tag|, depth + 1) == SkipFrom(d, n, depth + 1) by {
        SkipPrintedAll(d, i + |tag|, items, depth + 1);
      }
      GroupPassed(d, i, tag, n, close, depth);
    case _ =>
      ScalarPassed(d, i, x, depth);
  }

  lemma {:induction false} SkipPrintedAll(d: seq<byte>, i: nat, xs: seq<Item>, depth: nat)
    requires AllWellFormed(xs) && At(d, i, PrintAll(xs)) && depth > 0
    ensures SkipFrom(d, i, depth) == SkipFrom(d, i + |PrintAll(xs)|, depth)
    decreases xs
  {
    hide SkipFrom, SkipOne;
    if xs != [] {
      AtSplit(d, i, Print(xs[0]), PrintAll(xs[1..]));
      var n := i + |Print(xs[0])|;
      calc {
        SkipFrom(d, i, depth);
        { SkipPrinted(d, i, xs[0], depth); }
        SkipFrom(d, n, depth);
        { SkipPrintedAll(d, n, xs[1..], depth); }
        SkipFrom(d, n + |PrintAll(xs[1..])|, depth);
      }
    }
  }

  /** What is left of the open groups, innermost first: the fields still to come,
      the closing tag, and the groups around. */
  datatype Tails = Done | Open(items: seq<Item>, close: seq<byte>, outer: Tails)

  function PrintTails(t: Tails): seq<byte> {
    match t
    case Done => []
    case Open(items, close, outer) => PrintAll(items) + close + PrintTails(outer)
  }

  predicate TailsOf(t: Tails, depth: nat) {
    match t
    case Done => depth == 0
    case Open(items, close, outer) =>
      depth > 0 && AllWellFormed(items) && IsTag(close, 4) && TailsOf(outer, depth - 1)
  }

  lemma {:induction false} Prepend(x: Item, items: seq<Item>)
    ensures PrintAll([x] + items) == Print(x) + PrintAll(items)
    ensures AllWellFormed([x] + items) <==> WellFormed(x) && AllWellFormed(items)
  {
    assert ([x] + items)[1..] == items;
  }

  /** A scalar passed over in one turn is a well-formed field. */
  lemma {:induction false} ScalarSkipped(d: seq<byte>, i: nat, depth: nat) returns (x: Item)
    requires SkipOne(d, i, depth).Some? && SkipOne(d, i, depth).value.0 <= |d|
    requires SkipOne(d, i, depth).value.1 == depth
    ensures WellFormed(x) && Print(x) == d[i..SkipOne(d, i, depth).value.0]
  {
    hide Varint.Read, Varint.Value;
    var n := SkipOne(d, i, depth).value.0;
    Varint.ReadSound(d, i);
    var (raw, t) := Varint.Read(d, i).value;
    if raw % 8 == 2 {
      Varint.ReadSound(d, t);
      var l := Varint.Read(d, t).value.1;
      SliceJoin(d, i, t, l);
      SliceJoin(d, i, l, n);
      x := Sized(d[i..t], d[t..l], d[l..n]);
    } else {
      if raw % 8 == 0 { Varint.ReadSound(d, t); }
      SliceJoin(d, i, t, n);
      x := Plain(d[i..t], d[t..n]);
    }
  }

  lemma {:induction false} TagSkipped(d: seq<byte>, i: nat, depth: nat)
    requires SkipOne(d, i, depth).Some? && SkipOne(d, i, depth).value.1 != depth
    ensures var (n, depth') := SkipOne(d, i, depth).value;
            && n <= |d|
            && (if depth' > depth then depth' == depth + 1 && IsTag(d[i..n], 3)
                else depth' == depth - 1 && IsTag(d[i..n], 4))
  {
    Varint.ReadSound(d, i);
  }

  lemma {:induction false} SkipNext(d: seq<byte>, i: nat, depth: nat)
    requires SkipFrom(d, i, depth).Some?
    ensures SkipOne(d, i, depth).Some?
    ensures var (n, depth') := SkipOne(d, i, depth).value;
            i < n <= SkipFrom(d, i, depth).value
            && SkipFrom(d, i, depth) == if depth' == 0 then Some(n) else SkipFrom(d, n, depth')
  {
  }

  /** Skipping from inside `depth` open groups reads the rest of each of them. */
  lemma {:induction false} OpenGroupsSkipped(d: seq<byte>, i: nat, depth: nat, end: nat) returns (t: Tails)
    requires depth > 0 && SkipFrom(d, i, depth) == Some(end)
    ensures TailsOf(t, depth) && PrintTails(t) == d[i..end]
    decreases |d| - i
  {
    SkipNext(d, i, depth);
    hide SkipFrom, SkipOne;
    var (n, depth') := SkipOne(d, i, depth).value;
    var rest := Done;
    if depth' > 0 { rest := OpenGroupsSkipped(d, n, depth', end); }
    t := Assemble(d, i, depth, end, rest);
  }

  lemma {:induction false} Assemble(d: seq<byte>, i: nat, depth: nat, end: nat, rest: Tails) returns (t: Tails)
    requires depth > 0 && SkipOne(d, i, depth).Some?
    requires var (n, depth') := SkipOne(d, i, depth).value;
             n <= end <= |d| && TailsOf(rest, depth') && PrintTails(rest) == d[n..end]
    ensures TailsOf(t, depth) && PrintTails(t) == d[i..end]
  {
    var (n, depth') := SkipOne(d, i, depth).value;
    hide SkipOne;
    SliceJoin(d, i, n, end);
    if depth' == depth {
      var x := ScalarSkipped(d, i, depth);
      t := InFront(x, rest, depth);
    } else {
      TagSkipped(d, i, depth);
      if depth' == depth + 1 {
        t := AfterOpen(d[i..n], rest, depth);
      } else {
        t := Open([], d[i..n], rest);
      }
    }
  }

  lemma {:induction false} InFront(x: Item, rest: Tails, depth: nat) returns (t: Tails)
    requires depth > 0 && WellFormed(x) && TailsOf(rest, depth)
    ensures TailsOf(t, depth) && PrintTails(t) == Print(x) + PrintTails(rest)
  {
    Prepend(x, rest.items);
    t := Open([x] + rest.items, rest.close, rest.outer);
    ConcatAssoc(Print(x), PrintAll(rest.items), rest.close + PrintTails(rest.outer));
  }

  lemma {:induction false} AfterOpen(tag: seq<byte>, rest: Tails, depth: nat) returns (t: Tails)
    requires depth > 0 && IsTag(tag, 3) && TailsOf(rest, depth + 1)
    ensures TailsOf(t, depth) && PrintTails(t) == tag + PrintTails(rest)
  {
    t := InFront(Group(tag, rest.items, rest.close), rest.outer, depth);
    ConcatAssoc(tag, PrintAll(rest.items) + rest.close, PrintTails(rest.outer));
  }

  /** Whatever the skipper passes over is one well-formed field. */
  lemma {:induction false} SkipSound(d: seq<byte>, i: nat) returns (x: Item)
    requires SkipFrom(d, i, 0).Some?
    ensures WellFormed(x) && Print(x) == d[i..SkipFrom(d, i, 0).value]
  {
    SkipNext(d, i, 0);
    hide SkipFrom, SkipOne;
    var (n, depth') := SkipOne(d, i, 0).value;
    SliceJoin(d, i, n, SkipFrom(d, i, 0).value);
    if depth' == 0 {
      x := ScalarSkipped(d, i, 0);
    } else {
      TagSkipped(d, i, 0);
      var t := OpenGroupsSkipped(d, n, 1, SkipFrom(d, i, 0).value);
      x := Group(d[i..n], t.items, t.close);
    }
  }
}
