/** Flattening a sign document (ethereum/eip712/message.go): the array `msgs` becomes
    the fields `msg0`, `msg1`, ... */
module Flatten {
  import opened Options
  import opened Json
  import opened TypeNames

  type Fields = map<Key, Json>

  /** msgFieldForIndex. */
  function MsgField(i: nat): (k: Key)
    ensures |k| >= 4 && k[..3] == "msg" && '0' <= k[3] <= '9'
  {
    DecDigits(i);
    var k := "msg" + Dec(i);
    assert k[3] == Dec(i)[0] && Dec(i)[0] in Dec(i) && k[..3] == "msg";
    assert IsKey(k) by {
      forall j | 0 <= j < |k| ensures IsKeyChar(k[j]) {
        if j >= 3 { assert k[j] == Dec(i)[j - 3] && Dec(i)[j - 3] in Dec(i); }
      }
    }
    k
  }

  /** The field of message `i` is msg and the decimal number `i`. */
  lemma {:induction false} MsgFieldNumber(i: nat)
    ensures var k := MsgField(i);
            k[..3] == "msg" && IsDigits(k[3..]) && DecimalValue(k[3..]) == i && (i > 0 ==> k[3] != '0')
  {
    DecValue(i);
    assert MsgField(i)[3..] == Dec(i);
  }

  lemma {:induction false} MsgFieldInjective(i: nat, j: nat)
    requires MsgField(i) == MsgField(j)
    ensures i == j
  {
    assert Dec(i) == MsgField(i)[3..] == MsgField(j)[3..] == Dec(j);
    DecInjective(i, j);
  }

  /** getPayloadMessages: a null counts as no messages. */
  function Messages(payload: Fields): Option<seq<Json>> {
    if "msgs" !in payload then None
    else match payload["msgs"]
         case Null => Some([])
         case Arr(items) => Some(items)
         case _ => None
  }

  /** payloadWithNewMessage. */
  function WithMessage(flat: Fields, msg: Json, i: nat): Option<Fields> {
    if MsgField(i) in flat || !msg.Obj? then None else Some(flat[MsgField(i) := msg])
  }

  function AddFrom(flat: Fields, msgs: seq<Json>, i: nat): Option<Fields>
    requires i <= |msgs|
    decreases |msgs| - i
  {
    if i == |msgs| then Some(flat)
    else match WithMessage(flat, msgs[i], i)
         case None => None
         case Some(flat') => AddFrom(flat', msgs, i + 1)
  }

  function Flattened(payload: Fields): Option<(Fields, nat)> {
    match Messages(payload)
    case None => None
    case Some(msgs) =>
      match AddFrom(payload, msgs, 0)
      case None => None
      case Some(flat) => Some((flat - {"msgs"}, |msgs|))
  }

  /** FlattenPayloadMessages. */
  method FlattenPayloadMessages(payload: Fields) returns (r: Option<(Fields, nat)>)
    ensures r == Flattened(payload)
  {
    var got := Messages(payload);
    if got.None? { return None; }
    var msgs := got.value;
    var flattened := payload;
    for i := 0 to |msgs|
      invariant AddFrom(payload, msgs, 0) == AddFrom(flattened, msgs, i)
    {
      var next := WithMessage(flattened, msgs[i], i);
      if next.None? { return None; }
      flattened := next.value;
    }
    return Some((flattened - {"msgs"}, |msgs|));
  }

  // ---------------------------------------------------------------- the inverse

  /** Whether the messages from index `i` on can be added to `flat`. */
  predicate Addable(flat: Fields, msgs: seq<Json>, i: nat) {
    forall j :: i <= j < |msgs| ==> msgs[j].Obj? && MsgField(j) !in flat
  }

  lemma {:induction false} AddFromSpec(flat: Fields, msgs: seq<Json>, i: nat)
    requires i <= |msgs|
    ensures AddFrom(flat, msgs, i).Some? <==> Addable(flat, msgs, i)
    ensures AddFrom(flat, msgs, i).Some? ==>
              var r := AddFrom(flat, msgs, i).value;
              && (forall k :: k in r <==> k in flat || exists j :: i <= j < |msgs| && k == MsgField(j))
              && (forall k :: k in flat ==> r[k] == flat[k])
              && (forall j :: i <= j < |msgs| ==> r[MsgField(j)] == msgs[j])
    decreases |msgs| - i
  {
    hide MsgField;
    if i < |msgs| && WithMessage(flat, msgs[i], i).Some? {
      var flat' := flat[MsgField(i) := msgs[i]];
      AddFromSpec(flat', msgs, i + 1);
      forall j | i < j < |msgs| ensures MsgField(j) !in flat' <==> MsgField(j) !in flat {
        if MsgField(j) == MsgField(i) { MsgFieldInjective(i, j); }
      }
      assert Addable(flat, msgs, i) <==> Addable(flat', msgs, i + 1);
    }
  }

  lemma {:induction false} MsgFieldNotMsgs(i: nat)
    ensures MsgField(i) != "msgs"
  {
    assert MsgField(i)[3] != "msgs"[3];
  }

  /** Flattening succeeds exactly when `msgs` is null or a list, every message in it is an
      object and no target field is taken; it then moves the messages and keeps
      every other field. */
  lemma {:induction false} FlattenedSpec(payload: Fields)
    ensures Flattened(payload).Some? <==>
              && "msgs" in payload
              && match payload["msgs"]
                 case Null => true
                 case Arr(items) => forall i :: 0 <= i < |items| ==> items[i].Obj? && MsgField(i) !in payload
                 case _ => false
    ensures Flattened(payload).Some? ==>
              var (flat, n) := Flattened(payload).value;
              var msgs := if payload["msgs"].Null? then [] else payload["msgs"].items;
              && n == |msgs|
              && (forall i :: 0 <= i < n ==> MsgField(i) in flat && flat[MsgField(i)] == msgs[i])
              && (forall k :: k in payload && k != "msgs" ==> k in flat && flat[k] == payload[k])
              && (forall k :: k in flat ==> k != "msgs" && (k in payload || exists i :: 0 <= i < n && k == MsgField(i)))
  {
    hide MsgField, AddFrom;
    if Messages(payload).Some? {
      var msgs := Messages(payload).value;
      AddFromSpec(payload, msgs, 0);
      forall i | 0 <= i < |msgs| ensures MsgField(i) != "msgs" { MsgFieldNotMsgs(i); }
    }
  }

  /** Collects the messages of a flattened document back into the array. */
  function Unflattened(flat: Fields, n: nat): Fields
    requires forall i :: 0 <= i < n ==> MsgField(i) in flat
  {
    (flat - (set i | 0 <= i < n :: MsgField(i)))["msgs" := Arr(seq(n, i requires 0 <= i < n => flat[MsgField(i)]))]
  }

  /** A document with a message array is rebuilt from its flattened form. */
  lemma {:induction false} FlattenInvertible(payload: Fields)
    requires Flattened(payload).Some? && payload["msgs"].Arr?
    ensures var (flat, n) := Flattened(payload).value;
            (forall i :: 0 <= i < n ==> MsgField(i) in flat) && Unflattened(flat, n) == payload
  {
    hide MsgField;
    FlattenedSpec(payload);
    var (flat, n) := Flattened(payload).value;
    var msgs := payload["msgs"].items;
    assert seq(n, i requires 0 <= i < n => flat[MsgField(i)]) == msgs;
    var r := Unflattened(flat, n);
    forall k: Key ensures (k in r <==> k in payload) && (k in payload ==> r[k] == payload[k]) { }
  }
}
