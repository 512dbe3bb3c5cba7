/** Building the whole EIP-712 schema of a flattened transaction, and the class that
    does it in place (ethereum/eip712/types.go). */
module Schema {
  import opened Options
  import opened Order
  import opened Json
  import opened TypeNames
  import opened TypeTable
  import opened Flatten

  const INITIAL: TypeMap := map[
    "EIP712Domain" := [FieldDef("name", "string"), FieldDef("version", "string"), FieldDef("chainId", "uint256"),
                       FieldDef("verifyingContract", "string"), FieldDef("salt", "string")],
    "Tx" := [FieldDef("account_number", "string"), FieldDef("chain_id", "string"), FieldDef("fee", "Fee"),
             FieldDef("memo", "string"), FieldDef("sequence", "string")],
    "Fee" := [FieldDef("amount", "Coin[]"), FieldDef("gas", "string")],
    "Coin" := [FieldDef("denom", "string"), FieldDef("amount", "string")]]

  /** msgRootType: the last segment of the message's type string. */
  function RootType(msg: Json): (r: Option<string>)
    requires msg.Obj?
    ensures r.Some? ==> IsTypeName(r.value)
  {
    if "type" !in msg.fields || !msg.fields["type"].Str? || msg.fields["type"].s == "" then None
    else
      var tokens := Split(msg.fields["type"].s, '/');
      Some("Type" + tokens[|tokens| - 1])
  }

  /** addMsgTypesToRoot: compiles one message and lists it in Tx. */
  ghost function AddMsg(tm: TypeMap, field: string, msg: Json): (r: Option<TypeMap>)
    requires "Tx" in tm
    ensures r.Some? ==> "Tx" in r.value
  {
    if !msg.Obj? || RootType(msg).None? then None
    else match Compile(tm, RootType(msg).value, "_", msg)
         case None => None
         case Some((tm', key)) => Some(tm'["Tx" := tm'["Tx"] + [FieldDef(field, key)]])
  }

  ghost function CreateFrom(tm: TypeMap, payload: Fields, n: nat, i: nat): Option<TypeMap>
    requires i <= n && "Tx" in tm
    decreases n - i
  {
    if i == n then Some(tm)
    else if MsgField(i) !in payload then None
    else match AddMsg(tm, MsgField(i), payload[MsgField(i)])
         case None => None
         case Some(tm') => CreateFrom(tm', payload, n, i + 1)
  }

  /** createEIP712Types. */
  ghost function Create(payload: Fields, n: nat): Option<TypeMap> {
    CreateFrom(INITIAL, payload, n, 0)
  }

  // --------------------------------------------------------------- the theorems

  /** Message `i` of the payload is listed in Tx under a type it conforms to. */
  ghost predicate MessageTyped(tm: TypeMap, payload: Fields, i: nat) {
    && "Tx" in tm && 5 + i < |tm["Tx"]| && MsgField(i) in payload
    && tm["Tx"][5 + i].name == MsgField(i)
    && payload[MsgField(i)].Obj?
    && Conforms(tm, payload[MsgField(i)], tm["Tx"][5 + i].typ)
  }

  /** Compiling message `i` again on this very table changes nothing. */
  ghost predicate MessageStable(tm: TypeMap, payload: Fields, i: nat)
    requires MessageTyped(tm, payload, i)
  {
    var msg := payload[MsgField(i)];
    RootType(msg).Some? && Compile(tm, RootType(msg).value, "_", msg) == Some((tm, tm["Tx"][5 + i].typ))
  }

  /** The four fixed types are as declared; Tx has one more field per message. */
  predicate FixedTypes(tm: TypeMap, n: nat) {
    && "Tx" in tm && |tm["Tx"]| == 5 + n && tm["Tx"][..5] == INITIAL["Tx"]
    && forall t :: t in INITIAL && t != "Tx" ==> t in tm && tm[t] == INITIAL[t]
  }

  ghost predicate Built(tm: TypeMap, payload: Fields, n: nat) {
    && FixedTypes(tm, n)
    && Closed(tm)
    && forall i :: 0 <= i < n ==> MessageTyped(tm, payload, i) && MessageStable(tm, payload, i)
  }

  lemma {:induction false} InitialBuilt(payload: Fields)
    ensures Built(INITIAL, payload, 0)
  {
    forall t: string, i | t in INITIAL && 0 <= i < |INITIAL[t]| ensures Resolvable(INITIAL, INITIAL[t][i].typ) {
      if INITIAL[t][i].typ == "Coin[]" { assert "Coin[]"[..4] == "Coin" && "Coin[]"[4..] == "[]"; }
    }
  }

  /** Listing a compiled message in Tx keeps the table closed. */
  lemma {:induction false} ListedClosed(tm: TypeMap, d: FieldDef)
    requires Closed(tm) && "Tx" in tm && d.typ in tm
    ensures Closed(tm["Tx" := tm["Tx"] + [d]])
  {
    var tm2: TypeMap := tm["Tx" := tm["Tx"] + [d]];
    forall t: string, i | t in tm2 && 0 <= i < |tm2[t]| ensures Resolvable(tm2, tm2[t][i].typ) {
      assert tm2[t][i] == d || Resolvable(tm, tm[t][i].typ);
    }
  }

  lemma {:induction false} ListedFixed(tm: TypeMap, tm1: TypeMap, d: FieldDef, i: nat)
    requires FixedTypes(tm, i) && Keeps(tm, tm1)
    ensures FixedTypes(tm1["Tx" := tm1["Tx"] + [d]], i + 1)
  {
    var tx := tm1["Tx"] + [d];
    assert tx[..5] == tm["Tx"][..5];
  }

  /** A message typed in one table is typed in every table grown from it that keeps
      its line in Tx. */
  lemma {:induction false} MessageKept(tm: TypeMap, tm2: TypeMap, payload: Fields, i: nat)
    requires MessageTyped(tm, payload, i) && MessageStable(tm, payload, i)
    requires Grows(tm, tm2) && "Tx" in tm2 && tm["Tx"] <= tm2["Tx"]
    ensures MessageTyped(tm2, payload, i) && MessageStable(tm2, payload, i)
  {
    var msg := payload[MsgField(i)];
    ConformsGrows(tm, tm2, msg, tm["Tx"][5 + i].typ);
    assert IsPrefix("_");
    CompileStable(tm, RootType(msg).value, "_", msg, tm2);
  }

  /** A newly added message is typed and stable, and nothing generated is lost. */
  lemma {:induction false} AddMsgListed(tm: TypeMap, payload: Fields, i: nat)
    requires FixedTypes(tm, i) && Closed(tm) && MsgField(i) in payload
    requires AddMsg(tm, MsgField(i), payload[MsgField(i)]).Some?
    ensures var tm2 := AddMsg(tm, MsgField(i), payload[MsgField(i)]).value;
            && FixedTypes(tm2, i + 1) && Closed(tm2) && Grows(tm, tm2) && tm["Tx"] <= tm2["Tx"]
            && MessageTyped(tm2, payload, i) && MessageStable(tm2, payload, i)
  {
    var msg := payload[MsgField(i)];
    var root := RootType(msg).value;
    var (tm1, key) := Compile(tm, root, "_", msg).value;
    var tm2 := AddMsg(tm, MsgField(i), msg).value;
    assert IsPrefix("_") && !IsTypeName("Tx");
    assert Keeps(tm, tm1) && Grows(tm1, tm2) && Grows(tm, tm2);
    CompileSound(tm, root, "_", msg);
    CompileStable(tm, root, "_", msg, tm2);
    ConformsGrows(tm1, tm2, msg, key);
    assert key in tm1;
    hide Conforms, Compile, MsgField, RootType, IsTypeName, Grows, Closed, FixedTypes;
    ListedFixed(tm, tm1, FieldDef(MsgField(i), key), i);
    ListedClosed(tm1, FieldDef(MsgField(i), key));
  }

  lemma {:induction false} AddMsgBuilt(tm: TypeMap, payload: Fields, i: nat)
    requires Built(tm, payload, i) && MsgField(i) in payload
    requires AddMsg(tm, MsgField(i), payload[MsgField(i)]).Some?
    ensures Built(AddMsg(tm, MsgField(i), payload[MsgField(i)]).value, payload, i + 1)
  {
    hide MessageTyped, MessageStable, MsgField, AddMsg, Grows, Closed;
    var tm2 := AddMsg(tm, MsgField(i), payload[MsgField(i)]).value;
    AddMsgListed(tm, payload, i);
    forall j | 0 <= j < i ensures MessageTyped(tm2, payload, j) && MessageStable(tm2, payload, j) {
      MessageKept(tm, tm2, payload, j);
    }
  }

  lemma {:induction false} CreateFromBuilt(tm: TypeMap, payload: Fields, n: nat, i: nat)
    requires i <= n && Built(tm, payload, i) && CreateFrom(tm, payload, n, i).Some?
    ensures Built(CreateFrom(tm, payload, n, i).value, payload, n)
    decreases n - i
  {
    hide Built, AddMsg, MsgField;
    BuiltHasTx(tm, payload, i);
    if i < n {
      AddMsgBuilt(tm, payload, i);
      var tm' := AddMsg(tm, MsgField(i), payload[MsgField(i)]).value;
      BuiltHasTx(tm', payload, i + 1);
      CreateFromBuilt(tm', payload, n, i + 1);
    }
  }

  lemma {:induction false} BuiltHasTx(tm: TypeMap, payload: Fields, i: nat)
    requires Built(tm, payload, i)
    ensures "Tx" in tm
  {
  }

  /** Every schema that is built types each message of the payload, with all the
      objects inside it, resolves every name it uses, and is a fixed point of
      compiling any of its messages again. */
  lemma {:induction false} SchemaSound(payload: Fields, n: nat)
    requires Create(payload, n).Some?
    ensures Built(Create(payload, n).value, payload, n)
  {
    InitialBuilt(payload);
    CreateFromBuilt(INITIAL, payload, n, 0);
  }

  /** The struct of an object lists its representable fields, each once, downwards. */
  lemma {:induction false} SelectedSpec(fields: map<Key, Json>, keys: seq<Key>, n: nat)
    requires n <= |keys| && Descending(keys) && forall k :: k in keys ==> k in fields
    ensures var r := Selected(fields, keys, n);
            && Descending(r)
            && (forall k :: k in r <==> k in keys[..n] && Representable(fields[k]))
  {
    hide StrLess, Representable;
    if n > 0 {
      SelectedSpec(fields, keys, n - 1);
      var r := Selected(fields, keys, n - 1);
      var k := keys[n - 1];
      assert keys[..n] == keys[..n - 1] + [k];
      forall i | 0 <= i < |r| ensures StrLess(k, r[i]) {
        assert r[i] in r;
        var j :| 0 <= j < n - 1 && keys[j] == r[i];
      }
    }
  }

  /** From the sign document to the schema: every message of the document conforms to
      the type Tx gives it. */
  lemma {:induction false} DocumentTyped(payload: Fields)
    requires Flattened(payload).Some?
    requires Create(Flattened(payload).value.0, Flattened(payload).value.1).Some?
    ensures var (flat, n) := Flattened(payload).value;
            var tm := Create(flat, n).value;
            && FixedTypes(tm, n) && n == |Messages(payload).value|
            && forall i :: 0 <= i < n ==>
                 tm["Tx"][5 + i].name == MsgField(i) && Conforms(tm, Messages(payload).value[i], tm["Tx"][5 + i].typ)
  {
    hide MsgField, Conforms, Create, Flattened;
    FlattenedSpec(payload);
    var (flat, n) := Flattened(payload).value;
    SchemaSound(flat, n);
    var tm: TypeMap := Create(flat, n).value;
    forall i | 0 <= i < n
      ensures tm["Tx"][5 + i].name == MsgField(i) && Conforms(tm, Messages(payload).value[i], tm["Tx"][5 + i].typ)
    {
      assert MessageTyped(tm, flat, i);
    }
  }

  // ----------------------------------------------------------- building in place

  /** typesAreEqual. */
  method TypesAreEqual(types1: seq<FieldDef>, types2: seq<FieldDef>) returns (equal: bool)
    ensures equal <==> types1 == types2
  {
    if |types1| != |types2| { return false; }
    for i := 0 to |types1|
      invariant types1[..i] == types2[..i]
    {
      if types1[i].name != types2[i].name || types1[i].typ != types2[i].typ { return false; }
    }
    return true;
  }

  /** getEthTypeForJSON: none for null, arrays and objects. */
  function EthType(v: Json): Option<string> {
    match v
    case Bool(_) => Some("bool")
    case Number(_) => Some("int64")
    case Str(_) => Some("string")
    case _ => None
  }

  /** The type map that the schema builder fills. */
  class Builder {
    var types: TypeMap

    constructor ()
      ensures types == INITIAL
    {
      types := INITIAL;
    }

    /** addTypesToRoot: probes indexed names until one is free or holds the same. */
    method AddTypesToRoot(typeDef: string, defs: seq<FieldDef>) returns (r: Option<string>)
      modifies this
      ensures AddTypes(old(types), typeDef, defs).None? ==> r.None? && types == old(types)
      ensures AddTypes(old(types), typeDef, defs).Some? ==>
                types == AddTypes(old(types), typeDef, defs).value.0
                && r == Some(AddTypes(old(types), typeDef, defs).value.1)
    {
      hide IndexedName;
      var index := 0;
      var indexed := IndexedName(typeDef, index);
      while true
        invariant 0 <= index < MAX_DUPLICATES && types == old(types)
        invariant Probe(types, typeDef, defs, 0) == Probe(types, typeDef, defs, index)
        decreases MAX_DUPLICATES - index
      {
        indexed := IndexedName(typeDef, index);
        if indexed in types {
          var equal := TypesAreEqual(defs, types[indexed]);
          if equal {
            assert types[indexed := defs] == types;
            return Some(indexed);
          }
        } else {
          break;
        }
        index := index + 1;
        if index == MAX_DUPLICATES { return None; }
      }
      indexed := IndexedName(typeDef, index);
      types := types[indexed := defs];
      return Some(indexed);
    }

    /** recursivelyAddTypesToRoot: types the fields in descending key order, descending
        into objects first, then adds the object's own definition. */
    method RecursivelyAddTypesToRoot(root: string, prefix: string, payload: Json) returns (r: Option<string>)
      modifies this
      ensures !payload.Obj? ==> r.None?
      ensures payload.Obj? ==>
                match Compile(old(types), root, prefix, payload)
                case None => r.None?
                case Some((tm, key)) => types == tm && r == Some(key)
      decreases payload, 0
    {
      if !payload.Obj? { return None; }
      hide SortedDesc, Sanitize, AddTypes, FieldType;
      var typesToAdd: seq<FieldDef> := [];
      var keys := SortedJSONKeys(payload.fields);
      var typeDef := TypeDefFor(prefix, root);
      for i := 0 to |keys|
        invariant CompileFrom(old(types), root, prefix, payload, keys, 0, [])
               == CompileFrom(types, root, prefix, payload, keys, i, typesToAdd)
      {
        var fieldName := keys[i];
        var ok, t := AddField(root, SubPrefix(prefix, fieldName), payload.fields[fieldName]);
        if !ok { return None; }
        if t.Some? { typesToAdd := typesToAdd + [FieldDef(fieldName, t.value)]; }
      }
      r := AddTypesToRoot(typeDef, typesToAdd);
    }

    /** The body of that loop: the type of one field, if it gets one. Arrays are
        unwrapped to their first element. */
    method AddField(root: string, fieldPrefix: string, value: Json) returns (ok: bool, t: Option<string>)
      modifies this
      ensures match FieldType(old(types), root, fieldPrefix, value)
              case None => !ok
              case Some((tm, u)) => ok && types == tm && t == u
      decreases value, 2
    {
      hide ElementType;
      if value.Arr? {
        if |value.items| == 0 { return true, Some("string[]"); }
        var u;
        ok, u := AddElement(root, fieldPrefix, value.items[0]);
        t := if u.None? then None else Some(u.value + "[]");
      } else {
        ok, t := AddElement(root, fieldPrefix, value);
      }
    }

    /** A primitive gets its Ethereum type, an object is compiled, anything else is
        left out. */
    method AddElement(root: string, fieldPrefix: string, field: Json) returns (ok: bool, t: Option<string>)
      modifies this
      ensures match ElementType(old(types), root, fieldPrefix, field)
              case None => !ok
              case Some((tm, u)) => ok && types == tm && t == u
      decreases field, 1
    {
      hide Compile, Sanitize;
      var ethType := EthType(field);
      if ethType.Some? { return true, ethType; }
      if field.Obj? {
        var key := RecursivelyAddTypesToRoot(root, fieldPrefix, field);
        if key.None? { return false, None; }
        var fieldTypeDef := SanitizeTypedef(key.value);
        return true, Some(fieldTypeDef);
      }
      return true, None;
    }

    /** addMsgTypesToRoot with addMsgTypeDefToTxSchema. */
    method AddMsgTypesToRoot(msgField: string, msg: Json) returns (ok: bool)
      requires "Tx" in types
      modifies this
      ensures match AddMsg(old(types), msgField, msg)
              case None => !ok
              case Some(tm) => ok && types == tm
    {
      if !msg.Obj? { return false; }
      var root := RootType(msg);
      if root.None? { return false; }
      var msgTypeDef := RecursivelyAddTypesToRoot(root.value, "_", msg);
      if msgTypeDef.None? { return false; }
      types := types["Tx" := types["Tx"] + [FieldDef(msgField, msgTypeDef.value)]];
      return true;
    }
  }

  /** createEIP712Types. */
  method CreateEIP712Types(payload: Fields, n: nat) returns (r: Option<TypeMap>)
    ensures r == Create(payload, n)
  {
    hide AddMsg, MsgField;
    var b := new Builder();
    for i := 0 to n
      invariant "Tx" in b.types && Create(payload, n) == CreateFrom(b.types, payload, n, i)
      invariant fresh(b)
    {
      var field := MsgField(i);
      if field !in payload { return None; }
      var ok := b.AddMsgTypesToRoot(field, payload[field]);
      if !ok { return None; }
    }
    return Some(b.types);
  }
}
