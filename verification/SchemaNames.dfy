/** The names in an EIP-712 schema (ethereum/eip712/types.go): the type of a message is
    named after the last segment of its type string, the type of an object inside it after
    the path to it; and the fixed types fit the document that is signed. */
module SchemaNames {
  import opened Options
  import opened Json
  import opened TypeNames
  import opened TypeTable
  import opened Flatten
  import opened Schema

  // ----------------------------------------------------------------- the root's name

  /** Of a type string the part behind the last slash names the type, or all of it when it
      has none. */
  lemma {:induction false} RootTypeNamed(msg: Json, pre: string, name: string)
    requires msg.Obj? && "type" in msg.fields && '/' !in name
    ensures msg.fields["type"] == Str(pre + "/" + name) ==> RootType(msg) == Some("Type" + name)
    ensures name != "" && msg.fields["type"] == Str(name) ==> RootType(msg) == Some("Type" + name)
  {
    hide Split;
    SplitJoin(pre, '/', name);
    SplitNone(name, '/');
  }

  /** There is none exactly without a type string, or with an empty one. */
  lemma {:induction false} RootTypeMissing(msg: Json)
    requires msg.Obj?
    ensures RootType(msg) == None <==>
              "type" !in msg.fields || !msg.fields["type"].Str? || msg.fields["type"] == Str("")
  {
    hide Split;
  }

  // ------------------------------------------------------------- names along a message

  ghost predicate Suffixed(t: string, base: string) {
    exists k: nat :: k < 1000 && t == base + Dec(k)
  }

  /** The type `t` of a value is named `base` with a number behind, and the types of the
      objects inside it after the path to them. */
  ghost predicate NamedAfter(tm: TypeMap, base: string, path: string, v: Json, t: string)
    decreases v, 1
  {
    match v
    case Arr(items) =>
      items != [] ==> |t| >= 2 && t[|t| - 2..] == "[]" && NamedAfter(tm, base, path, items[0], t[..|t| - 2])
    case Obj(_) => Suffixed(t, base) && t in tm && FieldsNamedAfter(tm, path, v, tm[t])
    case _ => true
  }

  ghost predicate FieldsNamedAfter(tm: TypeMap, path: string, o: Json, defs: seq<FieldDef>)
    requires o.Obj?
    decreases o, 0
  {
    forall i :: 0 <= i < |defs| ==>
      && defs[i].name in o.fields
      && var inner := path + "." + defs[i].name;
         NamedAfter(tm, Sanitize(inner), inner, o.fields[defs[i].name], defs[i].typ)
  }

  /** Where compiling adds nothing, no part of it does. */
  lemma {:induction false} KeepsBoth(tm: TypeMap, tm1: TypeMap)
    requires Keeps(tm, tm1) && Keeps(tm1, tm)
    ensures tm1 == tm
  {
  }

  /** Compiling an object on a table that has it already: its types are named as promised. */
  lemma {:induction false} CompileNamed(tm: TypeMap, root: string, prefix: string, o: Json)
    requires o.Obj? && IsTypeName(root) && IsPrefix(prefix)
    requires Compile(tm, root, prefix, o).Some? && Compile(tm, root, prefix, o).value.0 == tm
    ensures var base := if prefix == "_" then root else Sanitize(prefix);
            NamedAfter(tm, base, prefix, o, Compile(tm, root, prefix, o).value.1)
    decreases o, 2, 0
  {
    var keys := SortedDesc(o.fields.Keys);
    var (tm1, defs) := CompileFrom(tm, root, prefix, o, keys, 0, []).value;
    var typeDef := TypeDefFor(prefix, root);
    var key := Compile(tm, root, prefix, o).value.1;
    KeepsBoth(tm, tm1);
    AddTypesSpec(tm, typeDef, defs);
    hide AddTypes, Sanitize, Compile;
    CompileFromNamed(tm, root, prefix, o, keys, 0, []);
    var j: nat :| j < 1000 && FirstCandidate(tm, typeDef, defs, 0, j) && key == IndexedName(typeDef, j);
    assert Suffixed(key, typeDef);
  }

  lemma {:induction false} CompileFromNamed(
      tm: TypeMap, root: string, prefix: string, o: Json, keys: seq<Key>, i: nat, acc: seq<FieldDef>)
    requires o.Obj? && i <= |keys| && forall k :: k in keys ==> k in o.fields
    requires IsTypeName(root) && IsPrefix(prefix) && FieldsNamedAfter(tm, prefix, o, acc)
    requires CompileFrom(tm, root, prefix, o, keys, i, acc).Some?
    requires CompileFrom(tm, root, prefix, o, keys, i, acc).value.0 == tm
    ensures FieldsNamedAfter(tm, prefix, o, CompileFrom(tm, root, prefix, o, keys, i, acc).value.1)
    decreases o, 1, |keys| - i
  {
    hide NamedAfter, FieldsNamedAfter, FieldType, IsPrefix, IsTypeName, Sanitize;
    if i < |keys| {
      var k := keys[i];
      var p := SubPrefix(prefix, k);
      SubPrefixShape(prefix, k);
      var (tm1, t) := FieldType(tm, root, p, o.fields[k]).value;
      var acc1 := if t.None? then acc else acc + [FieldDef(k, t.value)];
      KeepsBoth(tm, tm1);
      if t.Some? {
        FieldTypeNamed(tm, root, p, o.fields[k]);
        NamedAppended(tm, prefix, o, acc, FieldDef(k, t.value));
      }
      CompileFromNamed(tm, root, prefix, o, keys, i + 1, acc1);
    }
  }

  lemma {:induction false} NamedAppended(tm: TypeMap, path: string, o: Json, acc: seq<FieldDef>, d: FieldDef)
    requires o.Obj? && FieldsNamedAfter(tm, path, o, acc) && d.name in o.fields
    requires var inner := path + "." + d.name; NamedAfter(tm, Sanitize(inner), inner, o.fields[d.name], d.typ)
    ensures FieldsNamedAfter(tm, path, o, acc + [d])
  {
    hide NamedAfter, Sanitize;
  }

  lemma {:induction false} FieldTypeNamed(tm: TypeMap, root: string, prefix: string, v: Json)
    requires IsTypeName(root) && IsPrefix(prefix) && prefix != "_"
    requires FieldType(tm, root, prefix, v).Some? && FieldType(tm, root, prefix, v).value.0 == tm
    requires FieldType(tm, root, prefix, v).value.1.Some?
    ensures NamedAfter(tm, Sanitize(prefix), prefix, v, FieldType(tm, root, prefix, v).value.1.value)
    decreases v, 4, 0
  {
    hide Compile, Sanitize, IsPrefix, IsTypeName;
    if v.Arr? {
      if v.items != [] {
        var u := ElementType(tm, root, prefix, v.items[0]).value.1.value;
        var t := u + "[]";
        assert t[|t| - 2..] == "[]" && t[..|t| - 2] == u;
        ElementTypeNamed(tm, root, prefix, v.items[0]);
      }
    } else {
      ElementTypeNamed(tm, root, prefix, v);
    }
  }

  lemma {:induction false} ElementTypeNamed(tm: TypeMap, root: string, prefix: string, v: Json)
    requires IsTypeName(root) && IsPrefix(prefix) && prefix != "_"
    requires ElementType(tm, root, prefix, v).Some? && ElementType(tm, root, prefix, v).value.0 == tm
    requires ElementType(tm, root, prefix, v).value.1.Some?
    ensures NamedAfter(tm, Sanitize(prefix), prefix, v, ElementType(tm, root, prefix, v).value.1.value)
    decreases v, 3, 0
  {
    hide Compile, Sanitize, IsPrefix, IsTypeName;
    if v.Obj? {
      CompileNamed(tm, root, prefix, v);
      CompileSound(tm, root, prefix, v);
    }
  }

  /** In every schema that is built, the type of each message is named after its root type
      and the types of the objects inside it after the paths to them, each with a number
      below 1000 behind. */
  lemma {:induction false} SchemaNamed(payload: Fields, n: nat, i: nat)
    requires Create(payload, n).Some? && i < n
    ensures var tm := Create(payload, n).value;
            && "Tx" in tm && 5 + i < |tm["Tx"]| && MsgField(i) in payload && payload[MsgField(i)].Obj?
            && RootType(payload[MsgField(i)]).Some?
            && NamedAfter(tm, RootType(payload[MsgField(i)]).value, "_", payload[MsgField(i)], tm["Tx"][5 + i].typ)
  {
    hide Create, MsgField, Compile, Conforms, NamedAfter, RootType;
    SchemaSound(payload, n);
    var tm := Create(payload, n).value;
    assert MessageTyped(tm, payload, i) && MessageStable(tm, payload, i);
    var msg := payload[MsgField(i)];
    CompileNamed(tm, RootType(msg).value, "_", msg);
  }

  // ---------------------------------------------------------- the document that is signed

  predicate HasString(fields: Fields, k: Key) {
    k in fields && fields[k].Str?
  }

  predicate IsCoin(v: Json) {
    v.Obj? && HasString(v.fields, "denom") && HasString(v.fields, "amount")
  }

  predicate IsFee(v: Json) {
    && v.Obj? && HasString(v.fields, "gas") && "amount" in v.fields && v.fields["amount"].Arr?
    && forall i :: 0 <= i < |v.fields["amount"].items| ==> IsCoin(v.fields["amount"].items[i])
  }

  /** A sign document of the legacy amino form. */
  predicate IsSignDoc(doc: Fields) {
    && HasString(doc, "account_number") && HasString(doc, "chain_id") && HasString(doc, "memo")
    && HasString(doc, "sequence") && "fee" in doc && IsFee(doc["fee"]) && "msgs" in doc
  }

  const SIGN_DOC_FIELDS: set<Key> := {"account_number", "chain_id", "fee", "memo", "msgs", "sequence"}

  /** The value has all that its type in the table asks for: every element of a list, every
      listed field of a struct. */
  ghost predicate Answers(tm: TypeMap, v: Json, t: string)
    decreases v, 1
  {
    match v
    case Str(_) => t == "string"
    case Arr(items) =>
      && |t| >= 2 && t[|t| - 2..] == "[]"
      && forall i :: 0 <= i < |items| ==> Answers(tm, items[i], t[..|t| - 2])
    case Obj(fields) =>
      t in tm && forall i :: 0 <= i < |tm[t]| ==>
        tm[t][i].name in fields && Answers(tm, fields[tm[t][i].name], tm[t][i].typ)
    case _ => false
  }

  lemma {:induction false} CoinAnswers(tm: TypeMap, n: nat, v: Json)
    requires FixedTypes(tm, n) && IsCoin(v)
    ensures Answers(tm, v, "Coin")
  {
    assert "Coin" in INITIAL;
    var defs := tm["Coin"];
    assert defs == [FieldDef("denom", "string"), FieldDef("amount", "string")];
    forall i | 0 <= i < |defs| ensures defs[i].name in v.fields && Answers(tm, v.fields[defs[i].name], defs[i].typ) { }
  }

  lemma {:induction false} FeeAnswers(tm: TypeMap, n: nat, v: Json)
    requires FixedTypes(tm, n) && IsFee(v)
    ensures Answers(tm, v, "Fee")
  {
    assert "Fee" in INITIAL;
    var defs := tm["Fee"];
    assert defs == [FieldDef("amount", "Coin[]"), FieldDef("gas", "string")];
    var items := v.fields["amount"].items;
    assert "Coin[]"[4..] == "[]" && "Coin[]"[..4] == "Coin";
    forall i | 0 <= i < |items| ensures Answers(tm, items[i], "Coin") { CoinAnswers(tm, n, items[i]); }
    hide FixedTypes, IsCoin;
    assert Answers(tm, v.fields["amount"], "Coin[]");
  }

  lemma {:induction false} FixedAnswers(tm: TypeMap, n: nat, doc: Fields, flat: Fields)
    requires FixedTypes(tm, n) && IsSignDoc(doc)
    requires forall k :: k in doc && k != "msgs" ==> k in flat && flat[k] == doc[k]
    ensures forall i :: 0 <= i < 5 ==>
              tm["Tx"][i].name in flat && Answers(tm, flat[tm["Tx"][i].name], tm["Tx"][i].typ)
  {
    FeeAnswers(tm, n, doc["fee"]);
    hide IsFee;
    var tx := tm["Tx"];
    assert tx[..5] == INITIAL["Tx"];
    assert forall i :: 0 <= i < 5 ==> tx[i] == tx[..5][i];
  }

  /** The flattened document has every field that Tx lists, with a value that answers its
      type, or conforms to it for a message; and when the document has no other fields than
      it should, Tx lists all of them. */
  lemma {:induction false} DocumentListed(doc: Fields)
    requires IsSignDoc(doc) && Flattened(doc).Some?
    requires Create(Flattened(doc).value.0, Flattened(doc).value.1).Some?
    ensures var (flat, n) := Flattened(doc).value;
            var tm := Create(flat, n).value;
            && "Tx" in tm && |tm["Tx"]| == 5 + n
            && (forall i :: 0 <= i < 5 ==>
                  tm["Tx"][i].name in flat && Answers(tm, flat[tm["Tx"][i].name], tm["Tx"][i].typ))
            && (forall i :: 5 <= i < 5 + n ==>
                  tm["Tx"][i].name in flat && Conforms(tm, flat[tm["Tx"][i].name], tm["Tx"][i].typ))
            && (doc.Keys <= SIGN_DOC_FIELDS ==>
                  forall k :: k in flat ==> exists i :: 0 <= i < |tm["Tx"]| && tm["Tx"][i].name == k)
  {
    var (flat, n) := Flattened(doc).value;
    var tm := Create(flat, n).value;
    hide Create, Flattened, MsgField, Conforms, Compile;
    FlattenedSpec(doc);
    SchemaSound(flat, n);
    FixedAnswers(tm, n, doc, flat);
    hide Closed, IsSignDoc, Answers;
    var tx := tm["Tx"];
    forall i | 5 <= i < 5 + n ensures tx[i].name in flat && Conforms(tm, flat[tx[i].name], tx[i].typ) {
      assert MessageTyped(tm, flat, i - 5);
    }
    if doc.Keys <= SIGN_DOC_FIELDS {
      forall k | k in flat ensures exists i :: 0 <= i < |tx| && tx[i].name == k {
        FieldListed(tm, doc, flat, n, k);
      }
    }
  }

  lemma {:induction false} FieldListed(tm: TypeMap, doc: Fields, flat: Fields, n: nat, k: Key)
    requires FixedTypes(tm, n) && doc.Keys <= SIGN_DOC_FIELDS && k != "msgs"
    requires forall i :: 0 <= i < n ==> MessageTyped(tm, flat, i)
    requires k in doc || exists i :: 0 <= i < n && k == MsgField(i)
    ensures exists i :: 0 <= i < |tm["Tx"]| && tm["Tx"][i].name == k
  {
    hide MsgField, Conforms;
    var tx := tm["Tx"];
    if k in doc {
      assert forall i :: 0 <= i < 5 ==> tx[i] == tx[..5][i];
      var i := if k == "account_number" then 0 else if k == "chain_id" then 1 else if k == "fee" then 2
               else if k == "memo" then 3 else 4;
      assert tx[i].name == k;
    } else {
      var i :| 0 <= i < n && k == MsgField(i);
      assert MessageTyped(tm, flat, i) && tx[5 + i].name == k;
    }
  }
}
