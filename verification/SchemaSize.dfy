/** When an EIP-712 schema is built at all (ethereum/eip712/types.go): the dedup table
    gives up after 1000 candidate names, so transactions of at most 1000 objects always
    get a schema if their messages are well formed. */
module SchemaSize {
  import opened Options
  import opened Json
  import opened TypeNames
  import opened TypeTable
  import opened Flatten
  import opened Schema

  // -------------------------------------------------------------- counting objects

  ghost function ElementObjects(v: Json): nat
    decreases v, 3, 0
  {
    if v.Obj? then Objects(v) else 0
  }

  ghost function FieldObjects(v: Json): nat
    decreases v, 4, 0
  {
    if v.Arr? then if v.items == [] then 0 else ElementObjects(v.items[0]) else ElementObjects(v)
  }

  ghost function ObjectsFrom(o: Json, keys: seq<Key>, i: nat): nat
    requires o.Obj? && i <= |keys| && forall k :: k in keys ==> k in o.fields
    decreases o, 1, |keys| - i
  {
    if i == |keys| then 0 else FieldObjects(o.fields[keys[i]]) + ObjectsFrom(o, keys, i + 1)
  }

  /** The objects reached from an object through fields and first array elements. */
  ghost function Objects(o: Json): nat
    requires o.Obj?
    decreases o, 2, 0
  {
    1 + ObjectsFrom(o, SortedDesc(o.fields.Keys), 0)
  }

  // ------------------------------------------------------------- room in the table

  /** The generated names of a table. */
  function Generated(tm: TypeMap): set<string> {
    set t | t in tm && IsTypeName(t)
  }

  function Candidates(typeDef: string, n: nat): set<string> {
    if n == 0 then {} else Candidates(typeDef, n - 1) + {IndexedName(typeDef, n - 1)}
  }

  lemma {:induction false} CandidatesMember(typeDef: string, n: nat, t: string)
    ensures t in Candidates(typeDef, n) <==> exists j :: 0 <= j < n && t == IndexedName(typeDef, j)
  {
    hide IndexedName;
    if n > 0 { CandidatesMember(typeDef, n - 1, t); }
  }

  lemma {:induction false} CandidatesCount(typeDef: string, n: nat)
    ensures |Candidates(typeDef, n)| == n
  {
    hide IndexedName;
    if n > 0 {
      CandidatesCount(typeDef, n - 1);
      CandidatesMember(typeDef, n - 1, IndexedName(typeDef, n - 1));
      forall j | 0 <= j < n - 1 ensures IndexedName(typeDef, j) != IndexedName(typeDef, n - 1) {
        NamesDiffer(typeDef, j, n - 1);
      }
    }
  }

  lemma {:induction false} NamesDiffer(typeDef: string, i: nat, j: nat)
    requires i != j
    ensures IndexedName(typeDef, i) != IndexedName(typeDef, j)
  {
    if IndexedName(typeDef, i) == IndexedName(typeDef, j) {
      assert Dec(i) == IndexedName(typeDef, i)[|typeDef|..] == IndexedName(typeDef, j)[|typeDef|..] == Dec(j);
      DecInjective(i, j);
    }
  }

  lemma {:induction false} SubsetCount<T>(a: set<T>, b: set<T>)
    requires a <= b
    ensures |a| <= |b|
    decreases |a|
  {
    if a != {} {
      var x :| x in a;
      SubsetCount(a - {x}, b - {x});
    }
  }

  /** A table with fewer than 1000 generated names has room for any definition, and grows
      by at most one name. */
  lemma {:induction false} RoomToAdd(tm: TypeMap, typeDef: string, defs: seq<FieldDef>)
    requires IsTypeName(typeDef) && |Generated(tm)| < 1000
    ensures AddTypes(tm, typeDef, defs).Some?
    ensures |Generated(AddTypes(tm, typeDef, defs).value.0)| <= |Generated(tm)| + 1
  {
    hide IsTypeName, IndexedName, AddTypes, Candidates;
    AddTypesSpec(tm, typeDef, defs);
    if AddTypes(tm, typeDef, defs) == None {
      forall t | t in Candidates(typeDef, MAX_DUPLICATES) ensures t in Generated(tm) {
        CandidatesMember(typeDef, MAX_DUPLICATES, t);
        var j :| 0 <= j < MAX_DUPLICATES && t == IndexedName(typeDef, j);
        IndexedNameShape(typeDef, j);
      }
      CandidatesCount(typeDef, MAX_DUPLICATES);
      SubsetCount(Candidates(typeDef, MAX_DUPLICATES), Generated(tm));
      assert false;
    }
    var (tm', key) := AddTypes(tm, typeDef, defs).value;
    SubsetCount(Generated(tm'), Generated(tm) + {key});
  }

  // ------------------------------------------------------------- compiling succeeds

  /** Compiling succeeds while there is room for all objects, and uses no more. */
  lemma {:induction false} CompileFits(tm: TypeMap, root: string, prefix: string, o: Json)
    requires o.Obj? && IsTypeName(root) && IsPrefix(prefix) && |Generated(tm)| + Objects(o) <= 1000
    ensures Compile(tm, root, prefix, o).Some?
    ensures |Generated(Compile(tm, root, prefix, o).value.0)| <= |Generated(tm)| + Objects(o)
    decreases o, 2, 0
  {
    hide Sanitize, AddTypes, CompileFrom, ObjectsFrom, IsTypeName, Generated, IsPrefix;
    var keys := SortedDesc(o.fields.Keys);
    CompileFromFits(tm, root, prefix, o, keys, 0, []);
    var (tm1, defs) := CompileFrom(tm, root, prefix, o, keys, 0, []).value;
    SanitizeShape(prefix);
    RoomToAdd(tm1, TypeDefFor(prefix, root), defs);
  }

  lemma {:induction false} CompileFromFits(
      tm: TypeMap, root: string, prefix: string, o: Json, keys: seq<Key>, i: nat, acc: seq<FieldDef>)
    requires o.Obj? && i <= |keys| && forall k :: k in keys ==> k in o.fields
    requires IsTypeName(root) && IsPrefix(prefix) && |Generated(tm)| + ObjectsFrom(o, keys, i) <= 1000
    ensures CompileFrom(tm, root, prefix, o, keys, i, acc).Some?
    ensures |Generated(CompileFrom(tm, root, prefix, o, keys, i, acc).value.0)|
            <= |Generated(tm)| + ObjectsFrom(o, keys, i)
    decreases o, 1, |keys| - i
  {
    hide FieldType, FieldObjects, IsPrefix, IsTypeName, SubPrefix, Generated;
    if i < |keys| {
      var k := keys[i];
      var p := SubPrefix(prefix, k);
      SubPrefixShape(prefix, k);
      FieldTypeFits(tm, root, p, o.fields[k]);
      var (tm1, t) := FieldType(tm, root, p, o.fields[k]).value;
      CompileFromFits(tm1, root, prefix, o, keys, i + 1, if t.None? then acc else acc + [FieldDef(k, t.value)]);
    }
  }

  lemma {:induction false} FieldTypeFits(tm: TypeMap, root: string, prefix: string, v: Json)
    requires IsTypeName(root) && IsPrefix(prefix) && |Generated(tm)| + FieldObjects(v) <= 1000
    ensures FieldType(tm, root, prefix, v).Some?
    ensures |Generated(FieldType(tm, root, prefix, v).value.0)| <= |Generated(tm)| + FieldObjects(v)
    decreases v, 4, 0
  {
    hide Compile, Objects, Generated, Sanitize, IsTypeName, IsPrefix;
    var e := if v.Arr? && v.items != [] then v.items[0] else v;
    if e.Obj? { CompileFits(tm, root, prefix, e); }
  }

  // -------------------------------------------------------------- building succeeds

  /** The message is there, is an object and names its type. */
  predicate WellFormed(payload: Fields, i: nat) {
    && MsgField(i) in payload && payload[MsgField(i)].Obj? && RootType(payload[MsgField(i)]).Some?
  }

  /** The objects of the messages from `i` on. */
  ghost function MessageObjects(payload: Fields, n: nat, i: nat): nat
    requires i <= n
    decreases n - i
  {
    if i == n then 0
    else
      (if MsgField(i) in payload && payload[MsgField(i)].Obj? then Objects(payload[MsgField(i)]) else 0)
      + MessageObjects(payload, n, i + 1)
  }

  lemma {:induction false} AddMsgFits(tm: TypeMap, field: string, msg: Json)
    requires "Tx" in tm && msg.Obj? && RootType(msg).Some? && |Generated(tm)| + Objects(msg) <= 1000
    ensures AddMsg(tm, field, msg).Some?
    ensures |Generated(AddMsg(tm, field, msg).value)| <= |Generated(tm)| + Objects(msg)
  {
    hide Compile, Objects, RootType;
    assert IsPrefix("_");
    CompileFits(tm, RootType(msg).value, "_", msg);
    var (tm', key) := Compile(tm, RootType(msg).value, "_", msg).value;
    assert Generated(AddMsg(tm, field, msg).value) == Generated(tm');
  }

  lemma {:induction false} CreateFromFits(tm: TypeMap, payload: Fields, n: nat, i: nat)
    requires i <= n && "Tx" in tm && |Generated(tm)| + MessageObjects(payload, n, i) <= 1000
    ensures CreateFrom(tm, payload, n, i).Some? <==> forall j :: i <= j < n ==> WellFormed(payload, j)
    decreases n - i
  {
    hide AddMsg, Objects, MsgField, RootType, Generated;
    if i < n {
      if WellFormed(payload, i) {
        AddMsgFits(tm, MsgField(i), payload[MsgField(i)]);
        CreateFromFits(AddMsg(tm, MsgField(i), payload[MsgField(i)]).value, payload, n, i + 1);
      } else if MsgField(i) in payload {
        IllFormed(tm, payload, i);
      }
    }
  }

  lemma {:induction false} IllFormed(tm: TypeMap, payload: Fields, i: nat)
    requires "Tx" in tm && MsgField(i) in payload && !WellFormed(payload, i)
    ensures AddMsg(tm, MsgField(i), payload[MsgField(i)]) == None
  {
  }

  lemma {:induction false} NotGenerated(t: string)
    requires |t| < 4 || t[0] != 'T'
    ensures !IsTypeName(t)
  {
    assert "Type"[0] == 'T';
    assert |t| >= 4 ==> t[..4][0] == t[0];
  }

  /** With at most 1000 objects in its messages, a payload gets a schema exactly when every
      message is there, is an object and names its type. */
  lemma {:induction false} CreateSucceeds(payload: Fields, n: nat)
    requires MessageObjects(payload, n, 0) <= 1000
    ensures Create(payload, n).Some? <==> forall i :: 0 <= i < n ==> WellFormed(payload, i)
  {
    NotGenerated("EIP712Domain");
    NotGenerated("Tx");
    NotGenerated("Fee");
    NotGenerated("Coin");
    assert Generated(INITIAL) == {};
    hide Generated, MessageObjects, CreateFrom;
    CreateFromFits(INITIAL, payload, n, 0);
  }
}
