/** The EIP-712 schema builder (ethereum/eip712/types.go): compiles the messages of a
    transaction into a table of struct types, deduplicating by indexed names. */
module TypeTable {
  import opened Options
  import opened Json
  import opened TypeNames

  datatype FieldDef = FieldDef(name: string, typ: string)

  type TypeMap = map<string, seq<FieldDef>>

  const MAX_DUPLICATES := 1000

  /** The later table holds every entry of the earlier one. */
  predicate Keeps(tm: TypeMap, tm': TypeMap) {
    forall t :: t in tm ==> t in tm' && tm'[t] == tm[t]
  }

  // --------------------------------------------------------------- dedup table

  function IndexedName(typeDef: string, i: nat): string {
    typeDef + Dec(i)
  }

  /** The first index at which `defs` is stored already or nothing is stored. */
  function Probe(tm: TypeMap, typeDef: string, defs: seq<FieldDef>, i: nat): (r: Option<string>)
    requires i <= MAX_DUPLICATES
    ensures r.Some? ==> r.value !in tm || tm[r.value] == defs
    decreases MAX_DUPLICATES - i
  {
    if i == MAX_DUPLICATES then None
    else
      var key := IndexedName(typeDef, i);
      if key !in tm || tm[key] == defs then Some(key) else Probe(tm, typeDef, defs, i + 1)
  }

  function AddTypes(tm: TypeMap, typeDef: string, defs: seq<FieldDef>): (r: Option<(TypeMap, string)>)
    ensures r.Some? ==> Keeps(tm, r.value.0)
  {
    match Probe(tm, typeDef, defs, 0)
    case None => None
    case Some(key) => Some((tm[key := defs], key))
  }

  // ------------------------------------------------------------------ compiling

  function TypeDefFor(prefix: string, root: string): string {
    if prefix == "_" then root else Sanitize(prefix)
  }

  function SubPrefix(prefix: string, field: string): string {
    prefix + "." + field
  }

  function ArrayOf(t: Option<string>): Option<string> {
    if t.None? then None else Some(t.value + "[]")
  }

  /** The type of a value that is not unwrapped further; no type for null and for
      an array. Objects are compiled and enter the table. */
  ghost function ElementType(tm: TypeMap, root: string, prefix: string, v: Json): (r: Option<(TypeMap, Option<string>)>)
    ensures r.Some? ==> Keeps(tm, r.value.0)
    decreases v, 3, 0
  {
    match v
    case Null => Some((tm, None))
    case Bool(_) => Some((tm, Some("bool")))
    case Number(_) => Some((tm, Some("int64")))
    case Str(_) => Some((tm, Some("string")))
    case Arr(_) => Some((tm, None))
    case Obj(_) =>
      match Compile(tm, root, prefix, v)
      case None => None
      case Some((tm', key)) => Some((tm', Some(Sanitize(key))))
  }

  /** The type of a field: arrays are typed by their first element. */
  ghost function FieldType(tm: TypeMap, root: string, prefix: string, v: Json): (r: Option<(TypeMap, Option<string>)>)
    ensures r.Some? ==> Keeps(tm, r.value.0)
    decreases v, 4, 0
  {
    if v.Arr? then
      if v.items == [] then Some((tm, Some("string[]")))
      else match ElementType(tm, root, prefix, v.items[0])
           case None => None
           case Some((tm', t)) => Some((tm', ArrayOf(t)))
    else ElementType(tm, root, prefix, v)
  }

  /** The loop over the sorted keys from index `i` on, with the list built so far. */
  ghost function CompileFrom(
      tm: TypeMap, root: string, prefix: string, o: Json, keys: seq<Key>, i: nat, acc: seq<FieldDef>)
    : (r: Option<(TypeMap, seq<FieldDef>)>)
    requires o.Obj? && i <= |keys| && forall k :: k in keys ==> k in o.fields
    ensures r.Some? ==> Keeps(tm, r.value.0)
    decreases o, 1, |keys| - i
  {
    if i == |keys| then Some((tm, acc))
    else
      var k := keys[i];
      match FieldType(tm, root, SubPrefix(prefix, k), o.fields[k])
      case None => None
      case Some((tm', t)) =>
        CompileFrom(tm', root, prefix, o, keys, i + 1, if t.None? then acc else acc + [FieldDef(k, t.value)])
  }

  /** recursivelyAddTypesToRoot. */
  ghost function Compile(tm: TypeMap, root: string, prefix: string, o: Json): (r: Option<(TypeMap, string)>)
    requires o.Obj?
    ensures r.Some? ==> Keeps(tm, r.value.0)
    decreases o, 2, 0
  {
    match CompileFrom(tm, root, prefix, o, SortedDesc(o.fields.Keys), 0, [])
    case None => None
    case Some((tm', defs)) => AddTypes(tm', TypeDefFor(prefix, root), defs)
  }

  // ------------------------------------------------- what a table says about a value

  /** Whether a field of this value gets a type at all. */
  predicate Representable(v: Json) {
    match v
    case Null => false
    case Arr(items) => items == [] || !(items[0].Null? || items[0].Arr?)
    case _ => true
  }

  /** The representable ones among the first `n` keys, in order. */
  function Selected(fields: map<Key, Json>, keys: seq<Key>, n: nat): seq<string>
    requires n <= |keys| && forall k :: k in keys ==> k in fields
  {
    if n == 0 then []
    else Selected(fields, keys, n - 1) + if Representable(fields[keys[n - 1]]) then [keys[n - 1]] else []
  }

  function Names(defs: seq<FieldDef>): seq<string> {
    seq(|defs|, i requires 0 <= i < |defs| => defs[i].name)
  }

  /** The value has the named type in the table: a primitive, an array of the type
      of its first element, or a struct listing exactly the representable fields in
      descending key order, each field again having the type listed for it. */
  ghost predicate Conforms(tm: TypeMap, v: Json, t: string)
    decreases v, 1
  {
    match v
    case Null => false
    case Bool(_) => t == "bool"
    case Number(_) => t == "int64"
    case Str(_) => t == "string"
    case Arr(items) =>
      if items == [] then t == "string[]"
      else !items[0].Arr? && |t| >= 2 && t[|t| - 2..] == "[]" && Conforms(tm, items[0], t[..|t| - 2])
    case Obj(fields) =>
      && IsTypeName(t) && t in tm
      && var keys := SortedDesc(fields.Keys);
      && Names(tm[t]) == Selected(fields, keys, |keys|)
      && FieldsConform(tm, v, tm[t])
  }

  ghost predicate FieldsConform(tm: TypeMap, o: Json, defs: seq<FieldDef>)
    requires o.Obj?
    decreases o, 0
  {
    forall i :: 0 <= i < |defs| ==> defs[i].name in o.fields && Conforms(tm, o.fields[defs[i].name], defs[i].typ)
  }

  /** The later table keeps every generated entry of the earlier one. */
  predicate Grows(tm: TypeMap, tm': TypeMap) {
    forall t :: t in tm && IsTypeName(t) ==> t in tm' && tm'[t] == tm[t]
  }

  /** Entries stay valid while the table grows. */
  lemma {:induction false} ConformsGrows(tm: TypeMap, tm': TypeMap, v: Json, t: string)
    requires Grows(tm, tm') && Conforms(tm, v, t)
    ensures Conforms(tm', v, t)
    decreases v
  {
    match v
    case Arr(items) =>
      if items != [] { ConformsGrows(tm, tm', items[0], t[..|t| - 2]); }
    case Obj(fields) =>
      FieldsConformGrows(tm, tm', v, tm[t]);
    case _ =>
  }

  lemma {:induction false} FieldsConformGrows(tm: TypeMap, tm': TypeMap, o: Json, defs: seq<FieldDef>)
    requires o.Obj? && Grows(tm, tm') && FieldsConform(tm, o, defs)
    ensures FieldsConform(tm', o, defs)
    decreases o, 0
  {
    forall i | 0 <= i < |defs| ensures Conforms(tm', o.fields[defs[i].name], defs[i].typ) {
      ConformsGrows(tm, tm', o.fields[defs[i].name], defs[i].typ);
    }
  }

  // ------------------------------------------------------------- the dedup table

  /** All candidates from `i` up to `j` are taken by other definitions. */
  predicate FirstCandidate(tm: TypeMap, typeDef: string, defs: seq<FieldDef>, i: nat, j: nat) {
    forall k :: i <= k < j ==> IndexedName(typeDef, k) in tm && tm[IndexedName(typeDef, k)] != defs
  }

  lemma {:induction false} ProbeSpec(tm: TypeMap, typeDef: string, defs: seq<FieldDef>, i: nat)
    requires i <= MAX_DUPLICATES
    ensures match Probe(tm, typeDef, defs, i)
            case None =>
              forall j :: i <= j < MAX_DUPLICATES ==>
                IndexedName(typeDef, j) in tm && tm[IndexedName(typeDef, j)] != defs
            case Some(key) =>
              && (key !in tm || tm[key] == defs)
              && exists j :: && i <= j < MAX_DUPLICATES && FirstCandidate(tm, typeDef, defs, i, j)
                             && key == IndexedName(typeDef, j)
    decreases MAX_DUPLICATES - i
  {
    hide IndexedName;
    if i < MAX_DUPLICATES {
      var key := IndexedName(typeDef, i);
      if key !in tm || tm[key] == defs {
        assert FirstCandidate(tm, typeDef, defs, i, i);
      } else {
        ProbeSpec(tm, typeDef, defs, i + 1);
        if Probe(tm, typeDef, defs, i + 1).Some? {
          var j :| && i + 1 <= j < MAX_DUPLICATES && FirstCandidate(tm, typeDef, defs, i + 1, j)
                   && Probe(tm, typeDef, defs, i + 1).value == IndexedName(typeDef, j);
          assert FirstCandidate(tm, typeDef, defs, i, j);
        }
      }
    }
  }

  /** Adding never overwrites an entry, binds the returned key to exactly the
      requested definition and touches no other key. The key is the first candidate that is
      free or holds the same; there is none only when all 1000 hold other definitions. */
  lemma {:induction false} AddTypesSpec(tm: TypeMap, typeDef: string, defs: seq<FieldDef>)
    ensures AddTypes(tm, typeDef, defs).None? <==> FirstCandidate(tm, typeDef, defs, 0, 1000)
    ensures AddTypes(tm, typeDef, defs).Some? ==>
              var (tm', key) := AddTypes(tm, typeDef, defs).value;
              && tm'.Keys == tm.Keys + {key} && tm'[key] == defs
              && (forall t :: t in tm ==> tm'[t] == tm[t])
              && exists j: nat :: j < 1000 && FirstCandidate(tm, typeDef, defs, 0, j) && key == IndexedName(typeDef, j)
  {
    hide IndexedName, Probe;
    ProbeSpec(tm, typeDef, defs, 0);
    if Probe(tm, typeDef, defs, 0).Some? {
      var key := Probe(tm, typeDef, defs, 0).value;
      var j :| 0 <= j < MAX_DUPLICATES && FirstCandidate(tm, typeDef, defs, 0, j) && key == IndexedName(typeDef, j);
    }
  }

  /** On any table that kept what was added, adding the same again finds it. */
  lemma {:induction false} ProbeStable(tm: TypeMap, typeDef: string, defs: seq<FieldDef>, i: nat, tm2: TypeMap)
    requires i <= MAX_DUPLICATES && IsTypeName(typeDef)
    requires Probe(tm, typeDef, defs, i).Some?
    requires var key := Probe(tm, typeDef, defs, i).value; key in tm2 && tm2[key] == defs
    requires Grows(tm, tm2)
    ensures Probe(tm2, typeDef, defs, i) == Probe(tm, typeDef, defs, i)
    decreases MAX_DUPLICATES - i
  {
    var key := IndexedName(typeDef, i);
    assert IsTypeName(key) by { assert key[..4] == typeDef[..4]; }
    if key in tm && tm[key] != defs { ProbeStable(tm, typeDef, defs, i + 1, tm2); }
  }

  // ------------------------------------------------------------------- soundness

  const PRIMITIVES := {"bool", "int64", "string", "uint256"}

  /** A type name geth can resolve: a primitive or a key, or an array of one. */
  predicate Resolvable(tm: TypeMap, t: string) {
    || t in PRIMITIVES || t in tm
    || (|t| >= 2 && t[|t| - 2..] == "[]" && (t[..|t| - 2] in PRIMITIVES || t[..|t| - 2] in tm))
  }

  /** Every type name used in the table resolves in the table. */
  predicate Closed(tm: TypeMap) {
    forall t, i :: t in tm && 0 <= i < |tm[t]| ==> Resolvable(tm, tm[t][i].typ)
  }

  lemma {:induction false} ConformsResolvable(tm: TypeMap, v: Json, t: string)
    requires Conforms(tm, v, t)
    ensures Resolvable(tm, t)
  {
    match v
    case Arr(items) => if items == [] { assert t[..|t| - 2] == "string"; }
    case _ =>
  }

  /** An entry whose fields conform keeps the table closed. */
  lemma {:induction false} ClosedAdd(tm: TypeMap, tm': TypeMap, key: string, o: Json, defs: seq<FieldDef>)
    requires o.Obj? && Closed(tm) && FieldsConform(tm, o, defs) && Keeps(tm, tm')
    requires tm'.Keys == tm.Keys + {key} && tm'[key] == defs
    ensures Closed(tm')
  {
    forall t, i | t in tm' && 0 <= i < |tm'[t]| ensures Resolvable(tm', tm'[t][i].typ) {
      if t in tm {
        assert Resolvable(tm, tm[t][i].typ);
      } else {
        assert Conforms(tm, o.fields[defs[i].name], defs[i].typ);
        ConformsResolvable(tm, o.fields[defs[i].name], defs[i].typ);
      }
    }
  }

  lemma {:induction false} IndexedNameShape(typeDef: string, i: nat)
    requires IsTypeName(typeDef)
    ensures IsTypeName(IndexedName(typeDef, i))
  {
    assert IndexedName(typeDef, i)[..4] == typeDef[..4];
  }

  lemma {:induction false} SubPrefixShape(prefix: string, field: string)
    requires IsPrefix(prefix)
    ensures IsPrefix(SubPrefix(prefix, field)) && SubPrefix(prefix, field) != "_"
  {
  }

  /** Compiling an object leaves a table in which the object conforms to the returned
      key; nothing stored before is lost, and a closed table stays closed. Below the
      root, the second sanitising pass does not change the key. */
  lemma {:induction false} CompileSound(tm: TypeMap, root: string, prefix: string, o: Json)
    requires o.Obj? && IsTypeName(root) && IsPrefix(prefix)
    requires Compile(tm, root, prefix, o).Some?
    ensures var (tm', key) := Compile(tm, root, prefix, o).value;
            && (Closed(tm) ==> Closed(tm'))
            && Conforms(tm', o, key)
            && (prefix != "_" ==> Sanitize(key) == key)
    decreases o, 2, 0
  {
    var keys := SortedDesc(o.fields.Keys);
    CompileFromSound(tm, root, prefix, o, keys, 0, []);
    var (tm1, defs) := CompileFrom(tm, root, prefix, o, keys, 0, []).value;
    var typeDef := TypeDefFor(prefix, root);
    var (tm', key) := Compile(tm, root, prefix, o).value;
    SanitizeShape(prefix);
    AddTypesSpec(tm1, typeDef, defs);
    var j: nat :| j < 1000 && FirstCandidate(tm1, typeDef, defs, 0, j) && key == IndexedName(typeDef, j);
    IndexedNameShape(typeDef, j);
    if prefix != "_" { SanitizeFixesNames(prefix, j); }
    hide Sanitize, AddTypes, CompileFrom, IsTypeName, IndexedName;
    FieldsConformGrows(tm1, tm', o, defs);
    if Closed(tm) { ClosedAdd(tm1, tm', key, o, defs); }
  }

  lemma {:induction false} CompileFromSound(
      tm: TypeMap, root: string, prefix: string, o: Json, keys: seq<Key>, i: nat, acc: seq<FieldDef>)
    requires o.Obj? && i <= |keys| && forall k :: k in keys ==> k in o.fields
    requires IsTypeName(root) && IsPrefix(prefix)
    requires Names(acc) == Selected(o.fields, keys, i) && FieldsConform(tm, o, acc)
    requires CompileFrom(tm, root, prefix, o, keys, i, acc).Some?
    ensures var (tm', defs) := CompileFrom(tm, root, prefix, o, keys, i, acc).value;
            && (Closed(tm) ==> Closed(tm'))
            && Names(defs) == Selected(o.fields, keys, |keys|) && FieldsConform(tm', o, defs)
    decreases o, 1, |keys| - i
  {
    hide Conforms, FieldsConform, Names, FieldType, IsPrefix, IsTypeName, SubPrefix, Representable, Closed;
    if i < |keys| {
      var k := keys[i];
      var p := SubPrefix(prefix, k);
      SubPrefixShape(prefix, k);
      FieldTypeSound(tm, root, p, o.fields[k]);
      var (tm1, t) := FieldType(tm, root, p, o.fields[k]).value;
      var acc1 := if t.None? then acc else acc + [FieldDef(k, t.value)];
      FieldsConformGrows(tm, tm1, o, acc);
      if t.Some? { FieldAppended(tm1, o, acc, FieldDef(k, t.value)); }
      CompileFromSound(tm1, root, prefix, o, keys, i + 1, acc1);
    }
  }

  lemma {:induction false} FieldAppended(tm: TypeMap, o: Json, acc: seq<FieldDef>, d: FieldDef)
    requires o.Obj? && FieldsConform(tm, o, acc)
    requires d.name in o.fields && Conforms(tm, o.fields[d.name], d.typ)
    ensures FieldsConform(tm, o, acc + [d]) && Names(acc + [d]) == Names(acc) + [d.name]
  {
    hide Conforms;
  }

  lemma {:induction false} FieldTypeSound(tm: TypeMap, root: string, prefix: string, v: Json)
    requires IsTypeName(root) && IsPrefix(prefix) && prefix != "_"
    requires FieldType(tm, root, prefix, v).Some?
    ensures var (tm', t) := FieldType(tm, root, prefix, v).value;
            && (Closed(tm) ==> Closed(tm'))
            && (t.Some? <==> Representable(v)) && (t.Some? ==> Conforms(tm', v, t.value))
    decreases v, 4, 0
  {
    if v.Arr? {
      if v.items != [] {
        ElementTypeSound(tm, root, prefix, v.items[0]);
        var (tm', u) := ElementType(tm, root, prefix, v.items[0]).value;
        if u.Some? {
          var t := u.value + "[]";
          assert t[|t| - 2..] == "[]" && t[..|t| - 2] == u.value;
        }
      }
    } else {
      ElementTypeSound(tm, root, prefix, v);
    }
  }

  lemma {:induction false} ElementTypeSound(tm: TypeMap, root: string, prefix: string, v: Json)
    requires IsTypeName(root) && IsPrefix(prefix) && prefix != "_"
    requires ElementType(tm, root, prefix, v).Some?
    ensures var (tm', t) := ElementType(tm, root, prefix, v).value;
            && (Closed(tm) ==> Closed(tm'))
            && (t.Some? <==> !v.Null? && !v.Arr?) && (t.Some? ==> Conforms(tm', v, t.value))
    decreases v, 3, 0
  {
    if v.Obj? { CompileSound(tm, root, prefix, v); }
  }

  // ------------------------------------------------------------------- stability

  /** Compiling again, on any table grown from the result, returns the same key and
      leaves that table as it is. */
  lemma {:induction false} CompileStable(tm: TypeMap, root: string, prefix: string, o: Json, tm2: TypeMap)
    requires o.Obj? && IsTypeName(root) && IsPrefix(prefix)
    requires Compile(tm, root, prefix, o).Some? && Grows(Compile(tm, root, prefix, o).value.0, tm2)
    ensures Compile(tm2, root, prefix, o) == Some((tm2, Compile(tm, root, prefix, o).value.1))
    decreases o, 2, 0
  {
    var keys := SortedDesc(o.fields.Keys);
    var (tm1, defs) := CompileFrom(tm, root, prefix, o, keys, 0, []).value;
    var typeDef := TypeDefFor(prefix, root);
    var (tm', key) := Compile(tm, root, prefix, o).value;
    SanitizeShape(prefix);
    AddTypesSpec(tm1, typeDef, defs);
    CompileFromStable(tm, root, prefix, o, keys, 0, [], tm2);
    var j: nat :| j < 1000 && FirstCandidate(tm1, typeDef, defs, 0, j) && key == IndexedName(typeDef, j);
    IndexedNameShape(typeDef, j);
    ProbeStable(tm1, typeDef, defs, 0, tm2);
    assert tm2[key := defs] == tm2;
  }

  lemma {:induction false} CompileFromStable(
      tm: TypeMap, root: string, prefix: string, o: Json, keys: seq<Key>, i: nat, acc: seq<FieldDef>, tm2: TypeMap)
    requires o.Obj? && i <= |keys| && forall k :: k in keys ==> k in o.fields
    requires IsTypeName(root) && IsPrefix(prefix)
    requires CompileFrom(tm, root, prefix, o, keys, i, acc).Some?
    requires Grows(CompileFrom(tm, root, prefix, o, keys, i, acc).value.0, tm2)
    ensures CompileFrom(tm2, root, prefix, o, keys, i, acc)
            == Some((tm2, CompileFrom(tm, root, prefix, o, keys, i, acc).value.1))
    decreases o, 1, |keys| - i
  {
    if i < |keys| {
      var k := keys[i];
      var p := SubPrefix(prefix, k);
      var (tm1, t) := FieldType(tm, root, p, o.fields[k]).value;
      SubPrefixShape(prefix, k);
      CompileFromStable(tm1, root, prefix, o, keys, i + 1, if t.None? then acc else acc + [FieldDef(k, t.value)], tm2);
      FieldTypeStable(tm, root, p, o.fields[k], tm2);
    }
  }

  lemma {:induction false} FieldTypeStable(tm: TypeMap, root: string, prefix: string, v: Json, tm2: TypeMap)
    requires IsTypeName(root) && IsPrefix(prefix)
    requires FieldType(tm, root, prefix, v).Some? && Grows(FieldType(tm, root, prefix, v).value.0, tm2)
    ensures FieldType(tm2, root, prefix, v) == Some((tm2, FieldType(tm, root, prefix, v).value.1))
    decreases v, 4, 0
  {
    var e := if v.Arr? && v.items != [] then v.items[0] else v;
    if e.Obj? { CompileStable(tm, root, prefix, e, tm2); }
  }
}
