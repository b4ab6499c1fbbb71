/** The incremental import, as functions on values: rebuilding a symbol table from an exported
    document, reading the ledger of sources, and the ledger delta `DropParsedFiles`.

    Every read goes through `Get`, which asserts that the member exists; a failed assertion is
    `Err`. Each imported record is first installed (or found) through a first-wins install and
    then filled in; every referenced structure is installed into the shared table as a stub
    `Structure{id}` through `Install2`, so an entry may be read before or after the entries
    that refer to it. */
module Incremental {
  import opened Wrappers
  import opened Symbols
  import opened JsonValues
  import Tables
  import Text

  // ----- converters from names to enumerators ----------------------------------------------
  // The converters are not part of this model: they are taken to invert the names the export
  // writes and to reject any other name.

  function ToAccessType(s: string): (r: Result<AccessType>)
    ensures r.Ok? ==> AccessTypeStr(r.value) == s
  {
    match s
    case "public" => Ok(AccessType.Public)
    case "protected" => Ok(AccessType.Protected)
    case "private" => Ok(AccessType.Private)
    case "unknown" => Ok(AccessType.Unknown)
    case _ => Err("unknown access specifier " + s)
  }

  function ToMethodType(s: string): (r: Result<MethodType>)
    ensures r.Ok? ==> r.value != MethodType.Undefined && MethodTypeAsString(r.value) == s
  {
    match s
    case "Constructor_UserDefined" => Ok(MethodType.ConstructorUserDefined)
    case "Constructor_Trivial" => Ok(MethodType.ConstructorTrivial)
    case "Destructor_UserDefined" => Ok(MethodType.DestructorUserDefined)
    case "Destructor_Trivial" => Ok(MethodType.DestructorTrivial)
    case "OverloadedOperator_UserDefined" => Ok(MethodType.OverloadedOperatorUserDefined)
    case "OverloadedOperator_Trivial" => Ok(MethodType.OverloadedOperatorTrivial)
    case "UserMethod" => Ok(MethodType.UserMethod)
    case "TemplateDefinition" => Ok(MethodType.TemplateDefinition)
    case "TemplateFullSpecialization" => Ok(MethodType.TemplateFullSpecialization)
    case "TemplateInstantiationSpecialization" => Ok(MethodType.TemplateInstantiationSpecialization)
    case _ => Err("unknown method type " + s)
  }

  function ToStructureType(s: string): (r: Result<StructureType>)
    ensures r.Ok? ==> StructureTypeAsString(r.value) == s
  {
    match s
    case "Undefined" => Ok(StructureType.Undefined)
    case "Class" => Ok(StructureType.Class)
    case "Struct" => Ok(StructureType.Struct)
    case "TemplateDefinition" => Ok(StructureType.TemplateDefinition)
    case "TemplateFullSpecialization" => Ok(StructureType.TemplateFullSpecialization)
    case "TemplateInstantiationSpecialization" => Ok(StructureType.TemplateInstantiationSpecialization)
    case "TemplatePartialSpecialization" => Ok(StructureType.TemplatePartialSpecialization)
    case _ => Err("unknown structure type " + s)
  }

  /** Each converter reads back the name the export writes. */
  lemma AccessTypeReadBack(a: AccessType)
    ensures ToAccessType(AccessTypeStr(a)) == Ok(a)
  {
    match a
    case Unknown =>
    case Public =>
    case Protected =>
    case Private =>
  }

  lemma MethodTypeReadBack(m: MethodType)
    requires m != MethodType.Undefined
    ensures ToMethodType(MethodTypeAsString(m)) == Ok(m)
  {
  }

  lemma StructureTypeReadBack(t: StructureType)
    ensures ToStructureType(StructureTypeAsString(t)) == Ok(t)
  {
  }

  // ----- dependency stubs ------------------------------------------------------------------

  /** The shared table after `Install2(id, Structure{id})` for every ID in `deps`: IDs
      already present keep their record, the others get a stub named by its ID. */
  function AddStubs(t: Table, deps: set<ID>): (r: Table)
    ensures r.byID.Keys == t.byID.Keys + deps
    ensures forall k | k in t.byID :: r.byID[k] == t.byID[k]
    ensures forall k | k in deps && k !in t.byID :: r.byID[k] == StructureStub(k)
  {
    Table(map k | k in t.byID.Keys + deps :: if k in t.byID then t.byID[k] else StructureStub(k))
  }

  /** One dependency install is one stub. */
  lemma InstallDependencyIsStub(t: Table, id: ID)
    ensures Tables.Install2(t, id, StructureStub(id)).table == AddStubs(t, {id})
    ensures Tables.Install2(t, id, StructureStub(id)).symbol == AddStubs(t, {id}).byID[id]
  {
    assert Tables.Install2(t, id, StructureStub(id)).table.byID == AddStubs(t, {id}).byID;
  }

  lemma AddStubsCompose(t: Table, a: set<ID>, b: set<ID>)
    ensures AddStubs(AddStubs(t, a), b) == AddStubs(t, a + b)
  {
    assert AddStubs(AddStubs(t, a), b).byID == AddStubs(t, a + b).byID;
  }

  lemma AddStubsNone(t: Table)
    ensures AddStubs(t, {}) == t
  {
    assert AddStubs(t, {}).byID == t.byID;
  }

  function OptSet(o: Option<ID>): set<ID> {
    if o.Some? then {o.value} else {}
  }

  function SetOf(ids: seq<ID>): set<ID> {
    set x | x in ids
  }

  /** The names `ForEach` visits. */
  function Names(es: seq<(string, Json)>): (r: set<string>)
    ensures forall i | 0 <= i < |es| :: es[i].0 in r
    decreases |es|
  {
    if es == [] then {} else Names(es[..|es| - 1]) + {es[|es| - 1].0}
  }

  /** `k` is one of the names `ForEach` visits exactly when some entry carries it. */
  lemma {:induction false} NamesMember(es: seq<(string, Json)>, k: string)
    ensures k in Names(es) <==> exists j | 0 <= j < |es| :: es[j].0 == k
    decreases |es|
  {
    if es != [] {
      var init := es[..|es| - 1];
      NamesMember(init, k);
      if k in Names(init) {
        var j :| 0 <= j < |init| && init[j].0 == k;
        assert es[j].0 == k;
      }
      if j :| 0 <= j < |es| && es[j].0 == k {
        if j < |es| - 1 {
          assert init[j].0 == k;
        }
      }
    }
  }

  /** A record or table built by the import, and the IDs whose stubs it installed. */
  datatype Built<T> = Built(value: T, deps: set<ID>)

  // ----- deserializers ---------------------------------------------------------------------

  function GetString(v: Json, key: string): Result<string> {
    var j :- Get(v, key);
    AsString(j)
  }

  function GetInt(v: Json, key: string): (r: Result<int32>)
    ensures r.Ok? ==> v.Obj? && key in v.members
  {
    var j :- Get(v, key);
    var i :- AsInt(j);
    Ok(i as int32)
  }

  /** `DeserializeSrcInfo`. */
  function ImportSrcInfo(v: Json): (r: Result<SourceInfo>)
    ensures r.Ok? ==> v.Obj? && "file" in v.members && "line" in v.members && "col" in v.members
  {
    var file :- GetString(v, "file");
    var line :- GetInt(v, "line");
    var col :- GetInt(v, "col");
    Ok(SourceInfo(file, line, col))
  }

  /** `InstallDependency`: null is no reference, a string is the ID of a structure; an
      array or any other value fails the source's assertions. */
  function ImportDependency(v: Json): (r: Result<Option<ID>>)
    ensures r.Ok? <==> v.Null? || v.Str?
    ensures r.Ok? ==> (r.value.None? <==> v.Null?)
  {
    if v.Arr? then Err("dependency is an array")
    else if v.Null? then Ok(None)
    else if v.Str? then Ok(Some(v.s))
    else Err("dependency is not a string")
  }

  /** `InstallDependencies`: every visited value must be a string. */
  function ImportDependencies(items: seq<Json>): (r: Result<seq<ID>>)
    ensures r.Ok? <==> forall i | 0 <= i < |items| :: items[i].Str?
    ensures r.Ok? ==> |r.value| == |items| && forall i | 0 <= i < |items| :: r.value[i] == items[i].s
    decreases |items|
  {
    if items == [] then Ok([])
    else
      var ids :- ImportDependencies(items[..|items| - 1]);
      var last := items[|items| - 1];
      if last.Str? then Ok(ids + [last.s]) else Err("dependency is not a string")
  }

  /** `DeserializeDefinition`, with `DeserializeDefinitionWithAccessSpecifier` when
      `withAccess` holds. */
  function DeserializeDefinition(start: Symbol, id: ID, v: Json, withAccess: bool): (r: Result<Symbol>)
    requires start.kind.DefinitionKind?
    ensures r.Ok? ==> r.value.kind.DefinitionKind? && r.value.id == id
    ensures r.Ok? && withAccess ==> v.Obj? && "access" in v.members
    ensures r.Ok? && !withAccess ==> r.value.access == start.access
  {
    var name :- GetString(v, "name");
    var fullType :- GetString(v, "full_type");
    var srcJson :- Get(v, "src_info");
    var src :- ImportSrcInfo(srcJson);
    var d := start.(id := id, name := name, srcInfo := src, kind := start.kind.(fullType := fullType));
    if withAccess then
      var a :- GetString(v, "access");
      var access :- ToAccessType(a);
      Ok(d.(access := access))
    else Ok(d)
  }

  /** One field, argument or local definition: deserialized, its type installed as a
      dependency, its namespace taken from its owner. */
  function ImportDefinition(start: Symbol, id: ID, v: Json, ns: string, withAccess: bool): (r: Result<Built<Symbol>>)
    requires start.kind.DefinitionKind?
    ensures r.Ok? ==> r.value.value.kind.DefinitionKind? && r.value.value.nameSpace == ns && r.value.value.id == id
    ensures r.Ok? ==> r.value.deps == OptSet(r.value.value.kind.definitionType)
  {
    var d :- DeserializeDefinition(start, id, v, withAccess);
    var typeJson :- Get(v, "type");
    var ty :- ImportDependency(typeJson);
    Ok(Built(d.(nameSpace := ns, kind := d.kind.(definitionType := ty)), OptSet(ty)))
  }

  /** One visit of the `ForEach` over a table of definitions: the name is installed
      (first-wins) as an empty definition, which is then filled in. A stored record of another
      kind would be reinterpreted by the source; the model reports it as an error. */
  function DefinitionStep(t: Table, id: ID, v: Json, ns: string, withAccess: bool): (r: Result<Built<Table>>)
    ensures r.Ok? ==> r.value.value.byID.Keys == t.byID.Keys + {id}
    ensures r.Ok? ==> forall k | k in t.byID && k != id :: r.value.value.byID[k] == t.byID[k]
  {
    var ins := Tables.InstallDefinition(t, id, EmptyDefinition());
    if !ins.symbol.kind.DefinitionKind? then Err("record of another kind")
    else
      var d :- ImportDefinition(ins.symbol, id, v, ns, withAccess);
      Ok(Built(Table(ins.table.byID[id := d.value]), d.deps))
  }

  /** The `ForEach` over a table of definitions (fields, arguments or local definitions). */
  function ImportDefinitions(t: Table, es: seq<(string, Json)>, ns: string, withAccess: bool): (r: Result<Built<Table>>)
    ensures r.Ok? ==> r.value.value.byID.Keys == t.byID.Keys + Names(es)
    decreases |es|
  {
    if es == [] then Ok(Built(t, {}))
    else
      var before :- ImportDefinitions(t, es[..|es| - 1], ns, withAccess);
      var step :- DefinitionStep(before.value, es[|es| - 1].0, es[|es| - 1].1, ns, withAccess);
      Ok(Built(step.value, before.deps + step.deps))
  }

  /** `DeserializeMethod`. */
  function DeserializeMethod(start: Symbol, id: ID, v: Json): (r: Result<Symbol>)
    requires start.kind.MethodKind?
    ensures r.Ok? ==> r.value.kind.MethodKind? && r.value.kind.methodType != MethodType.Undefined
    ensures r.Ok? ==> r.value.id == id
  {
    var name :- GetString(v, "name");
    var branches :- GetInt(v, "branches");
    var lines :- GetInt(v, "lines");
    var literals :- GetInt(v, "literals");
    var loops :- GetInt(v, "loops");
    var maxScope :- GetInt(v, "max_scope");
    var a :- GetString(v, "access");
    var access :- ToAccessType(a);
    var srcJson :- Get(v, "src_info");
    var src :- ImportSrcInfo(srcJson);
    var statements :- GetInt(v, "statements");
    var virtualJson :- Get(v, "virtual");
    var isVirtual :- AsBool(virtualJson);
    var mt :- GetString(v, "method_type");
    var methodType :- ToMethodType(mt);
    Ok(start.(id := id, name := name, access := access, srcInfo := src,
      kind := start.kind.(branches := branches, lineCount := lines, literals := literals, loops := loops,
        maxScopeDepth := maxScope, statements := statements, isVirtual := isVirtual, methodType := methodType)))
  }

  /** `InstallMethodReturnType`: "void" reads as no return type; any other string is the ID
      of a structure. */
  function ImportReturnType(v: Json): (r: Result<Option<ID>>)
    ensures r.Ok? <==> v.Obj? && "ret_type" in v.members && v.members["ret_type"].Str?
    ensures r.Ok? ==> (r.value.None? <==> v.members["ret_type"].s == "void")
  {
    var ret :- Get(v, "ret_type");
    if !ret.Str? then Err("return type is not a string")
    else if ret.s == "void" then Ok(None)
    else Ok(Some(ret.s))
  }

  /** One method of a structure. */
  function ImportMethod(start: Symbol, id: ID, v: Json, ns: string): (r: Result<Built<Symbol>>)
    requires start.kind.MethodKind?
    ensures r.Ok? ==> r.value.value.kind.MethodKind? && r.value.value.nameSpace == ns && r.value.value.id == id
    ensures r.Ok? ==> OptSet(r.value.value.kind.returnType) <= r.value.deps
  {
    var m :- DeserializeMethod(start, id, v);
    var ret :- ImportReturnType(v);
    var argsJson :- Get(v, "args");
    var args :- ImportDefinitions(m.kind.arguments, Entries(argsJson), ns, false);
    var defsJson :- Get(v, "definitions");
    var defs :- ImportDefinitions(m.kind.definitions, Entries(defsJson), ns, false);
    var targsJson :- Get(v, "template_args");
    var targs :- ImportDependencies(Items(targsJson));
    Ok(Built(
      m.(nameSpace := ns, kind := m.kind.(returnType := ret, arguments := args.value, definitions := defs.value,
        templateArgs := Tables.InstallRefs(m.kind.templateArgs, targs))),
      OptSet(ret) + args.deps + defs.deps + SetOf(targs)))
  }

  /** One visit of the `ForEach` over the methods of a structure. */
  function MethodStep(t: Table, id: ID, v: Json, ns: string): (r: Result<Built<Table>>)
    ensures r.Ok? ==> r.value.value.byID.Keys == t.byID.Keys + {id}
    ensures r.Ok? ==> forall k | k in t.byID && k != id :: r.value.value.byID[k] == t.byID[k]
  {
    var ins := Tables.InstallMethod(t, id, EmptyMethod());
    if !ins.symbol.kind.MethodKind? then Err("record of another kind")
    else
      var m :- ImportMethod(ins.symbol, id, v, ns);
      Ok(Built(Table(ins.table.byID[id := m.value]), m.deps))
  }

  /** The `ForEach` over the methods of a structure. */
  function ImportMethods(t: Table, es: seq<(string, Json)>, ns: string): (r: Result<Built<Table>>)
    ensures r.Ok? ==> r.value.value.byID.Keys == t.byID.Keys + Names(es)
    decreases |es|
  {
    if es == [] then Ok(Built(t, {}))
    else
      var before :- ImportMethods(t, es[..|es| - 1], ns);
      var step :- MethodStep(before.value, es[|es| - 1].0, es[|es| - 1].1, ns);
      Ok(Built(step.value, before.deps + step.deps))
  }

  /** `DeserializeStructure`: overwrites the ID, name, namespace, structure type and source
      information, and nothing else. */
  function DeserializeStructure(start: Symbol, id: ID, v: Json): (r: Result<Symbol>)
    requires start.kind.StructureKind?
    ensures r.Ok? ==> r.value.kind.StructureKind?
    ensures r.Ok? ==> r.value.id == id && r.value.access == start.access
    ensures r.Ok? ==> r.value.kind.(structureType := start.kind.structureType) == start.kind
  {
    var name :- GetString(v, "name");
    var nameSpace :- GetString(v, "namespace");
    var st :- GetString(v, "structure_type");
    var structureType :- ToStructureType(st);
    var srcJson :- Get(v, "src_info");
    var src :- ImportSrcInfo(srcJson);
    Ok(start.(id := id, name := name, nameSpace := nameSpace, srcInfo := src,
      kind := start.kind.(structureType := structureType)))
  }

  /** The steps of `ImportStructure` after the record was found or created, in the source's
      order: nested classes, bases, fields, friends, methods, nested parent, template parent,
      template arguments. */
  function ImportStructureRecord(start: Symbol, id: ID, v: Json): (r: Result<Built<Symbol>>)
    requires start.kind.StructureKind?
    ensures r.Ok? ==> r.value.value.kind.StructureKind? && r.value.value.id == id
    ensures r.Ok? ==> OptSet(r.value.value.kind.templateParent) + OptSet(r.value.value.kind.nestedParent) <= r.value.deps
  {
    var s :- DeserializeStructure(start, id, v);
    ImportRelations(s, v)
  }

  /** The relationships of a structure, read in the source's order into the record `s`;
      fields and methods take the structure's namespace. */
  function ImportRelations(s: Symbol, v: Json): (r: Result<Built<Symbol>>)
    requires s.kind.StructureKind?
    ensures r.Ok? ==> r.value.value.kind.StructureKind? && r.value.value.id == s.id
    ensures r.Ok? ==> OptSet(r.value.value.kind.templateParent) + OptSet(r.value.value.kind.nestedParent) <= r.value.deps
  {
    var ns := s.nameSpace;
    var containsJson :- Get(v, "contains");
    var contains :- ImportDependencies(Items(containsJson));
    var basesJson :- Get(v, "bases");
    var bases :- ImportDependencies(Items(basesJson));
    var fieldsJson :- Get(v, "fields");
    var fields :- ImportDefinitions(s.kind.fields, Entries(fieldsJson), ns, true);
    var friendsJson :- Get(v, "friends");
    var friends :- ImportDependencies(Items(friendsJson));
    var methodsJson :- Get(v, "methods");
    var methods :- ImportMethods(s.kind.methods, Entries(methodsJson), ns);
    var nestedJson :- Get(v, "nested_parent");
    var nested :- ImportDependency(nestedJson);
    var parentJson :- Get(v, "template_parent");
    var parent :- ImportDependency(parentJson);
    var targsJson :- Get(v, "template_args");
    var targs :- ImportDependencies(Items(targsJson));
    var k := s.kind;
    Ok(Built(
      s.(kind := k.(contains := Tables.InstallRefs(k.contains, contains), bases := Tables.InstallRefs(k.bases, bases),
        fields := fields.value, friends := Tables.InstallRefs(k.friends, friends), methods := methods.value,
        nestedParent := nested, templateParent := parent, templateArgs := Tables.InstallRefs(k.templateArgs, targs))),
      SetOf(contains) + SetOf(bases) + fields.deps + SetOf(friends) + methods.deps
        + OptSet(nested) + OptSet(parent) + SetOf(targs)))
  }

  /** `ImportStructure`: `Install2(id, Structure{})` finds the stub a dependency left, or
      creates the record; the record is filled in and every dependency gets a stub. No other
      existing entry changes. */
  function ImportStructure(t: Table, id: ID, v: Json): (r: Result<Table>)
    ensures r.Ok? ==> id in r.value.byID && r.value.byID[id].kind.StructureKind? && r.value.byID[id].id == id
    ensures r.Ok? ==> t.byID.Keys + {id} <= r.value.byID.Keys
    ensures r.Ok? ==> forall k | k in t.byID && k != id :: r.value.byID[k] == t.byID[k]
    ensures r.Ok? ==> forall k | k in r.value.byID && k !in t.byID && k != id :: r.value.byID[k] == StructureStub(k)
  {
    var ins := Tables.Install2(t, id, EmptyStructure());
    if !ins.symbol.kind.StructureKind? then Err("record of another kind")
    else
      var b :- ImportStructureRecord(ins.symbol, id, v);
      Ok(Table(AddStubs(ins.table, b.deps).byID[id := b.value]))
  }

  /** An entry read after a dependency left a stub under its ID gives the same table as when
      it is read first: `Install2` returns the stub instead of creating `Structure{}`, and
      both are filled in alike. */
  lemma ImportAfterReference(t: Table, id: ID, v: Json)
    requires id !in t.byID
    ensures ImportStructure(AddStubs(t, {id}), id, v) == ImportStructure(t, id, v)
  {
    var referenced := AddStubs(t, {id});
    var stub := Tables.Install2(referenced, id, EmptyStructure());
    var created := Tables.Install2(t, id, EmptyStructure());
    assert stub.symbol == StructureStub(id);
    assert created.symbol == Tables.CopyStructure(EmptyStructure());
    assert DeserializeStructure(stub.symbol, id, v) == DeserializeStructure(created.symbol, id, v);
    var r := ImportStructureRecord(stub.symbol, id, v);
    if r.Ok? {
      OverwrittenStub(t, id, created.symbol, r.value.deps, r.value.value);
    }
  }

  /** Whatever record sits under `id` before the stubs are added, overwriting it leaves the
      same table. */
  lemma OverwrittenStub(t: Table, id: ID, e: Symbol, deps: set<ID>, x: Symbol)
    requires id !in t.byID
    ensures AddStubs(AddStubs(t, {id}), deps).byID[id := x] == AddStubs(Table(t.byID[id := e]), deps).byID[id := x]
  {
    var a := AddStubs(AddStubs(t, {id}), deps).byID[id := x];
    var b := AddStubs(Table(t.byID[id := e]), deps).byID[id := x];
    assert a.Keys == b.Keys;
    forall k | k in a
      ensures a[k] == b[k]
    {
      if k != id && k in t.byID {
        assert a[k] == t.byID[k];
      }
    }
  }

  /** `ImportStructures`: every entry of "structures", in the order `ForEach` visits them. */
  function ImportStructures(t: Table, es: seq<(string, Json)>): (r: Result<Table>)
    ensures r.Ok? ==> t.byID.Keys <= r.value.byID.Keys
    decreases |es|
  {
    if es == [] then Ok(t)
    else
      var before :- ImportStructures(t, es[..|es| - 1]);
      ImportStructure(before, es[|es| - 1].0, es[|es| - 1].1)
  }

  /** `ImportST`, from the already-parsed document. */
  function ImportST(t: Table, root: Json): (r: Result<Table>)
    ensures r.Ok? ==> root.Obj? && "structures" in root.members && t.byID.Keys <= r.value.byID.Keys
  {
    var structures :- Get(root, "structures");
    ImportStructures(t, Entries(structures))
  }

  // ----- the import does not depend on the order of the entries ----------------------------
  // Each entry fills the record found under its ID before the import, or `Structure{}`;
  // a dependency stub left by an earlier entry reads the same. So the imported table is
  // determined by the entries as a map from ID to JSON.

  /** The record an entry starts from when nothing earlier in the import touched its ID. */
  function StartOf(t: Table, id: ID): (s: Symbol)
    ensures id !in t.byID ==> s.kind.StructureKind? && s.id == "" && s.nameSpace == ""
  {
    if id in t.byID then t.byID[id] else EmptyStructure()
  }

  /** What the entry `id: v` makes of its record when read against `t`. */
  function RecordOf(t: Table, id: ID, v: Json): (r: Result<Built<Symbol>>)
    ensures r.Ok? ==> StartOf(t, id).kind.StructureKind? && r.value.value.id == id
  {
    var s := StartOf(t, id);
    if !s.kind.StructureKind? then Err("record of another kind") else ImportStructureRecord(s, id, v)
  }

  /** Entries with pairwise different names, as the members of a JSON object. */
  predicate DistinctNames(es: seq<(string, Json)>) {
    forall i, j | 0 <= i < j < |es| :: es[i].0 != es[j].0
  }

  /** The entries as a map; a later entry wins (it never has to with distinct names). */
  function EntryMap(es: seq<(string, Json)>): (m: map<ID, Json>)
    ensures m.Keys == Names(es)
    decreases |es|
  {
    if es == [] then map[] else EntryMap(es[..|es| - 1])[es[|es| - 1].0 := es[|es| - 1].1]
  }

  /** `RecordOf` against `t`, as a value for the lemmas below, which hold for any reader. */
  function Reader(t: Table): (ID, Json) -> Result<Built<Symbol>> {
    (id, v) => RecordOf(t, id, v)
  }

  /** Every entry of `m` reads without error. */
  predicate AllRead(read: (ID, Json) -> Result<Built<Symbol>>, m: map<ID, Json>) {
    forall id | id in m :: read(id, m[id]).Ok?
  }

  /** The records the entries of `m` build. */
  function Records(read: (ID, Json) -> Result<Built<Symbol>>, m: map<ID, Json>): (recs: map<ID, Built<Symbol>>)
    requires AllRead(read, m)
    ensures recs.Keys == m.Keys
  {
    map id | id in m :: read(id, m[id]).value
  }

  /** Reading one more entry extends the records built so far by its own. */
  lemma RecordsStep(read: (ID, Json) -> Result<Built<Symbol>>, m: map<ID, Json>, id: ID, v: Json)
    requires AllRead(read, m) && read(id, v).Ok?
    ensures AllRead(read, m[id := v])
    ensures Records(read, m[id := v]) == Records(read, m)[id := read(id, v).value]
  {
    var m' := m[id := v];
    forall j | j in m'
      ensures read(j, m'[j]).Ok?
    {
    }
  }

  /** The IDs the built records `recs` depend on. */
  ghost function DepsOf(recs: map<ID, Built<Symbol>>): set<ID> {
    set j, k | j in recs && k in recs[j].deps :: k
  }

  lemma DepsOfUpdate(recs: map<ID, Built<Symbol>>, id: ID, b: Built<Symbol>)
    requires id !in recs
    ensures DepsOf(recs[id := b]) == DepsOf(recs) + b.deps
  {
    var recs' := recs[id := b];
    forall k | k in DepsOf(recs')
      ensures k in DepsOf(recs) + b.deps
    {
      var j :| j in recs' && k in recs'[j].deps;
      if j != id {
        assert k in recs[j].deps;
      }
    }
    forall k | k in b.deps
      ensures k in DepsOf(recs')
    {
      assert k in recs'[id].deps;
    }
    forall k | k in DepsOf(recs)
      ensures k in DepsOf(recs')
    {
      var j :| j in recs && k in recs[j].deps;
      assert recs'[j] == recs[j];
    }
  }

  /** `u` is `t` with the built records `recs` in place: each under its ID, every other
      existing record unchanged, and a stub for each dependency that had no record. */
  ghost predicate Rebuilt(t: Table, recs: map<ID, Built<Symbol>>, u: Table) {
    u.byID.Keys == t.byID.Keys + recs.Keys + DepsOf(recs)
    && forall k | k in u.byID ::
         u.byID[k] == if k in recs then recs[k].value else if k in t.byID then t.byID[k] else StructureStub(k)
  }

  /** `u` is the table importing the entries of `m` into `t` gives, in whatever order. */
  ghost predicate Imported(t: Table, m: map<ID, Json>, u: Table) {
    AllRead(Reader(t), m) && Rebuilt(t, Records(Reader(t), m), u)
  }

  /** `Rebuilt` leaves no choice. */
  lemma RebuiltUnique(t: Table, recs: map<ID, Built<Symbol>>, u: Table, w: Table)
    requires Rebuilt(t, recs, u) && Rebuilt(t, recs, w)
    ensures u == w
  {
  }

  /** In a partly imported table the record under an ID not read yet is the one the import
      started from or a dependency stub. */
  lemma StartInRebuilt(t: Table, recs: map<ID, Built<Symbol>>, u: Table, id: ID)
    requires Rebuilt(t, recs, u) && id !in recs
    ensures Tables.Install2(u, id, EmptyStructure()).symbol == StartOf(t, id)
         || (id !in t.byID && Tables.Install2(u, id, EmptyStructure()).symbol == StructureStub(id))
  {
  }

  /** Filling one more record in and adding its stubs keeps the table `Rebuilt`. */
  lemma RebuiltStep(t: Table, recs: map<ID, Built<Symbol>>, u: Table, id: ID, b: Built<Symbol>)
    requires Rebuilt(t, recs, u) && id !in recs
    ensures Rebuilt(t, recs[id := b], Table(AddStubs(Tables.Install2(u, id, EmptyStructure()).table, b.deps).byID[id := b.value]))
  {
    var w := FillIn(Tables.Install2(u, id, EmptyStructure()).table, id, b);
    DepsOfUpdate(recs, id, b);
    FillInRecords(t, recs, u, w, id, b);
  }

  /** The table after `ImportStructure` filled `b` in under `id`. */
  function FillIn(u: Table, id: ID, b: Built<Symbol>): (w: Table)
    requires id in u.byID
    ensures w.byID.Keys == u.byID.Keys + b.deps
    ensures w.byID[id] == b.value
    ensures forall k | k in u.byID && k != id :: w.byID[k] == u.byID[k]
    ensures forall k | k in w.byID && k !in u.byID :: w.byID[k] == StructureStub(k)
  {
    Table(AddStubs(u, b.deps).byID[id := b.value])
  }

  lemma FillInRecords(t: Table, recs: map<ID, Built<Symbol>>, u: Table, w: Table, id: ID, b: Built<Symbol>)
    requires Rebuilt(t, recs, u) && id !in recs
    requires w.byID.Keys == u.byID.Keys + {id} + b.deps
    requires w.byID[id] == b.value
    requires forall k | k in u.byID && k != id :: w.byID[k] == u.byID[k]
    requires forall k | k in w.byID && k !in u.byID && k != id :: w.byID[k] == StructureStub(k)
    requires DepsOf(recs[id := b]) == DepsOf(recs) + b.deps
    ensures Rebuilt(t, recs[id := b], w)
  {
    FillInKeys(t, recs, u, w, id, b);
    FillInValues(t, recs, u, w, id, b);
  }

  lemma FillInKeys(t: Table, recs: map<ID, Built<Symbol>>, u: Table, w: Table, id: ID, b: Built<Symbol>)
    requires u.byID.Keys == t.byID.Keys + recs.Keys + DepsOf(recs)
    requires w.byID.Keys == u.byID.Keys + {id} + b.deps
    requires DepsOf(recs[id := b]) == DepsOf(recs) + b.deps
    ensures w.byID.Keys == t.byID.Keys + recs[id := b].Keys + DepsOf(recs[id := b])
  {
    assert recs[id := b].Keys == recs.Keys + {id};
  }

  lemma FillInValues(t: Table, recs: map<ID, Built<Symbol>>, u: Table, w: Table, id: ID, b: Built<Symbol>)
    requires Rebuilt(t, recs, u) && id !in recs
    requires w.byID.Keys == u.byID.Keys + {id} + b.deps
    requires w.byID[id] == b.value
    requires forall k | k in u.byID && k != id :: w.byID[k] == u.byID[k]
    requires forall k | k in w.byID && k !in u.byID && k != id :: w.byID[k] == StructureStub(k)
    ensures forall k | k in w.byID ::
      w.byID[k] == if k in recs[id := b] then recs[id := b][k].value else if k in t.byID then t.byID[k] else StructureStub(k)
  {
  }

  /** A dependency stub and `Structure{}` fill in alike: the import overwrites the ID, name,
      namespace and source information, which are all they differ in. */
  lemma StubFillsLikeEmpty(id: ID, v: Json)
    ensures ImportStructureRecord(StructureStub(id), id, v) == ImportStructureRecord(EmptyStructure(), id, v)
  {
    assert DeserializeStructure(StructureStub(id), id, v) == DeserializeStructure(EmptyStructure(), id, v);
  }

  /** The record an entry starts from, when it is the original or a stub, reads as `RecordOf`. */
  lemma StartReads(t: Table, start: Symbol, id: ID, v: Json)
    requires start == StartOf(t, id) || (id !in t.byID && start == StructureStub(id))
    requires start.kind.StructureKind?
    ensures ImportStructureRecord(start, id, v) == RecordOf(t, id, v)
  {
    if start != StartOf(t, id) {
      StubFillsLikeEmpty(id, v);
    }
  }

  /** `ImportStructure` once the record it starts from is known to read as `r`. */
  lemma ImportStructureFrom(u: Table, id: ID, v: Json, r: Result<Built<Symbol>>)
    requires Tables.Install2(u, id, EmptyStructure()).symbol.kind.StructureKind?
    requires ImportStructureRecord(Tables.Install2(u, id, EmptyStructure()).symbol, id, v) == r
    ensures ImportStructure(u, id, v).Ok? <==> r.Ok?
    ensures r.Ok? ==>
      ImportStructure(u, id, v).value == Table(AddStubs(Tables.Install2(u, id, EmptyStructure()).table, r.value.deps).byID[id := r.value.value])
  {
  }

  /** The entry `id: v` read after other entries that do not name `id` reads as if it came
      first, and the table stays the import of all of them. */
  lemma ImportStep(t: Table, m: map<ID, Json>, u: Table, id: ID, v: Json)
    requires Imported(t, m, u) && id !in m
    ensures ImportStructure(u, id, v).Ok? <==> RecordOf(t, id, v).Ok?
    ensures ImportStructure(u, id, v).Ok? ==> Imported(t, m[id := v], ImportStructure(u, id, v).value)
  {
    var recs := Records(Reader(t), m);
    StartInRebuilt(t, recs, u, id);
    var start := Tables.Install2(u, id, EmptyStructure()).symbol;
    var r := RecordOf(t, id, v);
    if start.kind.StructureKind? {
      StartReads(t, start, id, v);
      ImportStructureFrom(u, id, v, r);
      if r.Ok? {
        assert Reader(t)(id, v) == r;
        RecordsStep(Reader(t), m, id, v);
        RebuiltStep(t, recs, u, id, r.value);
      }
    }
  }

  /** `ImportStructures` on entries with distinct names: it succeeds exactly when every entry
      reads, and then gives the import of the entries' map. */
  lemma {:induction false} ImportStructuresImported(t: Table, es: seq<(string, Json)>)
    requires DistinctNames(es)
    ensures ImportStructures(t, es).Ok? <==> AllRead(Reader(t), EntryMap(es))
    ensures ImportStructures(t, es).Ok? ==> Imported(t, EntryMap(es), ImportStructures(t, es).value)
    decreases |es|
  {
    if es == [] {
      assert Rebuilt(t, Records(Reader(t), map[]), t);
    } else {
      var init := es[..|es| - 1];
      var (id, v) := es[|es| - 1];
      assert DistinctNames(init);
      ImportStructuresImported(t, init);
      var m := EntryMap(init);
      assert id !in m by {
        NamesMember(init, id);
      }
      assert EntryMap(es) == m[id := v];
      if ImportStructures(t, init).Ok? {
        LastEntryRead(t, es, m, id, v);
      } else {
        LastEntryAfterFailure(t, es, m, id, v);
      }
    }
  }

  lemma LastEntryRead(t: Table, es: seq<(string, Json)>, m: map<ID, Json>, id: ID, v: Json)
    requires es != [] && es[|es| - 1] == (id, v) && id !in m
    requires ImportStructures(t, es[..|es| - 1]).Ok? && Imported(t, m, ImportStructures(t, es[..|es| - 1]).value)
    ensures ImportStructures(t, es).Ok? <==> AllRead(Reader(t), m[id := v])
    ensures ImportStructures(t, es).Ok? ==> Imported(t, m[id := v], ImportStructures(t, es).value)
  {
    var u := ImportStructures(t, es[..|es| - 1]).value;
    assert ImportStructures(t, es) == ImportStructure(u, id, v);
    ImportStep(t, m, u, id, v);
    assert Reader(t)(id, v) == RecordOf(t, id, v);
    AllReadUpdate(Reader(t), m, id, v);
  }

  lemma LastEntryAfterFailure(t: Table, es: seq<(string, Json)>, m: map<ID, Json>, id: ID, v: Json)
    requires es != [] && es[|es| - 1] == (id, v) && id !in m
    requires ImportStructures(t, es[..|es| - 1]).Err? && !AllRead(Reader(t), m)
    ensures ImportStructures(t, es).Err? && !AllRead(Reader(t), m[id := v])
  {
    AllReadUpdate(Reader(t), m, id, v);
  }

  /** One more entry reads exactly when the others and it do. */
  lemma AllReadUpdate(read: (ID, Json) -> Result<Built<Symbol>>, m: map<ID, Json>, id: ID, v: Json)
    requires id !in m
    ensures AllRead(read, m[id := v]) <==> AllRead(read, m) && read(id, v).Ok?
  {
    if AllRead(read, m[id := v]) {
      forall j | j in m
        ensures read(j, m[j]).Ok?
      {
        assert m[id := v][j] == m[j];
      }
      assert id in m[id := v];
    }
  }

  /** With distinct names each entry is found in the map under its name. */
  lemma {:induction false} EntryMapHolds(es: seq<(string, Json)>)
    requires DistinctNames(es)
    ensures forall i | 0 <= i < |es| :: EntryMap(es)[es[i].0] == es[i].1
    decreases |es|
  {
    if es != [] {
      var init := es[..|es| - 1];
      assert DistinctNames(init);
      EntryMapHolds(init);
      forall i | 0 <= i < |es| - 1
        ensures EntryMap(es)[es[i].0] == es[i].1
      {
        assert init[i] == es[i];
      }
    }
  }

  /** Two orders of the same entries with distinct names give the same map. */
  lemma EntryMapPermutation(es: seq<(string, Json)>, es': seq<(string, Json)>)
    requires DistinctNames(es) && DistinctNames(es') && multiset(es) == multiset(es')
    ensures EntryMap(es) == EntryMap(es')
  {
    EntryMapHolds(es);
    EntryMapHolds(es');
    forall k | k in Names(es)
      ensures k in Names(es') && EntryMap(es')[k] == EntryMap(es)[k]
    {
      NamesMember(es, k);
      var i :| 0 <= i < |es| && es[i].0 == k;
      assert es[i] in multiset(es');
      var j :| 0 <= j < |es'| && es'[j] == es[i];
    }
    forall k | k in Names(es')
      ensures k in Names(es)
    {
      NamesMember(es', k);
      var j :| 0 <= j < |es'| && es'[j].0 == k;
      assert es'[j] in multiset(es);
      var i :| 0 <= i < |es| && es[i] == es'[j];
    }
  }

  /** The order in which `ForEach` visits the structures does not matter: any two orders of
      entries with distinct names both succeed or both fail, and give the same table. */
  lemma ImportStructuresAnyOrder(t: Table, es: seq<(string, Json)>, es': seq<(string, Json)>)
    requires DistinctNames(es) && multiset(es) == multiset(es')
    ensures ImportStructures(t, es).Ok? <==> ImportStructures(t, es').Ok?
    ensures ImportStructures(t, es).Ok? ==> ImportStructures(t, es).value == ImportStructures(t, es').value
  {
    DistinctPermutation(es, es');
    EntryMapPermutation(es, es');
    ImportStructuresImported(t, es);
    ImportStructuresImported(t, es');
    if ImportStructures(t, es).Ok? {
      var recs := Records(Reader(t), EntryMap(es));
      RebuiltUnique(t, recs, ImportStructures(t, es).value, ImportStructures(t, es').value);
    }
  }

  /** Reordering entries keeps their names distinct. */
  lemma DistinctPermutation(es: seq<(string, Json)>, es': seq<(string, Json)>)
    requires DistinctNames(es) && multiset(es) == multiset(es')
    ensures DistinctNames(es')
  {
    DistinctCountsOne(es);
    forall i, j | 0 <= i < j < |es'|
      ensures es'[i].0 != es'[j].0
    {
      if es'[i] == es'[j] {
        RepeatCountsTwo(es', i, j);
      } else {
        assert es'[i] in multiset(es) && es'[j] in multiset(es);
        var p :| 0 <= p < |es| && es[p] == es'[i];
        var q :| 0 <= q < |es| && es[q] == es'[j];
      }
    }
  }

  lemma {:induction false} DistinctCountsOne(es: seq<(string, Json)>)
    requires DistinctNames(es)
    ensures forall x :: multiset(es)[x] <= 1
    decreases |es|
  {
    if es != [] {
      var init := es[..|es| - 1];
      assert DistinctNames(init);
      DistinctCountsOne(init);
      assert es == init + [es[|es| - 1]];
      assert es[|es| - 1] !in init;
    }
  }

  lemma RepeatCountsTwo(es: seq<(string, Json)>, i: nat, j: nat)
    requires i < j < |es| && es[i] == es[j]
    ensures multiset(es)[es[i]] >= 2
  {
    assert es == es[..j] + es[j..];
    assert es[i] in es[..j] && es[j] in es[j..];
  }

  /** The members of a JSON object have distinct names. */
  lemma ObjectEntriesDistinct(v: Json)
    requires v.Obj?
    ensures DistinctNames(Entries(v))
  {
    var es := Entries(v);
    forall i, j | 0 <= i < j < |es|
      ensures es[i].0 != es[j].0
    {
      Text.StrictlySortedDistinct(Text.SortedKeys(v.members.Keys), i, j);
    }
  }

  /** `ImportST` gives the table that reading the structures in any other order gives. */
  lemma ImportSTAnyOrder(t: Table, root: Json, es: seq<(string, Json)>)
    requires root.Obj? && "structures" in root.members && root.members["structures"].Obj?
    requires multiset(es) == multiset(Entries(root.members["structures"]))
    ensures ImportST(t, root).Ok? <==> ImportStructures(t, es).Ok?
    ensures ImportST(t, root).Ok? ==> ImportST(t, root).value == ImportStructures(t, es).value
  {
    var structures := root.members["structures"];
    ObjectEntriesDistinct(structures);
    ImportStructuresAnyOrder(t, Entries(structures), es);
  }

  /** Two entries with different names commute: read in either order, both succeed or both
      fail, and give the same table. */
  lemma ImportStructureCommutes(t: Table, a: ID, va: Json, b: ID, vb: Json)
    requires a != b
    ensures ImportStructures(t, [(a, va), (b, vb)]).Ok? <==> ImportStructures(t, [(b, vb), (a, va)]).Ok?
    ensures ImportStructures(t, [(a, va), (b, vb)]).Ok? ==>
      ImportStructures(t, [(a, va), (b, vb)]).value == ImportStructures(t, [(b, vb), (a, va)]).value
  {
    var ab := [(a, va), (b, vb)];
    var ba := [(b, vb), (a, va)];
    assert multiset(ab) == multiset(ba);
    ImportStructuresAnyOrder(t, ab, ba);
  }

  // ----- a failure in a prefix is a failure of the whole fold ------------------------------
  // The source aborts on the first entry that fails, so nothing after it is read.

  lemma {:induction false} DefinitionsFailOnPrefix(t: Table, es: seq<(string, Json)>, j: nat, ns: string, withAccess: bool)
    requires j <= |es| && ImportDefinitions(t, es[..j], ns, withAccess).Err?
    ensures ImportDefinitions(t, es, ns, withAccess).Err?
    decreases |es|
  {
    if j < |es| {
      var init := es[..|es| - 1];
      assert init[..j] == es[..j];
      DefinitionsFailOnPrefix(t, init, j, ns, withAccess);
    } else {
      assert es[..j] == es;
    }
  }

  lemma {:induction false} MethodsFailOnPrefix(t: Table, es: seq<(string, Json)>, j: nat, ns: string)
    requires j <= |es| && ImportMethods(t, es[..j], ns).Err?
    ensures ImportMethods(t, es, ns).Err?
    decreases |es|
  {
    if j < |es| {
      var init := es[..|es| - 1];
      assert init[..j] == es[..j];
      MethodsFailOnPrefix(t, init, j, ns);
    } else {
      assert es[..j] == es;
    }
  }

  lemma {:induction false} StructuresFailOnPrefix(t: Table, es: seq<(string, Json)>, j: nat)
    requires j <= |es| && ImportStructures(t, es[..j]).Err?
    ensures ImportStructures(t, es).Err?
    decreases |es|
  {
    if j < |es| {
      var init := es[..|es| - 1];
      assert init[..j] == es[..j];
      StructuresFailOnPrefix(t, init, j);
    } else {
      assert es[..j] == es;
    }
  }

  /** An entry that fails whatever the entries before it built fails the whole fold. */
  lemma DefinitionsFailAt(t: Table, es: seq<(string, Json)>, j: nat, ns: string, withAccess: bool)
    requires j < |es|
    requires var before := ImportDefinitions(t, es[..j], ns, withAccess);
      before.Ok? ==> DefinitionStep(before.value.value, es[j].0, es[j].1, ns, withAccess).Err?
    ensures ImportDefinitions(t, es, ns, withAccess).Err?
  {
    var upTo := es[..j + 1];
    assert upTo[..j] == es[..j] && upTo[j] == es[j];
    assert ImportDefinitions(t, upTo, ns, withAccess).Err?;
    DefinitionsFailOnPrefix(t, es, j + 1, ns, withAccess);
  }

  lemma StructuresFailAt(t: Table, es: seq<(string, Json)>, j: nat)
    requires j < |es|
    requires var before := ImportStructures(t, es[..j]);
      before.Ok? ==> ImportStructure(before.value, es[j].0, es[j].1).Err?
    ensures ImportStructures(t, es).Err?
  {
    var upTo := es[..j + 1];
    assert upTo[..j] == es[..j] && upTo[j] == es[j];
    assert ImportStructures(t, upTo).Err?;
    StructuresFailOnPrefix(t, es, j + 1);
  }

  // ----- the ledger ------------------------------------------------------------------------

  function Strings(items: seq<Json>): (r: Result<seq<string>>)
    ensures r.Ok? <==> forall i | 0 <= i < |items| :: items[i].Str?
    ensures r.Ok? ==> |r.value| == |items| && forall i | 0 <= i < |items| :: r.value[i] == items[i].s
    decreases |items|
  {
    if items == [] then Ok([])
    else
      var init :- Strings(items[..|items| - 1]);
      var last := items[|items| - 1];
      if last.Str? then Ok(init + [last.s]) else Err("source is not a string")
  }

  /** `ImportSources`: the "sources" array, in array order. */
  function ImportSources(root: Json): (r: Result<seq<string>>)
    ensures r.Ok? <==>
      root.Obj? && "sources" in root.members && root.members["sources"].Arr?
      && forall i | 0 <= i < |root.members["sources"].items| :: root.members["sources"].items[i].Str?
  {
    var v :- Get(root, "sources");
    if !v.Arr? then Err("sources is not an array") else Strings(v.items)
  }

  /** `DropParsedFiles`: with an empty ledger every source is parsed; otherwise parsing
      resumes at the last ledger entry, which is parsed again. */
  function DropParsedFiles(sources: seq<string>, cached: seq<string>): (r: seq<string>)
    requires |sources| >= |cached|
    ensures cached == [] ==> r == sources
    ensures cached != [] ==> |r| == |sources| - |cached| + 1 && r == sources[|cached| - 1..]
  {
    if cached == [] then sources else sources[|cached| - 1..]
  }

  /** When the ledger is the list of sources parsed so far, the delta is the last of them
      followed by every source not yet parsed; with distinct sources, a source is in the
      delta exactly when it was not parsed or was the last one parsed. */
  lemma DropParsedFilesDelta(sources: seq<string>, cached: seq<string>)
    requires cached != [] && cached <= sources
    requires forall i, j | 0 <= i < j < |sources| :: sources[i] != sources[j]
    ensures DropParsedFiles(sources, cached) == [cached[|cached| - 1]] + sources[|cached|..]
    ensures forall x :: x in DropParsedFiles(sources, cached) <==>
      x in sources && (x !in cached || x == cached[|cached| - 1])
  {
    var k := |cached|;
    var r := DropParsedFiles(sources, cached);
    assert r == [sources[k - 1]] + sources[k..];
    forall x
      ensures x in r <==> x in sources && (x !in cached || x == cached[k - 1])
    {
      if x in r {
        var i :| 0 <= i < |r| && r[i] == x;
        assert sources[k - 1 + i] == x;
      }
      if x in sources && (x !in cached || x == cached[k - 1]) {
        var i :| 0 <= i < |sources| && sources[i] == x;
        if i < k - 1 {
          assert false;
        }
        assert r[i - (k - 1)] == x;
      }
    }
  }

  lemma DropParsedFilesExample()
    ensures DropParsedFiles(["a", "b", "c", "d"], ["a", "b", "c"]) == ["c", "d"]
    ensures DropParsedFiles(["a", "b"], []) == ["a", "b"]
  {
  }
}
