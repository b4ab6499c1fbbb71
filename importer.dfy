/** The importer as the source runs it: the helpers of the incremental module, each a method
    that installs into the shared `SymbolTable` object step by step, proved to do what the
    functions of `Incremental` say. On failure (`ok` false) the source has aborted on an
    assertion, and the state is left unspecified. */
module Importer {
  import opened Wrappers
  import opened Symbols
  import opened JsonValues
  import Tables
  import opened Incremental
  import opened Store

  // ----- the name index --------------------------------------------------------------------

  /** What the import does to the name index: every existing entry stays, and each new ID is
      filed under its own ID (a dependency stub) or, when it is in `blank`, possibly under ""
      (a record `Install2(id, Structure{})` created). */
  ghost predicate NamesFiled(before: map<ID, string>, after: map<ID, string>, blank: set<ID>) {
    before.Keys <= after.Keys
    && (forall k | k in before :: after[k] == before[k])
    && forall k | k in after && k !in before :: after[k] == k || (k in blank && after[k] == "")
  }

  /** The name index after installing the stubs `deps`: a new ID is filed under its own ID,
      as `Install2(id, Structure{id})` files it. */
  ghost function StubNames(names: map<ID, string>, deps: set<ID>): (r: map<ID, string>)
    ensures r.Keys == names.Keys + deps
  {
    map k | k in names.Keys + deps :: if k in names then names[k] else k
  }

  lemma StubNamesNone(names: map<ID, string>)
    ensures StubNames(names, {}) == names
  {
  }

  lemma StubNamesOne(names: map<ID, string>, id: ID)
    ensures StubNames(names, {id}) == if id in names then names else names[id := id]
  {
  }

  lemma StubNamesCompose(names: map<ID, string>, d1: set<ID>, d2: set<ID>)
    ensures StubNames(StubNames(names, d1), d2) == StubNames(names, d1 + d2)
  {
  }

  lemma NamesOfOneMore(names: map<ID, string>, ids: seq<ID>, id: ID)
    ensures StubNames(StubNames(names, SetOf(ids)), {id}) == StubNames(names, SetOf(ids + [id]))
  {
    StubNamesCompose(names, SetOf(ids), {id});
    assert SetOf(ids + [id]) == SetOf(ids) + {id};
  }

  /** `Install2(id, Structure{})` files a created record under "", then its stubs follow. */
  lemma CreatedNames(before: map<ID, string>, mid: map<ID, string>, after: map<ID, string>, id: ID, deps: set<ID>)
    requires mid == (if id in before then before else before[id := ""]) && after == StubNames(mid, deps)
    ensures NamesFiled(before, after, {id})
    ensures id !in before ==> after[id] == ""
  {
    StubNamesFiled(mid, deps, {});
    NamesFiledTrans(before, mid, after, {id}, {}, {id});
  }

  lemma StubNamesFiled(names: map<ID, string>, deps: set<ID>, blank: set<ID>)
    ensures NamesFiled(names, StubNames(names, deps), blank)
  {
  }

  lemma NamesFiledTrans(a: map<ID, string>, b: map<ID, string>, c: map<ID, string>, x: set<ID>, y: set<ID>, z: set<ID>)
    requires NamesFiled(a, b, x) && NamesFiled(b, c, y) && x + y <= z
    ensures NamesFiled(a, c, z)
  {
  }

  /** One more entry of "structures" read: its ID joins those possibly filed under "". */
  lemma NamesFiledStep(a: map<ID, string>, b: map<ID, string>, c: map<ID, string>, es: seq<(string, Json)>, i: nat)
    requires i < |es| && NamesFiled(a, b, Names(es[..i])) && NamesFiled(b, c, {es[i].0})
    ensures NamesFiled(a, c, Names(es[..i + 1]))
  {
    assert es[..i + 1][..i] == es[..i];
    NamesFiledTrans(a, b, c, Names(es[..i]), {es[i].0}, Names(es[..i + 1]));
  }

  // ----- one more element of a fold --------------------------------------------------------

  lemma DependenciesStep(items: seq<Json>, i: nat, ids: seq<ID>)
    requires i < |items| && items[i].Str? && ImportDependencies(items[..i]) == Ok(ids)
    ensures ImportDependencies(items[..i + 1]) == Ok(ids + [items[i].s])
  {
    assert items[..i + 1][..i] == items[..i];
  }

  lemma StubsOfOneMore(base: Table, ids: seq<ID>, id: ID)
    ensures AddStubs(AddStubs(base, SetOf(ids)), {id}) == AddStubs(base, SetOf(ids + [id]))
  {
    AddStubsCompose(base, SetOf(ids), {id});
    assert SetOf(ids + [id]) == SetOf(ids) + {id};
  }

  // ----- dependency installers -------------------------------------------------------------

  /** `InstallDependency`. */
  method InstallDependency(table: SymbolTable, v: Json) returns (ok: bool, dep: Option<ID>)
    requires table.Valid()
    modifies table
    ensures table.Valid()
    ensures ok <==> ImportDependency(v).Ok?
    ensures ok ==> dep == ImportDependency(v).value && table.byID == AddStubs(old(table.byID), OptSet(dep))
    ensures ok ==> table.nameOf == StubNames(old(table.nameOf), OptSet(dep))
  {
    if v.Arr? {
      return false, None;
    }
    if v.Null? {
      AddStubsNone(table.byID);
      StubNamesNone(table.nameOf);
      return true, None;
    }
    if !v.Str? {
      return false, None;
    }
    var id := v.s;
    InstallDependencyIsStub(table.byID, id);
    StubNamesOne(table.nameOf, id);
    var _ := table.Install2(id, StructureStub(id));
    return true, Some(id);
  }

  /** `InstallDependencies`: one `Install2(id, Structure{id})` per value the range-for visits;
      `items` is what it visits (`Items` of the value). */
  method InstallDependencies(table: SymbolTable, items: seq<Json>) returns (ok: bool, ids: seq<ID>)
    requires table.Valid()
    modifies table
    ensures table.Valid()
    ensures ok <==> ImportDependencies(items).Ok?
    ensures ok ==> ids == ImportDependencies(items).value && table.byID == AddStubs(old(table.byID), SetOf(ids))
    ensures ok ==> table.nameOf == StubNames(old(table.nameOf), SetOf(ids))
  {
    ids := [];
    AddStubsNone(table.byID);
    StubNamesNone(table.nameOf);
    var i := 0;
    ok := true;
    while i < |items| && ok
      invariant 0 <= i <= |items| && table.Valid()
      invariant ok ==> ImportDependencies(items[..i]) == Ok(ids)
      invariant ok ==> table.byID == AddStubs(old(table.byID), SetOf(ids))
      invariant ok ==> table.nameOf == StubNames(old(table.nameOf), SetOf(ids))
      invariant !ok ==> ImportDependencies(items).Err?
    {
      if items[i].Str? {
        ids := InstallDependencyAt(table, old(table.byID), old(table.nameOf), items, i, ids);
      } else {
        ok := false;
      }
      i := i + 1;
    }
    if ok {
      assert items[..i] == items;
    }
  }

  /** One visit of the loop in `InstallDependencies`. */
  method InstallDependencyAt(table: SymbolTable, ghost base: Table, ghost names: map<ID, string>, items: seq<Json>, i: nat, ids: seq<ID>)
    returns (ids': seq<ID>)
    requires table.Valid() && i < |items| && items[i].Str?
    requires ImportDependencies(items[..i]) == Ok(ids) && table.byID == AddStubs(base, SetOf(ids))
    requires table.nameOf == StubNames(names, SetOf(ids))
    modifies table
    ensures table.Valid()
    ensures ImportDependencies(items[..i + 1]) == Ok(ids') && table.byID == AddStubs(base, SetOf(ids'))
    ensures table.nameOf == StubNames(names, SetOf(ids'))
  {
    var id := items[i].s;
    DependenciesStep(items, i, ids);
    StubsOfOneMore(base, ids, id);
    NamesOfOneMore(names, ids, id);
    StubNamesOne(table.nameOf, id);
    InstallDependencyIsStub(table.byID, id);
    var _ := table.Install2(id, StructureStub(id));
    ids' := ids + [id];
  }

  /** `InstallMethodReturnType`. */
  method InstallMethodReturnType(table: SymbolTable, v: Json) returns (ok: bool, ret: Option<ID>)
    requires table.Valid()
    modifies table
    ensures table.Valid()
    ensures ok <==> ImportReturnType(v).Ok?
    ensures ok ==> ret == ImportReturnType(v).value && table.byID == AddStubs(old(table.byID), OptSet(ret))
    ensures ok ==> table.nameOf == StubNames(old(table.nameOf), OptSet(ret))
  {
    var r := Get(v, "ret_type");
    if r.Err? || !r.value.Str? {
      return false, None;
    }
    var id := r.value.s;
    if id == "void" {
      AddStubsNone(table.byID);
      StubNamesNone(table.nameOf);
      return true, None;
    }
    InstallDependencyIsStub(table.byID, id);
    StubNamesOne(table.nameOf, id);
    var _ := table.Install2(id, StructureStub(id));
    return true, Some(id);
  }

  // ----- nested tables ---------------------------------------------------------------------

  /** The body of the `ForEach` over a table of definitions, for one visited name. */
  method InstallDefinitionEntry(table: SymbolTable, t: Table, id: ID, v: Json, ns: string, withAccess: bool)
    returns (ok: bool, t': Table, ghost deps: set<ID>)
    requires table.Valid()
    modifies table
    ensures table.Valid()
    ensures ok <==> DefinitionStep(t, id, v, ns, withAccess).Ok?
    ensures ok ==> DefinitionStep(t, id, v, ns, withAccess) == Ok(Built(t', deps))
    ensures ok ==> table.byID == AddStubs(old(table.byID), deps)
    ensures ok ==> table.nameOf == StubNames(old(table.nameOf), deps)
  {
    var ins := Tables.InstallDefinition(t, id, EmptyDefinition());
    if !ins.symbol.kind.DefinitionKind? {
      return false, t, {};
    }
    var d := DeserializeDefinition(ins.symbol, id, v, withAccess);
    if d.Err? {
      return false, t, {};
    }
    var typeJson := Get(v, "type");
    if typeJson.Err? {
      return false, t, {};
    }
    var typeOk, ty := InstallDependency(table, typeJson.value);
    if !typeOk {
      return false, t, {};
    }
    var f := d.value.(nameSpace := ns, kind := d.value.kind.(definitionType := ty));
    return true, Table(ins.table.byID[id := f]), OptSet(ty);
  }

  /** `ForEach` over a table of definitions: `InstallStructureFields` (with the access
      specifier), `InstallMethodArgs` and `InstallMethodDefinitions` (without); `es` is what
      `ForEach` visits (`Entries` of the value). */
  method InstallDefinitions(table: SymbolTable, t: Table, es: seq<(string, Json)>, ns: string, withAccess: bool)
    returns (ok: bool, t': Table, ghost deps: set<ID>)
    requires table.Valid()
    modifies table
    ensures table.Valid()
    ensures ok <==> ImportDefinitions(t, es, ns, withAccess).Ok?
    ensures ok ==> ImportDefinitions(t, es, ns, withAccess) == Ok(Built(t', deps))
    ensures ok ==> table.byID == AddStubs(old(table.byID), deps)
    ensures ok ==> table.nameOf == StubNames(old(table.nameOf), deps)
  {
    t', deps := t, {};
    AddStubsNone(table.byID);
    StubNamesNone(table.nameOf);
    var i := 0;
    assert es[..0] == [];
    ok := true;
    while i < |es| && ok
      invariant 0 <= i <= |es| && table.Valid()
      invariant ok ==> ImportDefinitions(t, es[..i], ns, withAccess) == Ok(Built(t', deps))
      invariant ok ==> table.byID == AddStubs(old(table.byID), deps)
      invariant ok ==> table.nameOf == StubNames(old(table.nameOf), deps)
      invariant !ok ==> ImportDefinitions(t, es, ns, withAccess).Err?
    {
      ok, t', deps := InstallDefinitionAt(table, old(table.byID), old(table.nameOf), t, es, i, ns, withAccess, t', deps);
      if !ok {
        DefinitionsFailOnPrefix(t, es, i + 1, ns, withAccess);
      }
      i := i + 1;
    }
    if ok {
      assert es[..i] == es;
    }
  }

  /** One visit of the loop in `InstallDefinitions`. */
  method InstallDefinitionAt(table: SymbolTable, ghost base: Table, ghost names: map<ID, string>, ghost t: Table, es: seq<(string, Json)>, i: nat,
                             ns: string, withAccess: bool, cur: Table, ghost deps: set<ID>)
    returns (ok: bool, cur': Table, ghost deps': set<ID>)
    requires table.Valid() && i < |es|
    requires ImportDefinitions(t, es[..i], ns, withAccess) == Ok(Built(cur, deps))
    requires table.byID == AddStubs(base, deps) && table.nameOf == StubNames(names, deps)
    modifies table
    ensures table.Valid()
    ensures ok <==> ImportDefinitions(t, es[..i + 1], ns, withAccess).Ok?
    ensures ok ==> ImportDefinitions(t, es[..i + 1], ns, withAccess) == Ok(Built(cur', deps'))
    ensures ok ==> table.byID == AddStubs(base, deps') && table.nameOf == StubNames(names, deps')
  {
    assert es[..i + 1][..i] == es[..i];
    ghost var stepDeps;
    ok, cur', stepDeps := InstallDefinitionEntry(table, cur, es[i].0, es[i].1, ns, withAccess);
    if ok {
      AddStubsCompose(base, deps, stepDeps);
      StubNamesCompose(names, deps, stepDeps);
    }
    deps' := deps + stepDeps;
  }

  /** The body of the `ForEach` in `InstallStructureMethods`, for one visited name. */
  method InstallMethodEntry(table: SymbolTable, t: Table, id: ID, v: Json, ns: string)
    returns (ok: bool, t': Table, ghost deps: set<ID>)
    requires table.Valid()
    modifies table
    ensures table.Valid()
    ensures ok <==> MethodStep(t, id, v, ns).Ok?
    ensures ok ==> MethodStep(t, id, v, ns) == Ok(Built(t', deps))
    ensures ok ==> table.byID == AddStubs(old(table.byID), deps)
    ensures ok ==> table.nameOf == StubNames(old(table.nameOf), deps)
  {
    var ins := Tables.InstallMethod(t, id, EmptyMethod());
    if !ins.symbol.kind.MethodKind? {
      return false, t, {};
    }
    var d := DeserializeMethod(ins.symbol, id, v);
    if d.Err? {
      return false, t, {};
    }
    var m := d.value.(nameSpace := ns);
    var retOk, ret := InstallMethodReturnType(table, v);
    if !retOk {
      return false, t, {};
    }
    ghost var afterRet := table.byID;
    var argsJson := Get(v, "args");
    if argsJson.Err? {
      return false, t, {};
    }
    var argsOk, args, argDeps := InstallDefinitions(table, m.kind.arguments, Entries(argsJson.value), ns, false);
    if !argsOk {
      return false, t, {};
    }
    ghost var afterArgs := table.byID;
    var defsJson := Get(v, "definitions");
    if defsJson.Err? {
      return false, t, {};
    }
    var defsOk, defs, defDeps := InstallDefinitions(table, m.kind.definitions, Entries(defsJson.value), ns, false);
    if !defsOk {
      return false, t, {};
    }
    ghost var afterDefs := table.byID;
    var targsJson := Get(v, "template_args");
    if targsJson.Err? {
      return false, t, {};
    }
    var targsOk, targs := InstallDependencies(table, Items(targsJson.value));
    if !targsOk {
      return false, t, {};
    }
    AddStubsCompose(old(table.byID), OptSet(ret), argDeps);
    AddStubsCompose(old(table.byID), OptSet(ret) + argDeps, defDeps);
    AddStubsCompose(old(table.byID), OptSet(ret) + argDeps + defDeps, SetOf(targs));
    StubNamesCompose(old(table.nameOf), OptSet(ret), argDeps);
    StubNamesCompose(old(table.nameOf), OptSet(ret) + argDeps, defDeps);
    StubNamesCompose(old(table.nameOf), OptSet(ret) + argDeps + defDeps, SetOf(targs));
    var r := m.(kind := m.kind.(returnType := ret, arguments := args, definitions := defs,
      templateArgs := Tables.InstallRefs(m.kind.templateArgs, targs)));
    return true, Table(ins.table.byID[id := r]), OptSet(ret) + argDeps + defDeps + SetOf(targs);
  }

  /** `InstallStructureMethods`; `es` is what its `ForEach` visits. */
  method InstallMethods(table: SymbolTable, t: Table, es: seq<(string, Json)>, ns: string)
    returns (ok: bool, t': Table, ghost deps: set<ID>)
    requires table.Valid()
    modifies table
    ensures table.Valid()
    ensures ok <==> ImportMethods(t, es, ns).Ok?
    ensures ok ==> ImportMethods(t, es, ns) == Ok(Built(t', deps))
    ensures ok ==> table.byID == AddStubs(old(table.byID), deps)
    ensures ok ==> table.nameOf == StubNames(old(table.nameOf), deps)
  {
    t', deps := t, {};
    AddStubsNone(table.byID);
    StubNamesNone(table.nameOf);
    var i := 0;
    assert es[..0] == [];
    ok := true;
    while i < |es| && ok
      invariant 0 <= i <= |es| && table.Valid()
      invariant ok ==> ImportMethods(t, es[..i], ns) == Ok(Built(t', deps))
      invariant ok ==> table.byID == AddStubs(old(table.byID), deps)
      invariant ok ==> table.nameOf == StubNames(old(table.nameOf), deps)
      invariant !ok ==> ImportMethods(t, es, ns).Err?
    {
      ok, t', deps := InstallMethodAt(table, old(table.byID), old(table.nameOf), t, es, i, ns, t', deps);
      if !ok {
        MethodsFailOnPrefix(t, es, i + 1, ns);
      }
      i := i + 1;
    }
    if ok {
      assert es[..i] == es;
    }
  }

  /** One visit of the loop in `InstallMethods`. */
  method InstallMethodAt(table: SymbolTable, ghost base: Table, ghost names: map<ID, string>, ghost t: Table, es: seq<(string, Json)>, i: nat,
                         ns: string, cur: Table, ghost deps: set<ID>)
    returns (ok: bool, cur': Table, ghost deps': set<ID>)
    requires table.Valid() && i < |es|
    requires ImportMethods(t, es[..i], ns) == Ok(Built(cur, deps))
    requires table.byID == AddStubs(base, deps) && table.nameOf == StubNames(names, deps)
    modifies table
    ensures table.Valid()
    ensures ok <==> ImportMethods(t, es[..i + 1], ns).Ok?
    ensures ok ==> ImportMethods(t, es[..i + 1], ns) == Ok(Built(cur', deps'))
    ensures ok ==> table.byID == AddStubs(base, deps') && table.nameOf == StubNames(names, deps')
  {
    assert es[..i + 1][..i] == es[..i];
    ghost var stepDeps;
    ok, cur', stepDeps := InstallMethodEntry(table, cur, es[i].0, es[i].1, ns);
    if ok {
      AddStubsCompose(base, deps, stepDeps);
      StubNamesCompose(names, deps, stepDeps);
    }
    deps' := deps + stepDeps;
  }

  // ----- structures ------------------------------------------------------------------------

  /** The steps of `ImportStructure` after `Install2`, in the source's order, on the record
      `s` found or created for `id`. Every dependency is installed into the shared table as it
      is read. */
  method FillStructure(table: SymbolTable, s: Symbol, id: ID, v: Json) returns (ok: bool, s': Symbol, ghost deps: set<ID>)
    requires table.Valid() && s.kind.StructureKind?
    modifies table
    ensures table.Valid()
    ensures ok <==> ImportStructureRecord(s, id, v).Ok?
    ensures ok ==> ImportStructureRecord(s, id, v) == Ok(Built(s', deps))
    ensures ok ==> table.byID == AddStubs(old(table.byID), deps)
    ensures ok ==> table.nameOf == StubNames(old(table.nameOf), deps)
  {
    s', deps := s, {};
    var d := DeserializeStructure(s, id, v);
    if d.Err? {
      return false, s', deps;
    }
    var r := d.value;
    var k := r.kind;
    var ns := r.nameSpace;
    AddStubsNone(table.byID);
    StubNamesNone(table.nameOf);

    var containsJson := Get(v, "contains");
    if containsJson.Err? {
      return false, s', deps;
    }
    var containsOk, contains := InstallDependencies(table, Items(containsJson.value));
    if !containsOk {
      return false, s', deps;
    }
    deps := SetOf(contains);

    var basesJson := Get(v, "bases");
    if basesJson.Err? {
      return false, s', deps;
    }
    var basesOk, bases := InstallDependencies(table, Items(basesJson.value));
    if !basesOk {
      return false, s', deps;
    }
    AddStubsCompose(old(table.byID), deps, SetOf(bases));
    StubNamesCompose(old(table.nameOf), deps, SetOf(bases));
    deps := deps + SetOf(bases);

    var fieldsJson := Get(v, "fields");
    if fieldsJson.Err? {
      return false, s', deps;
    }
    var fieldsOk, fields, fieldDeps := InstallDefinitions(table, k.fields, Entries(fieldsJson.value), ns, true);
    if !fieldsOk {
      return false, s', deps;
    }
    AddStubsCompose(old(table.byID), deps, fieldDeps);
    StubNamesCompose(old(table.nameOf), deps, fieldDeps);
    deps := deps + fieldDeps;

    var friendsJson := Get(v, "friends");
    if friendsJson.Err? {
      return false, s', deps;
    }
    var friendsOk, friends := InstallDependencies(table, Items(friendsJson.value));
    if !friendsOk {
      return false, s', deps;
    }
    AddStubsCompose(old(table.byID), deps, SetOf(friends));
    StubNamesCompose(old(table.nameOf), deps, SetOf(friends));
    deps := deps + SetOf(friends);

    var methodsJson := Get(v, "methods");
    if methodsJson.Err? {
      return false, s', deps;
    }
    var methodsOk, methods, methodDeps := InstallMethods(table, k.methods, Entries(methodsJson.value), ns);
    if !methodsOk {
      return false, s', deps;
    }
    AddStubsCompose(old(table.byID), deps, methodDeps);
    StubNamesCompose(old(table.nameOf), deps, methodDeps);
    deps := deps + methodDeps;

    var nestedJson := Get(v, "nested_parent");
    if nestedJson.Err? {
      return false, s', deps;
    }
    var nestedOk, nested := InstallDependency(table, nestedJson.value);
    if !nestedOk {
      return false, s', deps;
    }
    AddStubsCompose(old(table.byID), deps, OptSet(nested));
    StubNamesCompose(old(table.nameOf), deps, OptSet(nested));
    deps := deps + OptSet(nested);

    var parentJson := Get(v, "template_parent");
    if parentJson.Err? {
      return false, s', deps;
    }
    var parentOk, parent := InstallDependency(table, parentJson.value);
    if !parentOk {
      return false, s', deps;
    }
    AddStubsCompose(old(table.byID), deps, OptSet(parent));
    StubNamesCompose(old(table.nameOf), deps, OptSet(parent));
    deps := deps + OptSet(parent);

    var targsJson := Get(v, "template_args");
    if targsJson.Err? {
      return false, s', deps;
    }
    var targsOk, targs := InstallDependencies(table, Items(targsJson.value));
    if !targsOk {
      return false, s', deps;
    }
    AddStubsCompose(old(table.byID), deps, SetOf(targs));
    StubNamesCompose(old(table.nameOf), deps, SetOf(targs));
    deps := deps + SetOf(targs);

    s' := r.(kind := k.(contains := Tables.InstallRefs(k.contains, contains), bases := Tables.InstallRefs(k.bases, bases),
      fields := fields, friends := Tables.InstallRefs(k.friends, friends), methods := methods,
      nestedParent := nested, templateParent := parent, templateArgs := Tables.InstallRefs(k.templateArgs, targs)));
    ok := true;
  }

  /** `ImportStructure`: the record is found or created through `Install2(id, Structure{})`,
      filled in, and stored under `id`. */
  method ImportStructure(table: SymbolTable, id: ID, v: Json) returns (ok: bool)
    requires table.Valid()
    modifies table
    ensures table.Valid()
    ensures ok <==> Incremental.ImportStructure(old(table.byID), id, v).Ok?
    ensures ok ==> table.byID == Incremental.ImportStructure(old(table.byID), id, v).value
    ensures ok ==> NamesFiled(old(table.nameOf), table.nameOf, {id})
    ensures ok && id !in old(table.byID).byID ==> table.nameOf[id] == ""
  {
    var s := table.Install2(id, EmptyStructure());
    if !s.kind.StructureKind? {
      return false;
    }
    ghost var names := table.nameOf;
    var filled, r, deps := FillStructure(table, s, id, v);
    if !filled {
      return false;
    }
    CreatedNames(old(table.nameOf), names, table.nameOf, id, deps);
    table.Replace(id, r);
    ok := true;
  }

  /** One visit of the `ForEach` in `ImportStructures`. */
  method ImportStructureAt(table: SymbolTable, ghost t: Table, es: seq<(string, Json)>, i: nat) returns (ok: bool)
    requires table.Valid() && i < |es|
    requires Incremental.ImportStructures(t, es[..i]) == Ok(table.byID)
    modifies table
    ensures table.Valid()
    ensures ok <==> Incremental.ImportStructures(t, es[..i + 1]).Ok?
    ensures ok ==> Incremental.ImportStructures(t, es[..i + 1]) == Ok(table.byID)
    ensures ok ==> NamesFiled(old(table.nameOf), table.nameOf, {es[i].0})
  {
    assert es[..i + 1][..i] == es[..i];
    ok := ImportStructure(table, es[i].0, es[i].1);
  }

  /** `ImportStructures`: every entry of "structures", in the order `ForEach` visits them. */
  method ImportStructures(table: SymbolTable, v: Json) returns (ok: bool)
    requires table.Valid()
    modifies table
    ensures table.Valid()
    ensures ok <==> Incremental.ImportStructures(old(table.byID), Entries(v)).Ok?
    ensures ok ==> table.byID == Incremental.ImportStructures(old(table.byID), Entries(v)).value
    ensures ok ==> NamesFiled(old(table.nameOf), table.nameOf, Names(Entries(v)))
  {
    var es := Entries(v);
    var i := 0;
    assert es[..0] == [];
    ok := true;
    while i < |es| && ok
      invariant 0 <= i <= |es| && table.Valid()
      invariant ok ==> NamesFiled(old(table.nameOf), table.nameOf, Names(es[..i]))
      invariant ok ==> Incremental.ImportStructures(old(table.byID), es[..i]) == Ok(table.byID)
      invariant !ok ==> Incremental.ImportStructures(old(table.byID), es).Err?
    {
      ghost var names := table.nameOf;
      ok := ImportStructureAt(table, old(table.byID), es, i);
      if ok {
        NamesFiledStep(old(table.nameOf), names, table.nameOf, es, i);
      }
      if !ok {
        StructuresFailOnPrefix(old(table.byID), es, i + 1);
      }
      i := i + 1;
    }
    if ok {
      assert es[..i] == es;
    }
  }

  /** `ImportST`, from the already-parsed document. */
  method ImportST(table: SymbolTable, root: Json) returns (ok: bool)
    requires table.Valid()
    modifies table
    ensures table.Valid()
    ensures ok <==> Incremental.ImportST(old(table.byID), root).Ok?
    ensures ok ==> table.byID == Incremental.ImportST(old(table.byID), root).value
    ensures ok ==> NamesFiled(old(table.nameOf), table.nameOf, Names(Entries(root.members["structures"])))
  {
    var structures := Get(root, "structures");
    if structures.Err? {
      return false;
    }
    ok := ImportStructures(table, structures.value);
  }

  // ----- the ledger ------------------------------------------------------------------------

  /** `ImportSources`: the "sources" array, converted element by element in array order. */
  method ImportSources(root: Json) returns (ok: bool, srcs: seq<string>)
    ensures ok <==> Incremental.ImportSources(root).Ok?
    ensures ok ==> srcs == Incremental.ImportSources(root).value
  {
    srcs := [];
    var srcVal := Get(root, "sources");
    if srcVal.Err? || !srcVal.value.Arr? {
      return false, srcs;
    }
    var items := srcVal.value.items;
    var i := 0;
    while i < |items|
      invariant 0 <= i <= |items|
      invariant |srcs| == i && forall j | 0 <= j < i :: items[j].Str? && srcs[j] == items[j].s
    {
      if !items[i].Str? {
        return false, srcs;
      }
      srcs := srcs + [items[i].s];
      i := i + 1;
    }
    ok := true;
  }
}
