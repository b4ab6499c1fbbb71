/** Exporting a symbol table and importing the document into an empty table gives a table
    with the same export. The import reads back what the export writes under these
    conditions on the table (`RoundTrips`):
    - every exported top-level record is a structure;
    - reference lists hold each ID once (they are tables keyed by ID in the source);
    - nested tables hold records of the kind their owner expects;
    - fields have a known access specifier, because the import requires the "access" key the
      export writes only for a known one, and arguments and local definitions have none,
      because the import does not read it for them;
    - no method's return type is the record "void", which the export writes like a missing
      return type. */
module RoundTrip {
  import opened Wrappers
  import opened Symbols
  import opened JsonValues
  import Text
  import Tables
  import opened Incremental
  import opened Export

  // ----- the pieces read back --------------------------------------------------------------

  lemma SourceInfoRoundTrip(loc: SourceInfo)
    ensures ImportSrcInfo(SourceInfoJson(loc)) == Ok(loc)
  {
    var v := SourceInfoJson(loc);
    assert GetString(v, "file") == Ok(loc.fileName);
    assert GetInt(v, "line") == Ok(loc.line);
    assert GetInt(v, "col") == Ok(loc.column);
  }

  lemma DependencyRoundTrip(o: Option<ID>)
    ensures ImportDependency(OptionalIdJson(o)) == Ok(o)
  {
  }

  lemma DependenciesRoundTrip(refs: Refs)
    ensures ImportDependencies(Items(IdsJson(refs))) == Ok(refs)
  {
    var r := ImportDependencies(Items(IdsJson(refs)));
    assert r.Ok?;
    assert r.value == refs;
  }

  /** Installing distinct IDs one by one into an empty reference table keeps their order. */
  lemma {:induction false} InstallDistinctRefs(refs: Refs)
    requires Tables.Distinct(refs)
    ensures Tables.InstallRefs([], refs) == refs
    decreases |refs|
  {
    if |refs| > 0 {
      var init := refs[..|refs| - 1];
      assert Tables.Distinct(init);
      InstallDistinctRefs(init);
      assert refs[|refs| - 1] !in init;
      assert init + [refs[|refs| - 1]] == refs;
    }
  }

  // ----- tables and their entries ----------------------------------------------------------

  /** Entries that name exported records of `t`, each name once, and their exports. */
  predicate EntriesFrom(t: Table, es: seq<(string, Json)>)
    requires ExportableTable(t)
  {
    (forall j | 0 <= j < |es| :: es[j].0 in Visible(t) && es[j].1 == ExportSymbol(t.byID[es[j].0]))
    && forall i, j | 0 <= i < j < |es| :: es[i].0 != es[j].0
  }

  /** What `ForEach` visits in an exported table: every exported record once, with its
      export. */
  lemma EntriesOfExport(t: Table)
    requires ExportableTable(t)
    ensures EntriesFrom(t, Entries(ExportTable(t)))
    ensures Names(Entries(ExportTable(t))) == Visible(t)
  {
    var es := Entries(ExportTable(t));
    if Visible(t) != {} {
      var m := ExportTable(t).members;
      assert m.Keys == Visible(t);
      var keys := Text.SortedKeys(m.Keys);
      forall i, j | 0 <= i < j < |es|
        ensures es[i].0 != es[j].0
      {
        Text.StrictlySortedDistinct(keys, i, j);
      }
      forall k
        ensures k in Names(es) <==> k in Visible(t)
      {
        NamesMember(es, k);
        if k in Visible(t) {
          var j :| 0 <= j < |keys| && keys[j] == k;
          assert es[j].0 == k;
        }
      }
    }
  }

  lemma EntriesPrefix(t: Table, es: seq<(string, Json)>, i: nat)
    requires ExportableTable(t) && EntriesFrom(t, es) && i <= |es|
    ensures EntriesFrom(t, es[..i])
  {
  }

  /** A name visited last is not among the names visited before it. */
  lemma NextNameIsNew(t: Table, es: seq<(string, Json)>, i: nat)
    requires ExportableTable(t) && EntriesFrom(t, es) && i < |es|
    ensures es[i].0 !in Names(es[..i])
  {
    NamesMember(es[..i], es[i].0);
  }

  /** Two records, both exported, with the same export. */
  predicate Agrees(a: Symbol, b: Symbol) {
    ExportableSymbol(a) && !IsStub(a) && ExportableSymbol(b) && !IsStub(b) && ExportSymbol(a) == ExportSymbol(b)
  }

  /** A table whose records are stubs or agree with the records of `t` under the same ID,
      and which holds an exported record for each exported record of `t`, has the export of
      `t`. */
  lemma SameExport(u: Table, t: Table)
    requires ExportableTable(t)
    requires forall k | k in u.byID :: IsStub(u.byID[k]) || (k in t.byID && Agrees(u.byID[k], t.byID[k]))
    requires forall k | k in Visible(t) :: k in u.byID && !IsStub(u.byID[k])
    ensures ExportableTable(u) && ExportTable(u) == ExportTable(t)
  {
    assert ExportableTable(u) by {
      forall k | k in u.byID
        ensures ExportableSymbol(u.byID[k])
      {
      }
    }
    assert Visible(u) == Visible(t);
    if Visible(u) != {} {
      assert (map k | k in Visible(u) :: ExportSymbol(u.byID[k])) == (map k | k in Visible(t) :: ExportSymbol(t.byID[k]));
    }
  }

  // ----- definitions -----------------------------------------------------------------------

  /** The exported records of a table of fields (`withAccess`) or of arguments or local
      definitions (not `withAccess`). */
  predicate DefinitionsRoundTrip(t: Table, withAccess: bool) {
    forall k | k in t.byID && !IsStub(t.byID[k]) ::
      t.byID[k].kind.DefinitionKind? && (t.byID[k].access != AccessType.Unknown <==> withAccess)
  }

  /** The envelope of a definition read back from its export. */
  lemma DeserializeDefinitionReadBack(id: ID, d: Symbol, withAccess: bool)
    requires d.kind.DefinitionKind? && (d.access != AccessType.Unknown <==> withAccess)
    ensures var start := EmptyDefinition();
      var base := start.(id := id, name := d.name, srcInfo := d.srcInfo, kind := start.kind.(fullType := d.kind.fullType));
      DeserializeDefinition(start, id, ExportDefinition(d), withAccess) == Ok(if withAccess then base.(access := d.access) else base)
  {
    SourceInfoRoundTrip(d.srcInfo);
    AccessTypeReadBack(d.access);
  }

  /** A definition read back from its export has the same export. */
  lemma DefinitionReadBack(id: ID, d: Symbol, ns: string, withAccess: bool)
    requires d.kind.DefinitionKind? && !IsStub(d) && (d.access != AccessType.Unknown <==> withAccess)
    ensures var r := ImportDefinition(EmptyDefinition(), id, ExportDefinition(d), ns, withAccess);
      r.Ok? && Agrees(r.value.value, d)
  {
    DeserializeDefinitionReadBack(id, d, withAccess);
    DependencyRoundTrip(d.kind.definitionType);
  }

  /** One visit of the `ForEach` over an exported table of definitions, for a name not seen
      before: the record read back is stored under it and agrees with the exported one. */
  lemma DefinitionStepReadBack(cur: Table, id: ID, d: Symbol, ns: string, withAccess: bool)
    requires id !in cur.byID && d.kind.DefinitionKind? && !IsStub(d) && (d.access != AccessType.Unknown <==> withAccess)
    ensures var r := DefinitionStep(cur, id, ExportDefinition(d), ns, withAccess);
      r.Ok? && id in r.value.value.byID && Agrees(r.value.value.byID[id], d)
  {
    DefinitionReadBack(id, d, ns, withAccess);
  }

  lemma {:induction false} DefinitionsFold(t: Table, es: seq<(string, Json)>, ns: string, withAccess: bool)
    requires ExportableTable(t) && DefinitionsRoundTrip(t, withAccess) && EntriesFrom(t, es)
    ensures var r := ImportDefinitions(EmptyTable, es, ns, withAccess);
      r.Ok? && r.value.value.byID.Keys == Names(es)
      && forall k | k in r.value.value.byID :: k in t.byID && Agrees(r.value.value.byID[k], t.byID[k])
    decreases |es|
  {
    if es != [] {
      var n := |es| - 1;
      var init := es[..n];
      EntriesPrefix(t, es, n);
      DefinitionsFold(t, init, ns, withAccess);
      var cur := ImportDefinitions(EmptyTable, init, ns, withAccess).value.value;
      var (id, v) := es[n];
      NextNameIsNew(t, es, n);
      assert id !in cur.byID;
      var d := t.byID[id];
      assert v == ExportDefinition(d);
      DefinitionStepReadBack(cur, id, d, ns, withAccess);
      var step := DefinitionStep(cur, id, v, ns, withAccess).value;
      var u := step.value;
      assert ImportDefinitions(EmptyTable, es, ns, withAccess).value.value == u;
      forall k | k in u.byID
        ensures k in t.byID && Agrees(u.byID[k], t.byID[k])
      {
        if k != id {
          assert u.byID[k] == cur.byID[k];
        }
      }
    }
  }

  /** A table of definitions read back from its export has the same export. */
  lemma DefinitionsReadBack(t: Table, ns: string, withAccess: bool)
    requires ExportableTable(t) && DefinitionsRoundTrip(t, withAccess)
    ensures var r := ImportDefinitions(EmptyTable, Entries(ExportTable(t)), ns, withAccess);
      r.Ok? && ExportableTable(r.value.value) && ExportTable(r.value.value) == ExportTable(t)
  {
    var es := Entries(ExportTable(t));
    EntriesOfExport(t);
    DefinitionsFold(t, es, ns, withAccess);
    SameExport(ImportDefinitions(EmptyTable, es, ns, withAccess).value.value, t);
  }

  // ----- methods ---------------------------------------------------------------------------

  /** A method the import reads back: its return type is not the record "void", its
      arguments and local definitions carry no access specifier, and its template arguments
      are each installed once. */
  predicate MethodRoundTrips(m: Symbol) {
    m.kind.MethodKind? && m.kind.returnType != Some("void")
    && DefinitionsRoundTrip(m.kind.arguments, false) && DefinitionsRoundTrip(m.kind.definitions, false)
    && Tables.Distinct(m.kind.templateArgs)
  }

  predicate MethodsRoundTrip(t: Table) {
    forall k | k in t.byID && !IsStub(t.byID[k]) :: MethodRoundTrips(t.byID[k])
  }

  /** The envelope and counters of a method read back from its export. */
  lemma DeserializeMethodFrom(id: ID, m: Symbol, v: Json)
    requires m.kind.MethodKind? && m.kind.methodType != MethodType.Undefined
    requires v.Obj? && var k := m.kind; var e := v.members;
      && "name" in e && e["name"] == Str(m.name)
      && "branches" in e && e["branches"] == Int(k.branches as int)
      && "lines" in e && e["lines"] == Int(k.lineCount as int)
      && "literals" in e && e["literals"] == Int(k.literals as int)
      && "loops" in e && e["loops"] == Int(k.loops as int)
      && "max_scope" in e && e["max_scope"] == Int(k.maxScopeDepth as int)
      && "access" in e && e["access"] == Str(AccessTypeStr(m.access))
      && "src_info" in e && e["src_info"] == SourceInfoJson(m.srcInfo)
      && "statements" in e && e["statements"] == Int(k.statements as int)
      && "virtual" in e && e["virtual"] == Bool(k.isVirtual)
      && "method_type" in e && e["method_type"] == Str(MethodTypeAsString(k.methodType))
    ensures var start := EmptyMethod();
      var k := m.kind;
      DeserializeMethod(start, id, v) == Ok(start.(id := id, name := m.name, access := m.access, srcInfo := m.srcInfo,
        kind := start.kind.(branches := k.branches, lineCount := k.lineCount, literals := k.literals, loops := k.loops,
          maxScopeDepth := k.maxScopeDepth, statements := k.statements, isVirtual := k.isVirtual, methodType := k.methodType)))
  {
    SourceInfoRoundTrip(m.srcInfo);
    AccessTypeReadBack(m.access);
    MethodTypeReadBack(m.kind.methodType);
  }

  /** A method read back from its export has the same export. */
  lemma MethodReadBack(id: ID, m: Symbol, ns: string)
    requires ExportableSymbol(m) && !IsStub(m) && MethodRoundTrips(m)
    ensures var r := ImportMethod(EmptyMethod(), id, ExportMethod(m), ns);
      r.Ok? && Agrees(r.value.value, m)
  {
    var k := m.kind;
    var v := ExportMethod(m);
    var retType, args, definitions, templateArgs, srcInfo, access, methodType :=
      ReturnTypeJson(k.returnType), ExportTable(k.arguments), ExportTable(k.definitions), IdsJson(k.templateArgs),
      SourceInfoJson(m.srcInfo), Str(AccessTypeStr(m.access)), Str(MethodTypeAsString(k.methodType));
    MethodObjectTypes(retType, args, definitions, templateArgs, Int(k.literals as int), Int(k.statements as int),
      Int(k.branches as int), Int(k.loops as int), srcInfo, Int(k.maxScopeDepth as int), Int(k.lineCount as int),
      access, Bool(k.isVirtual), methodType, Str(m.name));
    MethodObjectCounters(retType, args, definitions, templateArgs, Int(k.literals as int), Int(k.statements as int),
      Int(k.branches as int), Int(k.loops as int), srcInfo, Int(k.maxScopeDepth as int), Int(k.lineCount as int),
      access, Bool(k.isVirtual), methodType, Str(m.name));
    MethodObjectEnvelope(retType, args, definitions, templateArgs, Int(k.literals as int), Int(k.statements as int),
      Int(k.branches as int), Int(k.loops as int), srcInfo, Int(k.maxScopeDepth as int), Int(k.lineCount as int),
      access, Bool(k.isVirtual), methodType, Str(m.name));
    DeserializeMethodFrom(id, m, v);
    assert ImportReturnType(v) == Ok(k.returnType);
    DefinitionsReadBack(k.arguments, ns, false);
    DefinitionsReadBack(k.definitions, ns, false);
    DependenciesRoundTrip(k.templateArgs);
    InstallDistinctRefs(k.templateArgs);
    var r := ImportMethod(EmptyMethod(), id, v, ns).value.value;
    assert r.kind.returnType == k.returnType;
    assert r.kind.templateArgs == k.templateArgs;
    assert ExportMethod(r) == v;
  }

  lemma MethodStepReadBack(cur: Table, id: ID, m: Symbol, ns: string)
    requires id !in cur.byID && ExportableSymbol(m) && !IsStub(m) && MethodRoundTrips(m)
    ensures var r := MethodStep(cur, id, ExportMethod(m), ns);
      r.Ok? && id in r.value.value.byID && Agrees(r.value.value.byID[id], m)
  {
    MethodReadBack(id, m, ns);
  }

  lemma {:induction false} MethodsFold(t: Table, es: seq<(string, Json)>, ns: string)
    requires ExportableTable(t) && MethodsRoundTrip(t) && EntriesFrom(t, es)
    ensures var r := ImportMethods(EmptyTable, es, ns);
      r.Ok? && r.value.value.byID.Keys == Names(es)
      && forall k | k in r.value.value.byID :: k in t.byID && Agrees(r.value.value.byID[k], t.byID[k])
    decreases |es|
  {
    if es != [] {
      var n := |es| - 1;
      var init := es[..n];
      EntriesPrefix(t, es, n);
      MethodsFold(t, init, ns);
      var cur := ImportMethods(EmptyTable, init, ns).value.value;
      var (id, v) := es[n];
      NextNameIsNew(t, es, n);
      assert id !in cur.byID;
      var m := t.byID[id];
      assert v == ExportMethod(m);
      MethodStepReadBack(cur, id, m, ns);
      var step := MethodStep(cur, id, v, ns).value;
      var u := step.value;
      assert ImportMethods(EmptyTable, es, ns).value.value == u;
      forall k | k in u.byID
        ensures k in t.byID && Agrees(u.byID[k], t.byID[k])
      {
        if k != id {
          assert u.byID[k] == cur.byID[k];
        }
      }
    }
  }

  /** A table of methods read back from its export has the same export. */
  lemma MethodsReadBack(t: Table, ns: string)
    requires ExportableTable(t) && MethodsRoundTrip(t)
    ensures var r := ImportMethods(EmptyTable, Entries(ExportTable(t)), ns);
      r.Ok? && ExportableTable(r.value.value) && ExportTable(r.value.value) == ExportTable(t)
  {
    var es := Entries(ExportTable(t));
    EntriesOfExport(t);
    MethodsFold(t, es, ns);
    SameExport(ImportMethods(EmptyTable, es, ns).value.value, t);
  }

  // ----- structures ------------------------------------------------------------------------

  /** A structure the import reads back: its reference lists hold each ID once, its fields
      carry a known access specifier and its methods read back. */
  predicate StructureRoundTrips(s: Symbol) {
    s.kind.StructureKind?
    && Tables.Distinct(s.kind.bases) && Tables.Distinct(s.kind.contains) && Tables.Distinct(s.kind.friends)
    && Tables.Distinct(s.kind.templateArgs)
    && DefinitionsRoundTrip(s.kind.fields, true) && MethodsRoundTrip(s.kind.methods)
  }

  /** The tables the export and import round-trip: every exported record is a structure
      that reads back. */
  predicate RoundTrips(t: Table) {
    ExportableTable(t) && forall k | k in t.byID && !IsStub(t.byID[k]) :: StructureRoundTrips(t.byID[k])
  }

  /** The envelope of a structure read back from its export, whatever record it fills. */
  lemma DeserializeStructureFrom(start: Symbol, id: ID, s: Symbol, v: Json)
    requires start.kind.StructureKind? && s.kind.StructureKind?
    requires v.Obj? && var e := v.members;
      && "name" in e && e["name"] == Str(s.name)
      && "namespace" in e && e["namespace"] == Str(s.nameSpace)
      && "structure_type" in e && e["structure_type"] == Str(StructureTypeAsString(s.kind.structureType))
      && "src_info" in e && e["src_info"] == SourceInfoJson(s.srcInfo)
    ensures DeserializeStructure(start, id, v) == Ok(start.(id := id, name := s.name, nameSpace := s.nameSpace,
      srcInfo := s.srcInfo, kind := start.kind.(structureType := s.kind.structureType)))
  {
    SourceInfoRoundTrip(s.srcInfo);
    StructureTypeReadBack(s.kind.structureType);
  }

  /** The relationships of a structure read back from its export into a record that has
      none yet: the reference lists and parents come back as written, and the fields and
      methods come back with the same export. Nothing else in the record changes. */
  lemma RelationsReadBack(d: Symbol, s: Symbol, v: Json)
    requires d.kind.StructureKind? && d.kind == DefaultStructureKind.(structureType := d.kind.structureType) && d.nameSpace == s.nameSpace
    requires ExportableSymbol(s) && !IsStub(s) && StructureRoundTrips(s)
    requires v.Obj? && var k := s.kind; var e := v.members;
      && "contains" in e && e["contains"] == IdsJson(k.contains)
      && "bases" in e && e["bases"] == IdsJson(k.bases)
      && "fields" in e && e["fields"] == ExportTable(k.fields)
      && "friends" in e && e["friends"] == IdsJson(k.friends)
      && "methods" in e && e["methods"] == ExportTable(k.methods)
      && "nested_parent" in e && e["nested_parent"] == OptionalIdJson(k.nestedParent)
      && "template_parent" in e && e["template_parent"] == OptionalIdJson(k.templateParent)
      && "template_args" in e && e["template_args"] == IdsJson(k.templateArgs)
    ensures var r := ImportRelations(d, v);
      r.Ok? && var x := r.value.value; var k := s.kind;
      x.(kind := d.kind) == d && x.kind.StructureKind? && x.kind.structureType == d.kind.structureType
      && x.kind.contains == k.contains && x.kind.bases == k.bases && x.kind.friends == k.friends
      && x.kind.templateArgs == k.templateArgs
      && x.kind.nestedParent == k.nestedParent && x.kind.templateParent == k.templateParent
      && ExportableTable(x.kind.fields) && ExportTable(x.kind.fields) == ExportTable(k.fields)
      && ExportableTable(x.kind.methods) && ExportTable(x.kind.methods) == ExportTable(k.methods)
  {
    var k := s.kind;
    DefinitionsReadBack(k.fields, s.nameSpace, true);
    MethodsReadBack(k.methods, s.nameSpace);
    var fb := ImportDefinitions(EmptyTable, Entries(ExportTable(k.fields)), s.nameSpace, true).value;
    var mb := ImportMethods(EmptyTable, Entries(ExportTable(k.methods)), s.nameSpace).value;
    RelationsFrom(d, k, v, fb, mb);
  }

  /** `RelationsReadBack` with the tables of fields and methods already read back as `fb`
      and `mb`. */
  lemma RelationsFrom(d: Symbol, k: Kind, v: Json, fb: Built<Table>, mb: Built<Table>)
    requires d.kind.StructureKind? && d.kind == DefaultStructureKind.(structureType := d.kind.structureType)
    requires k.StructureKind? && Tables.Distinct(k.bases) && Tables.Distinct(k.contains)
    requires Tables.Distinct(k.friends) && Tables.Distinct(k.templateArgs)
    requires v.Obj? && var e := v.members;
      && "contains" in e && e["contains"] == IdsJson(k.contains)
      && "bases" in e && e["bases"] == IdsJson(k.bases)
      && "fields" in e && "methods" in e
      && "friends" in e && e["friends"] == IdsJson(k.friends)
      && "nested_parent" in e && e["nested_parent"] == OptionalIdJson(k.nestedParent)
      && "template_parent" in e && e["template_parent"] == OptionalIdJson(k.templateParent)
      && "template_args" in e && e["template_args"] == IdsJson(k.templateArgs)
      && ImportDefinitions(EmptyTable, Entries(e["fields"]), d.nameSpace, true) == Ok(fb)
      && ImportMethods(EmptyTable, Entries(e["methods"]), d.nameSpace) == Ok(mb)
    ensures var r := ImportRelations(d, v);
      r.Ok? && var x := r.value.value;
      x.(kind := d.kind) == d && x.kind.StructureKind? && x.kind.structureType == d.kind.structureType
      && x.kind.contains == k.contains && x.kind.bases == k.bases && x.kind.friends == k.friends
      && x.kind.templateArgs == k.templateArgs
      && x.kind.nestedParent == k.nestedParent && x.kind.templateParent == k.templateParent
      && x.kind.fields == fb.value && x.kind.methods == mb.value
  {
    DependenciesRoundTrip(k.contains);
    DependenciesRoundTrip(k.bases);
    DependenciesRoundTrip(k.friends);
    DependenciesRoundTrip(k.templateArgs);
    InstallDistinctRefs(k.contains);
    InstallDistinctRefs(k.bases);
    InstallDistinctRefs(k.friends);
    InstallDistinctRefs(k.templateArgs);
    DependencyRoundTrip(k.nestedParent);
    DependencyRoundTrip(k.templateParent);
  }

  /** A structure read back from its export into a record without relationships (a stub or
      the default structure) has the same export. */
  lemma StructureReadBack(start: Symbol, id: ID, s: Symbol)
    requires start.kind == DefaultStructureKind
    requires ExportableSymbol(s) && !IsStub(s) && StructureRoundTrips(s)
    ensures var r := ImportStructureRecord(start, id, ExportStructure(s));
      r.Ok? && Agrees(r.value.value, s)
  {
    ExportStructureLookups(s);
    StructureRecordReadBack(start, id, s, ExportStructure(s));
    SameStructureExport(ImportStructureRecord(start, id, ExportStructure(s)).value.value, s);
  }

  /** The record filled in from a JSON object holding what the export of `s` holds. */
  lemma StructureRecordReadBack(start: Symbol, id: ID, s: Symbol, v: Json)
    requires start.kind == DefaultStructureKind
    requires ExportableSymbol(s) && !IsStub(s) && StructureRoundTrips(s)
    requires v.Obj? && var k := s.kind; var e := v.members;
      && "name" in e && e["name"] == Str(s.name)
      && "namespace" in e && e["namespace"] == Str(s.nameSpace)
      && "structure_type" in e && e["structure_type"] == Str(StructureTypeAsString(k.structureType))
      && "src_info" in e && e["src_info"] == SourceInfoJson(s.srcInfo)
      && "contains" in e && e["contains"] == IdsJson(k.contains)
      && "bases" in e && e["bases"] == IdsJson(k.bases)
      && "fields" in e && e["fields"] == ExportTable(k.fields)
      && "friends" in e && e["friends"] == IdsJson(k.friends)
      && "methods" in e && e["methods"] == ExportTable(k.methods)
      && "nested_parent" in e && e["nested_parent"] == OptionalIdJson(k.nestedParent)
      && "template_parent" in e && e["template_parent"] == OptionalIdJson(k.templateParent)
      && "template_args" in e && e["template_args"] == IdsJson(k.templateArgs)
    ensures var r := ImportStructureRecord(start, id, v);
      r.Ok? && var x, k := r.value.value.kind, s.kind;
      var y := r.value.value;
      y.kind.StructureKind? && y.name == s.name && y.nameSpace == s.nameSpace && y.srcInfo == s.srcInfo
      && x.structureType == k.structureType && x.contains == k.contains && x.bases == k.bases
      && x.friends == k.friends && x.templateArgs == k.templateArgs
      && x.nestedParent == k.nestedParent && x.templateParent == k.templateParent
      && ExportableTable(x.fields) && ExportTable(x.fields) == ExportTable(k.fields)
      && ExportableTable(x.methods) && ExportTable(x.methods) == ExportTable(k.methods)
  {
    DeserializeStructureFrom(start, id, s, v);
    var d := DeserializeStructure(start, id, v).value;
    RelationsReadBack(d, s, v);
    assert ImportStructureRecord(start, id, v) == ImportRelations(d, v);
  }

  /** The members of a structure's export that the import reads. */
  lemma ExportStructureLookups(s: Symbol)
    requires ExportableSymbol(s) && !IsStub(s) && s.kind.StructureKind?
    ensures var v := ExportStructure(s);
      v.Obj? && var k := s.kind; var e := v.members;
      && "name" in e && e["name"] == Str(s.name)
      && "namespace" in e && e["namespace"] == Str(s.nameSpace)
      && "structure_type" in e && e["structure_type"] == Str(StructureTypeAsString(k.structureType))
      && "src_info" in e && e["src_info"] == SourceInfoJson(s.srcInfo)
      && "contains" in e && e["contains"] == IdsJson(k.contains)
      && "bases" in e && e["bases"] == IdsJson(k.bases)
      && "fields" in e && e["fields"] == ExportTable(k.fields)
      && "friends" in e && e["friends"] == IdsJson(k.friends)
      && "methods" in e && e["methods"] == ExportTable(k.methods)
      && "nested_parent" in e && e["nested_parent"] == OptionalIdJson(k.nestedParent)
      && "template_parent" in e && e["template_parent"] == OptionalIdJson(k.templateParent)
      && "template_args" in e && e["template_args"] == IdsJson(k.templateArgs)
  {
    var k := s.kind;
    var methods, fields, bases, contains, friends, templateArgs :=
      ExportTable(k.methods), ExportTable(k.fields), IdsJson(k.bases), IdsJson(k.contains), IdsJson(k.friends),
      IdsJson(k.templateArgs);
    var srcInfo, structureType := SourceInfoJson(s.srcInfo), Str(StructureTypeAsString(k.structureType));
    var templateParent, nestedParent := OptionalIdJson(k.templateParent), OptionalIdJson(k.nestedParent);
    StructureObjectMembers(methods, fields, bases, contains, friends, srcInfo, Str(s.nameSpace), structureType,
      templateParent, nestedParent, templateArgs, Str(s.name));
    StructureObjectEnvelope(methods, fields, bases, contains, friends, srcInfo, Str(s.nameSpace), structureType,
      templateParent, nestedParent, templateArgs, Str(s.name));
  }

  /** Two structures with the same envelope, reference lists and parents, and nested tables
      with the same export, have the same export. */
  lemma SameStructureExport(r: Symbol, s: Symbol)
    requires ExportableSymbol(s) && !IsStub(s) && s.kind.StructureKind? && r.kind.StructureKind?
    requires r.name == s.name && r.nameSpace == s.nameSpace && r.srcInfo == s.srcInfo
    requires var x, k := r.kind, s.kind;
      x.structureType == k.structureType && x.contains == k.contains && x.bases == k.bases
      && x.friends == k.friends && x.templateArgs == k.templateArgs
      && x.nestedParent == k.nestedParent && x.templateParent == k.templateParent
      && ExportableTable(x.fields) && ExportTable(x.fields) == ExportTable(k.fields)
      && ExportableTable(x.methods) && ExportTable(x.methods) == ExportTable(k.methods)
    ensures ExportableSymbol(r) && !IsStub(r) && ExportStructure(r) == ExportStructure(s)
  {
  }

  /** One visit of the `ForEach` over "structures": the record under `id` is at most the
      stub a dependency left, and it is filled in with the same export. */
  lemma StructureStepReadBack(cur: Table, id: ID, s: Symbol)
    requires id in cur.byID ==> cur.byID[id] == StructureStub(id)
    requires ExportableSymbol(s) && !IsStub(s) && StructureRoundTrips(s)
    ensures var r := ImportStructure(cur, id, ExportStructure(s));
      r.Ok? && Agrees(r.value.byID[id], s)
  {
    var ins := Tables.Install2(cur, id, EmptyStructure());
    assert ins.symbol.kind == DefaultStructureKind;
    StructureReadBack(ins.symbol, id, s);
  }

  /** The table after importing the visited entries of an exported table: the visited names
      agree with `t`, every other record is a dependency stub. */
  lemma {:induction false} StructuresFold(t: Table, es: seq<(string, Json)>)
    requires RoundTrips(t) && EntriesFrom(t, es)
    ensures var r := Incremental.ImportStructures(EmptyTable, es);
      r.Ok? && Names(es) <= r.value.byID.Keys
      && forall k | k in r.value.byID ::
        if k in Names(es) then k in t.byID && Agrees(r.value.byID[k], t.byID[k])
        else r.value.byID[k] == StructureStub(k)
    decreases |es|
  {
    if es != [] {
      var n := |es| - 1;
      var init := es[..n];
      EntriesPrefix(t, es, n);
      StructuresFold(t, init);
      var cur := Incremental.ImportStructures(EmptyTable, init).value;
      var (id, v) := es[n];
      NextNameIsNew(t, es, n);
      var s := t.byID[id];
      assert v == ExportStructure(s);
      StructureStepReadBack(cur, id, s);
      var u := ImportStructure(cur, id, v).value;
      assert Incremental.ImportStructures(EmptyTable, es).value == u;
      assert Names(es) == Names(init) + {id};
      forall k | k in u.byID
        ensures if k in Names(es) then k in t.byID && Agrees(u.byID[k], t.byID[k]) else u.byID[k] == StructureStub(k)
      {
        if k != id && k in cur.byID {
          assert u.byID[k] == cur.byID[k];
        }
      }
    }
  }

  /** `ExportST` then `ImportST` into an empty table: the imported table has the same
      export. Dependencies that are not exported come back as stubs, which are not exported. */
  lemma ExportImportRoundTrip(t: Table)
    requires RoundTrips(t)
    ensures var r := ImportST(EmptyTable, ExportDocument(t));
      r.Ok? && ExportableTable(r.value) && ExportTable(r.value) == ExportTable(t)
  {
    var es := Entries(ExportTable(t));
    EntriesOfExport(t);
    StructuresFold(t, es);
    var u := Incremental.ImportStructures(EmptyTable, es).value;
    assert ImportST(EmptyTable, ExportDocument(t)) == Ok(u);
    SameExport(u, t);
  }

  // ----- what does not read back -----------------------------------------------------------

  /** A field whose access specifier is unknown is exported without "access", which the
      import requires of every field: reading it fails, whatever record it would fill. */
  lemma UnknownAccessFieldFails(cur: Table, id: ID, d: Symbol, ns: string)
    requires d.kind.DefinitionKind? && d.access == AccessType.Unknown
    ensures DefinitionStep(cur, id, ExportDefinition(d), ns, true).Err?
  {
    DefinitionOptionalKeys(d);
  }

  /** An exported table of fields that holds such a field does not read back. */
  lemma UnknownAccessFieldsFail(start: Table, t: Table, id: ID, ns: string)
    requires ExportableTable(t) && id in t.byID && !IsStub(t.byID[id])
    requires t.byID[id].kind.DefinitionKind? && t.byID[id].access == AccessType.Unknown
    ensures ImportDefinitions(start, Entries(ExportTable(t)), ns, true).Err?
  {
    var es := Entries(ExportTable(t));
    EntriesOfExport(t);
    NamesMember(es, id);
    var j :| 0 <= j < |es| && es[j].0 == id;
    assert es[j].1 == ExportDefinition(t.byID[id]);
    var before := ImportDefinitions(start, es[..j], ns, true);
    if before.Ok? {
      UnknownAccessFieldFails(before.value.value, id, t.byID[id], ns);
    }
    DefinitionsFailAt(start, es, j, ns, true);
  }

  /** A structure with a field of unknown access cannot be imported from its export. */
  lemma UnknownAccessStructureFails(cur: Table, id: ID, s: Symbol, fid: ID)
    requires ExportableSymbol(s) && !IsStub(s) && s.kind.StructureKind?
    requires var f := s.kind.fields;
      fid in f.byID && !IsStub(f.byID[fid]) && f.byID[fid].kind.DefinitionKind? && f.byID[fid].access == AccessType.Unknown
    ensures ImportStructure(cur, id, ExportStructure(s)).Err?
  {
    var k := s.kind;
    var v := ExportStructure(s);
    StructureObjectMembers(ExportTable(k.methods), ExportTable(k.fields), IdsJson(k.bases), IdsJson(k.contains),
      IdsJson(k.friends), SourceInfoJson(s.srcInfo), Str(s.nameSpace), Str(StructureTypeAsString(k.structureType)),
      OptionalIdJson(k.templateParent), OptionalIdJson(k.nestedParent), IdsJson(k.templateArgs), Str(s.name));
    var ins := Tables.Install2(cur, id, EmptyStructure());
    if ins.symbol.kind.StructureKind? {
      var d := DeserializeStructure(ins.symbol, id, v);
      if d.Ok? {
        UnknownAccessFieldsFail(d.value.kind.fields, k.fields, fid, d.value.nameSpace);
        assert ImportRelations(d.value, v).Err?;
      }
    }
  }

  /** An exported table with such a structure cannot be imported, into any table. */
  lemma UnknownAccessStructuresFail(u: Table, t: Table, id: ID, fid: ID)
    requires ExportableTable(t) && id in t.byID && !IsStub(t.byID[id]) && t.byID[id].kind.StructureKind?
    requires var f := t.byID[id].kind.fields;
      fid in f.byID && !IsStub(f.byID[fid]) && f.byID[fid].kind.DefinitionKind? && f.byID[fid].access == AccessType.Unknown
    ensures Incremental.ImportStructures(u, Entries(ExportTable(t))).Err?
  {
    var es := Entries(ExportTable(t));
    EntriesOfExport(t);
    NamesMember(es, id);
    var j :| 0 <= j < |es| && es[j].0 == id;
    assert es[j].1 == ExportStructure(t.byID[id]);
    var before := Incremental.ImportStructures(u, es[..j]);
    if before.Ok? {
      UnknownAccessStructureFails(before.value, id, t.byID[id], fid);
    }
    StructuresFailAt(u, es, j);
  }

  /** Nor can the document holding it. */
  lemma UnknownAccessDocumentFails(u: Table, t: Table, id: ID, fid: ID)
    requires ExportableTable(t) && id in t.byID && !IsStub(t.byID[id]) && t.byID[id].kind.StructureKind?
    requires var f := t.byID[id].kind.fields;
      fid in f.byID && !IsStub(f.byID[fid]) && f.byID[fid].kind.DefinitionKind? && f.byID[fid].access == AccessType.Unknown
    ensures ImportST(u, ExportDocument(t)).Err?
  {
    UnknownAccessStructuresFail(u, t, id, fid);
  }
}
