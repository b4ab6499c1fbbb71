/** The export projection: a symbol table as the JSON object the import reads back. Stubs
    (records with an empty file name) are skipped; empty relationships and optional references
    are JSON null; a missing return type is the string "void". Member expressions are not
    exported. */
module Export {
  import opened Wrappers
  import opened Symbols
  import opened JsonValues

  function SourceInfoJson(loc: SourceInfo): Json {
    Obj(map["file" := Str(loc.fileName), "line" := Int(loc.line as int), "col" := Int(loc.column as int)])
  }

  /** `Put(val, key)` followed by one `append` per ID: null when nothing was appended. */
  function IdsJson(refs: Refs): (j: Json)
    ensures j.Null? <==> refs == []
    ensures j.Null? || j.Arr?
    ensures j.Arr? ==> |j.items| == |refs| && forall i | 0 <= i < |refs| :: j.items[i] == Str(refs[i])
  {
    if refs == [] then Null else Arr(seq(|refs|, i requires 0 <= i < |refs| => Str(refs[i])))
  }

  /** `Put(val, key)`, then the target's ID if there is one. */
  function OptionalIdJson(o: Option<ID>): (j: Json)
    ensures j.Null? <==> o.None?
    ensures o.Some? ==> j == Str(o.value)
  {
    match o
    case None => Null
    case Some(id) => Str(id)
  }

  /** A method without a return type is written as returning "void". */
  function ReturnTypeJson(o: Option<ID>): (j: Json)
    ensures j.Str?
    ensures j.s == "void" <==> o.None? || o == Some("void")
  {
    match o
    case None => Str("void")
    case Some(id) => Str(id)
  }

  /** The source asserts on a method whose type was never set; only records that are
      visited (those with a file name) must avoid that. */
  predicate ExportableSymbol(s: Symbol)
    decreases s, 1
  {
    !IsStub(s) ==>
      match s.kind
      case StructureKind(_, _, _, _, methods, fields, _, _, _) =>
        ExportableTable(methods) && ExportableTable(fields)
      case MethodKind(methodType, _, _, arguments, definitions, _, _, _, _, _, _, _, _) =>
        methodType != MethodType.Undefined && ExportableTable(arguments) && ExportableTable(definitions)
      case DefinitionKind(_, _) => true
  }

  predicate ExportableTable(t: Table)
    decreases t, 0
  {
    forall k | k in t.byID :: ExportableSymbol(t.byID[k])
  }

  /** The IDs whose records are exported. */
  function Visible(t: Table): (ks: set<ID>)
    ensures forall k :: k in ks <==> k in t.byID && !IsStub(t.byID[k])
  {
    set k | k in t.byID && !IsStub(t.byID[k])
  }

  /** `AddJsonSymbolTable`: one member per record with a file name, keyed by its ID; the
      value stays null when there is none. */
  function ExportTable(t: Table): Json
    requires ExportableTable(t)
    decreases t, 3
  {
    if Visible(t) == {} then Null
    else Obj(map k | k in Visible(t) :: ExportSymbol(t.byID[k]))
  }

  function ExportSymbol(s: Symbol): Json
    requires ExportableSymbol(s) && !IsStub(s)
    decreases s, 2
  {
    match s.kind
    case StructureKind(_, _, _, _, _, _, _, _, _) => ExportStructure(s)
    case MethodKind(_, _, _, _, _, _, _, _, _, _, _, _, _) => ExportMethod(s)
    case DefinitionKind(_, _) => ExportDefinition(s)
  }

  /** `AddJsonStructure`. The access specifier of a structure is not written. */
  function ExportStructure(s: Symbol): Json
    requires ExportableSymbol(s) && !IsStub(s) && s.kind.StructureKind?
    decreases s, 1
  {
    var k := s.kind;
    StructureObject(ExportTable(k.methods), ExportTable(k.fields), IdsJson(k.bases), IdsJson(k.contains),
      IdsJson(k.friends), SourceInfoJson(s.srcInfo), Str(s.nameSpace), Str(StructureTypeAsString(k.structureType)),
      OptionalIdJson(k.templateParent), OptionalIdJson(k.nestedParent), IdsJson(k.templateArgs), Str(s.name))
  }

  /** The object `AddJsonStructure` writes, from the values of its members. */
  function StructureObject(methods: Json, fields: Json, bases: Json, contains: Json, friends: Json, srcInfo: Json,
                           nameSpace: Json, structureType: Json, templateParent: Json, nestedParent: Json,
                           templateArgs: Json, name: Json): Json
  {
    Obj(map[
      "methods" := methods,
      "fields" := fields,
      "bases" := bases,
      "contains" := contains,
      "friends" := friends,
      "src_info" := srcInfo,
      "namespace" := nameSpace,
      "structure_type" := structureType,
      "template_parent" := templateParent,
      "nested_parent" := nestedParent,
      "template_args" := templateArgs,
      "name" := name])
  }

  /** The members of a structure object that hold its members and relations. */
  lemma StructureObjectMembers(methods: Json, fields: Json, bases: Json, contains: Json, friends: Json, srcInfo: Json,
                               nameSpace: Json, structureType: Json, templateParent: Json, nestedParent: Json,
                               templateArgs: Json, name: Json)
    ensures var j := StructureObject(methods, fields, bases, contains, friends, srcInfo, nameSpace, structureType,
      templateParent, nestedParent, templateArgs, name);
      j.Obj? && var m := j.members;
      "methods" in m && m["methods"] == methods && "fields" in m && m["fields"] == fields
      && "bases" in m && m["bases"] == bases && "contains" in m && m["contains"] == contains
      && "friends" in m && m["friends"] == friends && "template_args" in m && m["template_args"] == templateArgs
  {
  }

  /** The members of a structure object that describe the structure itself. */
  lemma StructureObjectEnvelope(methods: Json, fields: Json, bases: Json, contains: Json, friends: Json, srcInfo: Json,
                                nameSpace: Json, structureType: Json, templateParent: Json, nestedParent: Json,
                                templateArgs: Json, name: Json)
    ensures var j := StructureObject(methods, fields, bases, contains, friends, srcInfo, nameSpace, structureType,
      templateParent, nestedParent, templateArgs, name);
      j.Obj? && var m := j.members;
      "src_info" in m && m["src_info"] == srcInfo && "namespace" in m && m["namespace"] == nameSpace
      && "structure_type" in m && m["structure_type"] == structureType
      && "template_parent" in m && m["template_parent"] == templateParent
      && "nested_parent" in m && m["nested_parent"] == nestedParent && "name" in m && m["name"] == name
  {
  }

  /** `AddJsonMethod`. Neither the namespace nor the member expressions are written; the
      access specifier always is. */
  function ExportMethod(s: Symbol): Json
    requires ExportableSymbol(s) && !IsStub(s) && s.kind.MethodKind?
    decreases s, 1
  {
    var k := s.kind;
    MethodObject(ReturnTypeJson(k.returnType), ExportTable(k.arguments), ExportTable(k.definitions),
      IdsJson(k.templateArgs), Int(k.literals as int), Int(k.statements as int), Int(k.branches as int),
      Int(k.loops as int), SourceInfoJson(s.srcInfo), Int(k.maxScopeDepth as int), Int(k.lineCount as int),
      Str(AccessTypeStr(s.access)), Bool(k.isVirtual), Str(MethodTypeAsString(k.methodType)), Str(s.name))
  }

  /** The object `AddJsonMethod` writes, from the values of its members. */
  function MethodObject(retType: Json, args: Json, definitions: Json, templateArgs: Json, literals: Json,
                        statements: Json, branches: Json, loops: Json, srcInfo: Json, maxScope: Json, lines: Json,
                        access: Json, isVirtual: Json, methodType: Json, name: Json): Json
  {
    Obj(map[
      "ret_type" := retType,
      "args" := args,
      "definitions" := definitions,
      "template_args" := templateArgs,
      "literals" := literals,
      "statements" := statements,
      "branches" := branches,
      "loops" := loops,
      "src_info" := srcInfo,
      "max_scope" := maxScope,
      "lines" := lines,
      "access" := access,
      "virtual" := isVirtual,
      "method_type" := methodType,
      "name" := name])
  }

  /** The members of a method object that hold its types. */
  lemma MethodObjectTypes(retType: Json, args: Json, definitions: Json, templateArgs: Json, literals: Json,
                            statements: Json, branches: Json, loops: Json, srcInfo: Json, maxScope: Json, lines: Json,
                            access: Json, isVirtual: Json, methodType: Json, name: Json)
    ensures var j := MethodObject(retType, args, definitions, templateArgs, literals, statements, branches, loops,
      srcInfo, maxScope, lines, access, isVirtual, methodType, name);
      j.Obj? && var m := j.members;
      "ret_type" in m && m["ret_type"] == retType && "args" in m && m["args"] == args
      && "definitions" in m && m["definitions"] == definitions && "template_args" in m && m["template_args"] == templateArgs
  {
  }

  /** The members of a method object that hold its metrics. */
  lemma MethodObjectCounters(retType: Json, args: Json, definitions: Json, templateArgs: Json, literals: Json,
                             statements: Json, branches: Json, loops: Json, srcInfo: Json, maxScope: Json, lines: Json,
                             access: Json, isVirtual: Json, methodType: Json, name: Json)
    ensures var j := MethodObject(retType, args, definitions, templateArgs, literals, statements, branches, loops,
      srcInfo, maxScope, lines, access, isVirtual, methodType, name);
      j.Obj? && var m := j.members;
      "literals" in m && m["literals"] == literals && "statements" in m && m["statements"] == statements
      && "branches" in m && m["branches"] == branches && "loops" in m && m["loops"] == loops
      && "max_scope" in m && m["max_scope"] == maxScope && "lines" in m && m["lines"] == lines
  {
  }

  /** The members of a method object that describe the method itself. */
  lemma MethodObjectEnvelope(retType: Json, args: Json, definitions: Json, templateArgs: Json, literals: Json,
                             statements: Json, branches: Json, loops: Json, srcInfo: Json, maxScope: Json, lines: Json,
                             access: Json, isVirtual: Json, methodType: Json, name: Json)
    ensures var j := MethodObject(retType, args, definitions, templateArgs, literals, statements, branches, loops,
      srcInfo, maxScope, lines, access, isVirtual, methodType, name);
      j.Obj? && var m := j.members;
      "src_info" in m && m["src_info"] == srcInfo && "access" in m && m["access"] == access
      && "virtual" in m && m["virtual"] == isVirtual && "method_type" in m && m["method_type"] == methodType
      && "name" in m && m["name"] == name
  {
  }

  /** `AddJsonDefinition`: the access key is written only when the access is known. */
  function ExportDefinition(s: Symbol): Json
    requires s.kind.DefinitionKind?
  {
    var k := s.kind;
    var fixed := map[
      "full_type" := Str(k.fullType),
      "type" := OptionalIdJson(k.definitionType),
      "src_info" := SourceInfoJson(s.srcInfo),
      "name" := Str(s.name)];
    Obj(if s.access == AccessType.Unknown then fixed else fixed["access" := Str(AccessTypeStr(s.access))])
  }

  /** The document the exporter writes: the table under "structures". */
  function ExportDocument(t: Table): Json
    requires ExportableTable(t)
  {
    Obj(map["structures" := ExportTable(t)])
  }

  // ----- properties of the projection ------------------------------------------------------

  /** Exactly one entry per record with a non-empty file name, keyed by its ID, and null when
      there is none. */
  lemma ExportEntries(t: Table)
    requires ExportableTable(t)
    ensures ExportTable(t).Null? <==> forall k | k in t.byID :: IsStub(t.byID[k])
    ensures ExportTable(t).Obj? ==>
      (forall k :: k in ExportTable(t).members <==> k in t.byID && !IsStub(t.byID[k]))
      && forall k | k in ExportTable(t).members :: ExportTable(t).members[k] == ExportSymbol(t.byID[k])
  {
    if Visible(t) != {} {
      var k :| k in Visible(t);
      assert k in ExportTable(t).members;
    }
  }

  /** Stubs do not show in the export: adding or removing one leaves it as it was. */
  lemma StubsAreInvisible(t: Table, id: ID, s: Symbol)
    requires ExportableTable(t) && IsStub(s) && (id in t.byID ==> IsStub(t.byID[id]))
    ensures ExportableTable(Table(t.byID[id := s]))
    ensures ExportTable(Table(t.byID[id := s])) == ExportTable(t)
  {
    var u := Table(t.byID[id := s]);
    assert ExportableSymbol(s);
    assert forall k | k in u.byID :: ExportableSymbol(u.byID[k]);
    assert Visible(u) == Visible(t);
    if Visible(t) != {} {
      assert (map k | k in Visible(u) :: ExportSymbol(u.byID[k])) == (map k | k in Visible(t) :: ExportSymbol(t.byID[k]));
    }
  }

  /** A method's "ret_type" is "void" exactly when it has no return type, unless its return
      type is a record whose ID is "void" itself: the two are then written alike. */
  lemma ReturnTypeVoid(s: Symbol)
    requires ExportableSymbol(s) && !IsStub(s) && s.kind.MethodKind?
    ensures ExportMethod(s).members["ret_type"] == Str("void") <==> s.kind.returnType.None? || s.kind.returnType == Some("void")
    ensures s.kind.returnType.Some? ==> ExportMethod(s).members["ret_type"] == Str(s.kind.returnType.value)
  {
  }

  lemma VoidIsAmbiguous(s: Symbol)
    requires ExportableSymbol(s) && !IsStub(s) && s.kind.MethodKind? && s.kind.returnType.None?
    ensures var t := s.(kind := s.kind.(returnType := Some("void")));
      ExportableSymbol(t) && ExportMethod(t) == ExportMethod(s) && t != s
  {
  }

  /** The optional keys of a definition: "access" is present exactly when the access is
      known; "type" is null exactly when there is no type. */
  lemma DefinitionOptionalKeys(s: Symbol)
    requires s.kind.DefinitionKind?
    ensures "access" in ExportDefinition(s).members <==> s.access != AccessType.Unknown
    ensures ExportDefinition(s).members["type"].Null? <==> s.kind.definitionType.None?
  {
  }

  /** The optional keys of a structure: "template_parent" and "nested_parent" are null
      exactly when absent, the relationship lists exactly when empty. */
  lemma StructureOptionalKeys(s: Symbol)
    requires ExportableSymbol(s) && !IsStub(s) && s.kind.StructureKind?
    ensures var m := ExportStructure(s).members;
      (m["template_parent"].Null? <==> s.kind.templateParent.None?)
      && (m["nested_parent"].Null? <==> s.kind.nestedParent.None?)
      && (m["bases"].Null? <==> s.kind.bases == [])
      && (m["contains"].Null? <==> s.kind.contains == [])
      && (m["friends"].Null? <==> s.kind.friends == [])
      && (m["template_args"].Null? <==> s.kind.templateArgs == [])
      && (m["methods"].Null? <==> Visible(s.kind.methods) == {})
      && (m["fields"].Null? <==> Visible(s.kind.fields) == {})
  {
    var k := s.kind;
    var methods, fields, bases, contains, friends, templateArgs :=
      ExportTable(k.methods), ExportTable(k.fields), IdsJson(k.bases), IdsJson(k.contains), IdsJson(k.friends),
      IdsJson(k.templateArgs);
    var srcInfo, structureType := SourceInfoJson(s.srcInfo), Str(StructureTypeAsString(k.structureType));
    var templateParent, nestedParent := OptionalIdJson(k.templateParent), OptionalIdJson(k.nestedParent);
    StructureObjectMembers(methods, fields, bases, contains, friends, srcInfo, Str(s.nameSpace), structureType,
      templateParent, nestedParent, templateArgs, Str(s.name));
    StructureObjectEnvelope(methods, fields, bases, contains, friends, srcInfo, Str(s.nameSpace), structureType,
      templateParent, nestedParent, templateArgs, Str(s.name));
  }

  // ----- the exporter, as the source runs it -----------------------------------------------

  /** The members written so far, for the IDs in `done`. */
  function ExportedSoFar(t: Table, done: set<ID>): Json
    requires ExportableTable(t) && done <= t.byID.Keys
  {
    var ks := set k | k in done && !IsStub(t.byID[k]);
    if ks == {} then Null else Obj(map k | k in ks :: ExportSymbol(t.byID[k]))
  }

  lemma ExportedSoFarStep(t: Table, done: set<ID>, k: ID)
    requires ExportableTable(t) && done <= t.byID.Keys && k in t.byID && k !in done
    ensures ExportedSoFar(t, done + {k}) ==
      if IsStub(t.byID[k]) then ExportedSoFar(t, done)
      else
        var sofar := ExportedSoFar(t, done);
        Obj((if sofar.Obj? then sofar.members else map[])[k := ExportSymbol(t.byID[k])])
  {
    var before := set j | j in done && !IsStub(t.byID[j]);
    var after := set j | j in done + {k} && !IsStub(t.byID[j]);
    if IsStub(t.byID[k]) {
      assert after == before;
    } else {
      assert after == before + {k};
      var sofar := ExportedSoFar(t, done);
      var m := if sofar.Obj? then sofar.members else map[];
      assert m == map j | j in before :: ExportSymbol(t.byID[j]);
      assert (map j | j in after :: ExportSymbol(t.byID[j])) == m[k := ExportSymbol(t.byID[k])];
    }
  }

  lemma ExportedSoFarAll(t: Table)
    requires ExportableTable(t)
    ensures ExportedSoFar(t, t.byID.Keys) == ExportTable(t)
  {
    assert (set j | j in t.byID.Keys && !IsStub(t.byID[j])) == Visible(t);
  }

  /** `AddJsonSymbolTable`: visits the records in the table's (unspecified) order and sets one
      member per visited record that has a file name. */
  method AddJsonSymbolTable(t: Table) returns (st: Json)
    requires ExportableTable(t)
    ensures st == ExportTable(t)
    decreases t, 3
  {
    st := Null;
    var todo := t.byID.Keys;
    ghost var done: set<ID> := {};
    while todo != {}
      invariant todo + done == t.byID.Keys && todo !! done
      invariant st == ExportedSoFar(t, done)
      decreases |todo|
    {
      var k :| k in todo;
      st := AddJsonMember(t, done, st, k);
      todo := todo - {k};
      done := done + {k};
    }
    ExportedSoFarAll(t);
  }

  /** One iteration: `st[id] = new_obj` for a record with a file name. */
  method AddJsonMember(t: Table, ghost done: set<ID>, st: Json, k: ID) returns (st': Json)
    requires ExportableTable(t) && done <= t.byID.Keys && k in t.byID && k !in done
    requires st == ExportedSoFar(t, done)
    ensures st' == ExportedSoFar(t, done + {k})
    decreases t, 2
  {
    ExportedSoFarStep(t, done, k);
    st' := st;
    var s := t.byID[k];
    if !IsStub(s) {
      var obj := AddJsonSymbol(s);
      var members := if st.Obj? then st.members else map[];
      st' := Obj(members[k := obj]);
    }
  }

  method AddJsonSymbol(s: Symbol) returns (j: Json)
    requires ExportableSymbol(s) && !IsStub(s)
    ensures j == ExportSymbol(s)
    decreases s, 2
  {
    match s.kind
    case StructureKind(_, _, _, _, _, _, _, _, _) =>
      j := AddJsonStructure(s);
    case MethodKind(_, _, _, _, _, _, _, _, _, _, _, _, _) =>
      j := AddJsonMethod(s);
    case DefinitionKind(_, _) =>
      j := AddJsonDefinition(s);
  }

  /** `Put(val, key)` and one `append` per reference. */
  method AppendIds(refs: Refs) returns (j: Json)
    ensures j == IdsJson(refs)
  {
    j := Null;
    for i := 0 to |refs|
      invariant j == IdsJson(refs[..i])
    {
      j := Append(j, Str(refs[i]));
      assert refs[..i + 1] == refs[..i] + [refs[i]];
    }
    assert refs[..|refs|] == refs;
  }

  method AddJsonStructure(s: Symbol) returns (j: Json)
    requires ExportableSymbol(s) && !IsStub(s) && s.kind.StructureKind?
    ensures j == ExportStructure(s)
    decreases s, 1
  {
    var k := s.kind;
    var m: map<string, Json> := map[];
    var methods := AddJsonSymbolTable(k.methods);
    m := m["methods" := methods];
    var fields := AddJsonSymbolTable(k.fields);
    m := m["fields" := fields];
    var bases := AppendIds(k.bases);
    m := m["bases" := bases];
    var contains := AppendIds(k.contains);
    m := m["contains" := contains];
    var friends := AppendIds(k.friends);
    m := m["friends" := friends];
    m := m["src_info" := SourceInfoJson(s.srcInfo)];
    m := m["namespace" := Str(s.nameSpace)];
    m := m["structure_type" := Str(StructureTypeAsString(k.structureType))];
    m := m["template_parent" := Null];
    if k.templateParent.Some? {
      m := m["template_parent" := Str(k.templateParent.value)];
    }
    m := m["nested_parent" := Null];
    if k.nestedParent.Some? {
      m := m["nested_parent" := Str(k.nestedParent.value)];
    }
    var args := AppendIds(k.templateArgs);
    m := m["template_args" := args];
    m := m["name" := Str(s.name)];
    j := Obj(m);
  }

  method AddJsonMethod(s: Symbol) returns (j: Json)
    requires ExportableSymbol(s) && !IsStub(s) && s.kind.MethodKind?
    ensures j == ExportMethod(s)
    decreases s, 1
  {
    var k := s.kind;
    var m: map<string, Json> := map[];
    if k.returnType.None? {
      m := m["ret_type" := Str("void")];
    } else {
      m := m["ret_type" := Str(k.returnType.value)];
    }
    var args := AddJsonSymbolTable(k.arguments);
    m := m["args" := args];
    var definitions := AddJsonSymbolTable(k.definitions);
    m := m["definitions" := definitions];
    var targs := AppendIds(k.templateArgs);
    m := m["template_args" := targs];
    m := m["literals" := Int(k.literals as int)];
    m := m["statements" := Int(k.statements as int)];
    m := m["branches" := Int(k.branches as int)];
    m := m["loops" := Int(k.loops as int)];
    m := m["src_info" := SourceInfoJson(s.srcInfo)];
    m := m["max_scope" := Int(k.maxScopeDepth as int)];
    m := m["lines" := Int(k.lineCount as int)];
    m := m["access" := Str(AccessTypeStr(s.access))];
    m := m["virtual" := Bool(k.isVirtual)];
    m := m["method_type" := Str(MethodTypeAsString(k.methodType))];
    m := m["name" := Str(s.name)];
    j := Obj(m);
  }

  method AddJsonDefinition(s: Symbol) returns (j: Json)
    requires s.kind.DefinitionKind?
    ensures j == ExportDefinition(s)
  {
    var k := s.kind;
    var m: map<string, Json> := map[];
    m := m["full_type" := Str(k.fullType)];
    m := m["type" := Null];
    if k.definitionType.Some? {
      m := m["type" := Str(k.definitionType.value)];
    }
    m := m["src_info" := SourceInfoJson(s.srcInfo)];
    if s.access != AccessType.Unknown {
      m := m["access" := Str(AccessTypeStr(s.access))];
    }
    m := m["name" := Str(s.name)];
    j := Obj(m);
  }
}
