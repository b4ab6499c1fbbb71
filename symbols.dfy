/** The data model of the symbol table: the enumerations, source locations with their
    comparison operators, and the three kinds of records (structures, methods and
    definitions) together with the default values their constructors produce. */
module Symbols {
  import opened Wrappers
  import Text

  /** Record IDs are strings, assigned by the miner. */
  type ID = string

  /** The source's `int`. */
  newtype int32 = x: int | -0x8000_0000 <= x < 0x8000_0000

  // ----- enumerations ----------------------------------------------------------------------

  /** The kinds of structure, in declaration order; `Undefined` (-1) marks a stub. */
  datatype StructureType =
    | Undefined
    | Class
    | Struct
    | TemplateDefinition
    | TemplateFullSpecialization
    | TemplateInstantiationSpecialization
    | TemplatePartialSpecialization

  /** The numeric value of each enumerator. */
  function Ordinal(t: StructureType): (n: int)
    ensures -1 <= n <= 5
    ensures n == -1 <==> t == StructureType.Undefined
  {
    match t
    case Undefined => -1
    case Class => 0
    case Struct => 1
    case TemplateDefinition => 2
    case TemplateFullSpecialization => 3
    case TemplateInstantiationSpecialization => 4
    case TemplatePartialSpecialization => 5
  }

  datatype MethodType =
    | Undefined
    | ConstructorTrivial
    | OverloadedOperatorTrivial
    | DestructorTrivial
    | ConstructorUserDefined
    | DestructorUserDefined
    | UserMethod
    | OverloadedOperatorUserDefined
    | TemplateDefinition
    | TemplateFullSpecialization
    | TemplateInstantiationSpecialization

  /** The runtime tag of a record. */
  datatype ClassType = Undefined | Structure | Method | Definition

  datatype AccessType = Unknown | Public | Protected | Private

  // ----- source locations ------------------------------------------------------------------

  datatype SourceInfo = SourceInfo(fileName: string, line: int32, column: int32)

  /** What a default-constructed `SourceInfo` holds: no file, line and column -1. */
  const NoSourceInfo := SourceInfo("", -1, -1)

  /* The comparison operators assert that both locations lie in the same file. They compare
     line and column separately, so they are not the lexicographic order: `a < b` holds
     unless `b` is at or before `a` in BOTH coordinates. */

  predicate Less(a: SourceInfo, b: SourceInfo)
    requires a.fileName == b.fileName
    ensures Less(a, b) <==> !(b.line <= a.line && b.column <= a.column)
  {
    if a.line < b.line then true
    else if a.column < b.column then true
    else false
  }

  predicate LessEq(a: SourceInfo, b: SourceInfo)
    requires a.fileName == b.fileName
    ensures LessEq(a, b) <==> !(b.line < a.line && b.column < a.column)
  {
    if a.line <= b.line then true
    else if a.column <= b.column then true
    else false
  }

  predicate Greater(a: SourceInfo, b: SourceInfo)
    requires a.fileName == b.fileName
    ensures Greater(a, b) <==> Less(b, a)
  {
    if a.line > b.line then true
    else if a.column > b.column then true
    else false
  }

  predicate GreaterEq(a: SourceInfo, b: SourceInfo)
    requires a.fileName == b.fileName
    ensures GreaterEq(a, b) <==> LessEq(b, a)
  {
    if a.line >= b.line then true
    else if a.column >= b.column then true
    else false
  }

  /** Equal line and column; as the files agree, this is equality of the locations. */
  predicate Equal(a: SourceInfo, b: SourceInfo)
    requires a.fileName == b.fileName
    ensures Equal(a, b) <==> a == b
  {
    if a.line == b.line && a.column == b.column then true else false
  }

  predicate NotEqual(a: SourceInfo, b: SourceInfo)
    requires a.fileName == b.fileName
    ensures NotEqual(a, b) <==> a != b
  {
    !Equal(a, b)
  }

  /** The lexicographic order on (line, column), for comparison with `Less`. */
  predicate LexBefore(a: SourceInfo, b: SourceInfo) {
    a.line < b.line || (a.line == b.line && a.column < b.column)
  }

  /** `<` is irreflexive but not asymmetric: two locations can each be before the other. */
  lemma LessNotAsymmetric()
    ensures forall a: SourceInfo :: !Less(a, a)
    ensures exists a: SourceInfo, b: SourceInfo :: a.fileName == b.fileName && Less(a, b) && Less(b, a)
  {
    var a, b := SourceInfo("f", 1, 5), SourceInfo("f", 2, 3);
    assert Less(a, b) && Less(b, a);
  }

  /** `<=` is total, yet it is not "`<` or `==`". */
  lemma LessEqNotLessOrEqual()
    ensures forall a: SourceInfo, b: SourceInfo | a.fileName == b.fileName :: LessEq(a, b) || LessEq(b, a)
    ensures exists a: SourceInfo, b: SourceInfo :: a.fileName == b.fileName && LessEq(a, b) && !Less(a, b) && !Equal(a, b)
  {
    var a, b := SourceInfo("f", 1, 5), SourceInfo("f", 1, 3);
    assert LessEq(a, b) && !Less(a, b) && !Equal(a, b);
  }

  /** `>` can hold of a location that lies lexicographically BEFORE the other one. */
  lemma GreaterAllowsEarlierLocation()
    ensures exists a: SourceInfo, b: SourceInfo :: a.fileName == b.fileName && Greater(a, b) && LexBefore(a, b)
  {
    var a, b := SourceInfo("f", 1, 9), SourceInfo("f", 2, 3);
    assert Greater(a, b) && LexBefore(a, b);
  }

  /** Splits "file:line:col" at its last two colons; the file name may itself hold colons. */
  function ParseLocation(s: string): Option<SourceInfo> {
    match Text.SplitLast(s, ':')
    case None => None
    case Some(p) =>
      match Text.SplitLast(p.0, ':')
      case None => None
      case Some(q) =>
        match (Text.ParseInt(q.1), Text.ParseInt(p.1))
        case (Some(l), Some(c)) =>
          if -0x8000_0000 <= l < 0x8000_0000 && -0x8000_0000 <= c < 0x8000_0000
          then Some(SourceInfo(q.0, l as int32, c as int32))
          else None
        case _ => None
  }

  /** `toString`: "file:line:col"; it loses nothing, the location can be read back. */
  function ToString(loc: SourceInfo): (s: string)
    ensures ParseLocation(s) == Some(loc)
  {
    var l, c := Text.IntToString(loc.line as int), Text.IntToString(loc.column as int);
    var s := loc.fileName + ":" + l + ":" + c;
    assert s == (loc.fileName + ":" + l) + [':'] + c;
    Text.SplitLastOfJoin(loc.fileName + ":" + l, ':', c);
    assert loc.fileName + ":" + l == loc.fileName + [':'] + l;
    Text.SplitLastOfJoin(loc.fileName, ':', l);
    Text.ParseIntToString(loc.line as int);
    Text.ParseIntToString(loc.column as int);
    s
  }

  // ----- records ---------------------------------------------------------------------------

  /** One use of a member inside a member-access chain. */
  datatype Member = Member(name: string, locEnd: SourceInfo, memberType: Option<ID>, memType: string)

  /** A member-access expression: its text, start, the furthest end seen and its members. */
  datatype MemberExpr = MemberExpr(expr: string, srcInfo: SourceInfo, locEnd: SourceInfo, members: seq<Member>)

  /** A symbol table: records by ID. Relationship targets are IDs into the shared table. */
  datatype Table = Table(byID: map<ID, Symbol>)

  /** A reference table (bases, nested classes, friends, template arguments): the IDs it
      holds, each once, in the order they were installed. */
  type Refs = seq<ID>

  /** The common envelope of every record, and its kind-specific part. */
  datatype Symbol = Symbol(
    id: ID,
    name: string,
    nameSpace: string,
    srcInfo: SourceInfo,
    access: AccessType,
    kind: Kind)

  datatype Kind =
    | StructureKind(
        structureType: StructureType,
        templateParent: Option<ID>,
        templateArgs: Refs,
        nestedParent: Option<ID>,
        methods: Table,
        fields: Table,
        bases: Refs,
        contains: Refs,
        friends: Refs)
    | MethodKind(
        methodType: MethodType,
        returnType: Option<ID>,
        templateArgs: Refs,
        arguments: Table,
        definitions: Table,
        memberExprs: map<string, MemberExpr>,
        literals: int32,
        statements: int32,
        branches: int32,
        loops: int32,
        maxScopeDepth: int32,
        lineCount: int32,
        isVirtual: bool)
    | DefinitionKind(definitionType: Option<ID>, fullType: string)

  const EmptyTable := Table(map[])

  /** A record with an empty file name was never given a location: it is a stub. */
  predicate IsStub(s: Symbol) {
    s.srcInfo.fileName == ""
  }

  function ClassTypeOf(s: Symbol): (c: ClassType)
    ensures c != ClassType.Undefined
  {
    match s.kind
    case StructureKind(_, _, _, _, _, _, _, _, _) => ClassType.Structure
    case MethodKind(_, _, _, _, _, _, _, _, _, _, _, _, _) => ClassType.Method
    case DefinitionKind(_, _) => ClassType.Definition
  }

  /** The kind-specific defaults of each record kind. */
  const DefaultStructureKind: Kind :=
    StructureKind(StructureType.Undefined, None, [], None, EmptyTable, EmptyTable, [], [], [])
  const DefaultMethodKind: Kind :=
    MethodKind(MethodType.Undefined, None, [], EmptyTable, EmptyTable, map[], 0, 0, 0, 0, 0, 0, false)
  const DefaultDefinitionKind: Kind := DefinitionKind(None, "")

  /** `Structure(id, name)`: an `Undefined` structure without location, namespace or access. */
  function NewStructure(id: ID, name: string): (s: Symbol)
    ensures s.id == id && s.name == name && s.nameSpace == ""
    ensures IsStub(s) && s.srcInfo == NoSourceInfo && s.access == AccessType.Unknown
    ensures IsUndefinedStructure(s) && s.kind == DefaultStructureKind
  {
    Symbol(id, name, "", NoSourceInfo, AccessType.Unknown, DefaultStructureKind)
  }

  /** `Structure(id)`: the dependency stub, named by its own ID. */
  function StructureStub(id: ID): (s: Symbol)
    ensures s == NewStructure(id, id)
  {
    NewStructure(id, id)
  }

  /** `Structure{}`: the default structure (empty ID and name). */
  function EmptyStructure(): (s: Symbol)
    ensures s == NewStructure("", "")
  {
    NewStructure("", "")
  }

  /** `Method(id, name)`: all counters 0, type `Undefined`, no return type. */
  function NewMethod(id: ID, name: string): (s: Symbol)
    ensures s.id == id && s.name == name && s.nameSpace == ""
    ensures IsStub(s) && s.srcInfo == NoSourceInfo && s.access == AccessType.Unknown
    ensures s.kind.MethodKind? && s.kind.methodType == MethodType.Undefined && s.kind.returnType.None?
    ensures s.kind.literals == s.kind.statements == s.kind.branches == 0
    ensures s.kind.loops == s.kind.maxScopeDepth == s.kind.lineCount == 0
    ensures s.kind.memberExprs == map[] && s.kind.arguments == s.kind.definitions == EmptyTable
  {
    Symbol(id, name, "", NoSourceInfo, AccessType.Unknown, DefaultMethodKind)
  }

  function EmptyMethod(): (s: Symbol)
    ensures s == NewMethod("", "")
  {
    NewMethod("", "")
  }

  /** `Definition(id, name)`: no structured type and an empty full type. */
  function NewDefinition(id: ID, name: string): (s: Symbol)
    ensures s.id == id && s.name == name && s.nameSpace == ""
    ensures IsStub(s) && s.srcInfo == NoSourceInfo && s.access == AccessType.Unknown
    ensures s.kind == DefinitionKind(None, "")
  {
    Symbol(id, name, "", NoSourceInfo, AccessType.Unknown, DefaultDefinitionKind)
  }

  function EmptyDefinition(): (s: Symbol)
    ensures s == NewDefinition("", "")
  {
    NewDefinition("", "")
  }

  /** A record built without source information has an empty file name, the mark of a stub. */
  lemma ConstructorsMakeStubs(id: ID, name: string)
    ensures IsStub(NewStructure(id, name)) && IsStub(NewMethod(id, name)) && IsStub(NewDefinition(id, name))
    ensures NoSourceInfo.fileName == "" && NoSourceInfo.line == -1 && NoSourceInfo.column == -1
  {
  }

  // ----- kind predicates -------------------------------------------------------------------

  predicate IsUndefinedStructure(s: Symbol) {
    s.kind.StructureKind? && s.kind.structureType == StructureType.Undefined
  }

  /** Set only when the structure is nested in another one. */
  predicate IsNestedClass(s: Symbol)
    requires s.kind.StructureKind?
  {
    s.kind.nestedParent.Some?
  }

  /** The source tests a range of enumerator values; that range is exactly the four template
      kinds. */
  predicate IsTemplate(t: StructureType)
    ensures IsTemplate(t) <==>
      t in {StructureType.TemplateDefinition, StructureType.TemplateFullSpecialization,
            StructureType.TemplateInstantiationSpecialization, StructureType.TemplatePartialSpecialization}
  {
    Ordinal(StructureType.TemplateDefinition) <= Ordinal(t) <= Ordinal(StructureType.TemplatePartialSpecialization)
  }

  predicate IsConstructor(t: MethodType) {
    t == MethodType.ConstructorUserDefined || t == MethodType.ConstructorTrivial
  }

  predicate IsDestructor(t: MethodType) {
    t == MethodType.DestructorUserDefined || t == MethodType.DestructorTrivial
  }

  predicate IsOverloadedOperator(t: MethodType) {
    t == MethodType.OverloadedOperatorUserDefined || t == MethodType.OverloadedOperatorTrivial
  }

  predicate IsUserMethod(t: MethodType) {
    t == MethodType.UserMethod
  }

  predicate IsTrivial(t: MethodType) {
    t == MethodType.ConstructorTrivial || t == MethodType.OverloadedOperatorTrivial || t == MethodType.DestructorTrivial
  }

  predicate IsMethodTemplate(t: MethodType) {
    t == MethodType.TemplateDefinition || t == MethodType.TemplateFullSpecialization
    || t == MethodType.TemplateInstantiationSpecialization
  }

  /** Every defined method type is in exactly one family, and trivial ones are special members. */
  lemma MethodFamilies(t: MethodType)
    requires t != MethodType.Undefined
    ensures (if IsConstructor(t) then 1 else 0) + (if IsDestructor(t) then 1 else 0)
          + (if IsOverloadedOperator(t) then 1 else 0) + (if IsUserMethod(t) then 1 else 0)
          + (if IsMethodTemplate(t) then 1 else 0) == 1
    ensures IsTrivial(t) ==> IsConstructor(t) || IsDestructor(t) || IsOverloadedOperator(t)
  {
  }

  // ----- names of enumerators --------------------------------------------------------------

  function StructureTypeAsString(t: StructureType): (r: string)
    ensures r == "Undefined" <==> t == StructureType.Undefined
  {
    match t
    case Class => "Class"
    case Struct => "Struct"
    case TemplateDefinition => "TemplateDefinition"
    case TemplateFullSpecialization => "TemplateFullSpecialization"
    case TemplateInstantiationSpecialization => "TemplateInstantiationSpecialization"
    case TemplatePartialSpecialization => "TemplatePartialSpecialization"
    case Undefined => "Undefined"
  }

  /** The source asserts on `Undefined`. */
  function MethodTypeAsString(t: MethodType): (r: string)
    requires t != MethodType.Undefined
    ensures |r| > 0
  {
    match t
    case ConstructorUserDefined => "Constructor_UserDefined"
    case ConstructorTrivial => "Constructor_Trivial"
    case DestructorUserDefined => "Destructor_UserDefined"
    case DestructorTrivial => "Destructor_Trivial"
    case OverloadedOperatorUserDefined => "OverloadedOperator_UserDefined"
    case OverloadedOperatorTrivial => "OverloadedOperator_Trivial"
    case UserMethod => "UserMethod"
    case TemplateDefinition => "TemplateDefinition"
    case TemplateFullSpecialization => "TemplateFullSpecialization"
    case TemplateInstantiationSpecialization => "TemplateInstantiationSpecialization"
  }

  /** The source asserts on `Undefined`. */
  function ClassTypeAsString(c: ClassType): (r: string)
    requires c != ClassType.Undefined
    ensures r in {"Structure", "Method", "Definition"}
  {
    match c
    case Structure => "Structure"
    case Method => "Method"
    case Definition => "Definition"
  }

  function AccessTypeStr(a: AccessType): (r: string)
    ensures r == "unknown" <==> a == AccessType.Unknown
  {
    match a
    case Public => "public"
    case Protected => "protected"
    case Private => "private"
    case Unknown => "unknown"
  }

  /** Distinct enumerators have distinct names. */
  lemma EnumeratorNamesDistinct()
    ensures forall s, t | StructureTypeAsString(s) == StructureTypeAsString(t) :: s == t
    ensures forall s, t | s != MethodType.Undefined && t != MethodType.Undefined
      && MethodTypeAsString(s) == MethodTypeAsString(t) :: s == t
    ensures forall a, b | AccessTypeStr(a) == AccessTypeStr(b) :: a == b
    ensures forall c, d | c != ClassType.Undefined && d != ClassType.Undefined
      && ClassTypeAsString(c) == ClassTypeAsString(d) :: c == d
  {
  }
}
