/** The install routines of a symbol table, on table values: every relationship kind (the
    shared store, fields, methods, arguments, local definitions) goes through them, and
    reference relationships (bases, nested classes, friends, template arguments) go through
    `InstallRef`. */
module Tables {
  import opened Wrappers
  import opened Symbols

  /** `Lookup`: the stored record, `None` (null) exactly when the ID is absent. */
  function Lookup(t: Table, id: ID): (r: Option<Symbol>)
    ensures r.None? <==> id !in t.byID
    ensures r.Some? ==> r.value == t.byID[id]
  {
    if id in t.byID then Some(t.byID[id]) else None
  }

  predicate IsEmpty(t: Table)
    ensures IsEmpty(t) <==> Size(t) == 0
  {
    t.byID == map[]
  }

  function Size(t: Table): nat {
    |t.byID|
  }

  /** A table after an install, and the record the install returned (the stored one). */
  datatype Installed = Installed(table: Table, symbol: Symbol)

  /** What every install promises: afterwards `id` is present and holds the returned record,
      no other entry changed, and no other key appeared. */
  predicate InstalledAt(t: Table, id: ID, r: Installed) {
    r.table.byID.Keys == t.byID.Keys + {id}
    && id in r.table.byID && r.table.byID[id] == r.symbol
    && forall k | k in t.byID && k != id :: r.table.byID[k] == t.byID[k]
  }

  /** First-wins: an ID already present leaves the table as it was and returns its record. */
  predicate KeptExisting(t: Table, id: ID, r: Installed) {
    id in t.byID ==> r == Installed(t, t.byID[id])
  }

  /** The copy constructor of `Structure` copies every field except the access specifier. */
  function CopyStructure(s: Symbol): (c: Symbol)
    ensures c.access == AccessType.Unknown
    ensures c.(access := s.access) == s
  {
    s.(access := AccessType.Unknown)
  }

  /** `Install(id, name, type)`: first-wins; otherwise a fresh record of the requested kind
      with that ID and name and no source information. The source asserts on `Undefined`. */
  function InstallStub(t: Table, id: ID, name: string, ct: ClassType): (r: Installed)
    requires ct != ClassType.Undefined
    ensures InstalledAt(t, id, r) && KeptExisting(t, id, r)
    ensures id !in t.byID ==>
      r.symbol.id == id && r.symbol.name == name && ClassTypeOf(r.symbol) == ct
      && r.symbol.srcInfo == NoSourceInfo && IsStub(r.symbol)
    ensures id !in t.byID && ct == ClassType.Structure ==> IsUndefinedStructure(r.symbol)
  {
    if id in t.byID then Installed(t, t.byID[id])
    else
      var s := match ct
        case Structure => NewStructure(id, name)
        case Method => NewMethod(id, name)
        case Definition => NewDefinition(id, name);
      Installed(Table(t.byID[id := s]), s)
  }

  /** `Install(id, Structure)`: a new ID stores a copy of `s`; an existing record that is
      still an `Undefined` structure is overwritten with `s` by assignment (access included);
      any other existing record is kept. */
  function InstallStructure(t: Table, id: ID, s: Symbol): (r: Installed)
    requires s.kind.StructureKind?
    ensures InstalledAt(t, id, r)
    ensures id !in t.byID ==> r.symbol == CopyStructure(s)
    ensures id in t.byID && IsUndefinedStructure(t.byID[id]) ==> r.symbol == s
    ensures id in t.byID && !IsUndefinedStructure(t.byID[id]) ==> r == Installed(t, t.byID[id])
  {
    if id in t.byID then
      if IsUndefinedStructure(t.byID[id]) then Installed(Table(t.byID[id := s]), s)
      else Installed(t, t.byID[id])
    else
      var c := CopyStructure(s);
      Installed(Table(t.byID[id := c]), c)
  }

  /** `Install2`: never modifies an existing entry; a new ID stores a copy of `s`. */
  function Install2(t: Table, id: ID, s: Symbol): (r: Installed)
    requires s.kind.StructureKind?
    ensures InstalledAt(t, id, r) && KeptExisting(t, id, r)
    ensures id !in t.byID ==> r.symbol == CopyStructure(s)
  {
    if id in t.byID then Installed(t, t.byID[id])
    else
      var c := CopyStructure(s);
      Installed(Table(t.byID[id := c]), c)
  }

  /** `Install(id, Method)` and `Install(id, Definition)`: first-wins; a new ID stores `s`. */
  function InstallFirst(t: Table, id: ID, s: Symbol): (r: Installed)
    ensures InstalledAt(t, id, r) && KeptExisting(t, id, r)
    ensures id !in t.byID ==> r.symbol == s
  {
    if id in t.byID then Installed(t, t.byID[id]) else Installed(Table(t.byID[id := s]), s)
  }

  function InstallMethod(t: Table, id: ID, m: Symbol): (r: Installed)
    requires m.kind.MethodKind?
    ensures InstalledAt(t, id, r) && KeptExisting(t, id, r)
    ensures id !in t.byID ==> r.symbol == m
  {
    InstallFirst(t, id, m)
  }

  function InstallDefinition(t: Table, id: ID, d: Symbol): (r: Installed)
    requires d.kind.DefinitionKind?
    ensures InstalledAt(t, id, r) && KeptExisting(t, id, r)
    ensures id !in t.byID ==> r.symbol == d
  {
    InstallFirst(t, id, d)
  }

  /** Installing a structure into a reference table: first-wins per ID. The target
      is the record stored under that ID in the shared table, so only the ID is kept. */
  function InstallRef(refs: Refs, id: ID): (r: Refs)
    ensures forall k :: k in r <==> k in refs || k == id
    ensures id in refs ==> r == refs
    ensures id !in refs ==> r == refs + [id]
    ensures Distinct(refs) ==> Distinct(r)
  {
    if id in refs then refs else refs + [id]
  }

  predicate Distinct(refs: Refs) {
    forall i, j | 0 <= i < j < |refs| :: refs[i] != refs[j]
  }

  // ----- properties of the installers ------------------------------------------------------

  /** After any install, `Lookup` finds the returned record and the size grew by at most one
      (by exactly one for a new ID). */
  lemma LookupAfterInstall(t: Table, id: ID, r: Installed)
    requires InstalledAt(t, id, r)
    ensures Lookup(r.table, id) == Some(r.symbol)
    ensures Size(r.table) == Size(t) + (if id in t.byID then 0 else 1)
    ensures forall k | k != id :: Lookup(r.table, k) == Lookup(t, k)
  {
    if id in t.byID {
      assert r.table.byID.Keys == t.byID.Keys;
    } else {
      assert r.table.byID.Keys == t.byID.Keys + {id};
    }
  }

  /** A stub followed by a full structure install stores the full structure: the stub is
      upgraded under the same ID, and every referrer of that ID sees the new value. */
  lemma StubThenFullInstall(t: Table, id: ID, name: string, s: Symbol)
    requires id !in t.byID && s.kind.StructureKind?
    ensures InstallStructure(InstallStub(t, id, name, ClassType.Structure).table, id, s).table
         == Table(t.byID[id := s])
  {
  }

  /** A defined structure is never overwritten: later structure, stub or `Install2`
      installs under its ID leave the table unchanged. */
  lemma DefinedStructureIsFinal(t: Table, id: ID, s: Symbol, name: string, ct: ClassType)
    requires id in t.byID && t.byID[id].kind.StructureKind? && !IsUndefinedStructure(t.byID[id])
    requires s.kind.StructureKind? && ct != ClassType.Undefined
    ensures InstallStructure(t, id, s).table == t
    ensures Install2(t, id, s).table == t
    ensures InstallStub(t, id, name, ct).table == t
  {
  }

  /** Installing a defined structure twice is installing it once. */
  lemma InstallStructureIdempotent(t: Table, id: ID, s: Symbol)
    requires s.kind.StructureKind? && !IsUndefinedStructure(s)
    ensures var once := InstallStructure(t, id, s).table;
      InstallStructure(once, id, s).table == once
  {
  }

  /** ... but not an `Undefined` one with a known access specifier: the second install
      overwrites the copy (which lost the access) by assignment, which restores it. */
  lemma InstallUndefinedStructureTwice(t: Table, id: ID, s: Symbol)
    requires id !in t.byID && IsUndefinedStructure(s) && s.access != AccessType.Unknown
    ensures var once := InstallStructure(t, id, s).table;
      InstallStructure(once, id, s).table != once
  {
    var once := InstallStructure(t, id, s).table;
    assert once.byID[id].access == AccessType.Unknown;
    assert InstallStructure(once, id, s).table.byID[id].access == s.access;
  }

  /** A full structure install returns a structure exactly when the ID was absent or already
      held one; a record of another kind is kept. */
  lemma InstallStructureTypes(t: Table, id: ID, s: Symbol)
    requires s.kind.StructureKind?
    ensures InstallStructure(t, id, s).symbol.kind.StructureKind?
         <==> id !in t.byID || t.byID[id].kind.StructureKind?
  {
  }

  /** Installs of distinct IDs commute. */
  lemma InstallFirstCommutes(t: Table, a: ID, x: Symbol, b: ID, y: Symbol)
    requires a != b
    ensures InstallFirst(InstallFirst(t, a, x).table, b, y).table
         == InstallFirst(InstallFirst(t, b, y).table, a, x).table
  {
    var l := InstallFirst(InstallFirst(t, a, x).table, b, y).table;
    var r := InstallFirst(InstallFirst(t, b, y).table, a, x).table;
    assert l.byID == r.byID;
  }

  lemma Install2Commutes(t: Table, a: ID, x: Symbol, b: ID, y: Symbol)
    requires a != b && x.kind.StructureKind? && y.kind.StructureKind?
    ensures Install2(Install2(t, a, x).table, b, y).table
         == Install2(Install2(t, b, y).table, a, x).table
  {
    var l := Install2(Install2(t, a, x).table, b, y).table;
    var r := Install2(Install2(t, b, y).table, a, x).table;
    assert l.byID == r.byID;
  }

  /** Installing references in any order records the same set of IDs, each once. */
  lemma {:induction false} InstallRefsSet(refs: Refs, ids: seq<ID>)
    requires Distinct(refs)
    ensures var r := InstallRefs(refs, ids);
      Distinct(r) && forall k :: k in r <==> k in refs || k in ids
    decreases |ids|
  {
    if |ids| > 0 {
      InstallRefsSet(refs, ids[..|ids| - 1]);
    }
  }

  /** A sequence of reference installs, in order. */
  function InstallRefs(refs: Refs, ids: seq<ID>): (r: Refs)
    ensures |r| <= |refs| + |ids|
    ensures refs <= r
    decreases |ids|
  {
    if |ids| == 0 then refs else InstallRef(InstallRefs(refs, ids[..|ids| - 1]), ids[|ids| - 1])
  }

  // ----- the nested tables of a record -----------------------------------------------------

  /** `Structure::InstallMethod`: only the methods table changes, as `InstallMethod` says. */
  function StructureInstallMethod(s: Symbol, id: ID, m: Symbol): (r: Symbol)
    requires s.kind.StructureKind? && m.kind.MethodKind?
    ensures r.kind.StructureKind?
    ensures r.kind.methods == InstallMethod(s.kind.methods, id, m).table
    ensures r.(kind := r.kind.(methods := s.kind.methods)) == s
  {
    s.(kind := s.kind.(methods := InstallMethod(s.kind.methods, id, m).table))
  }

  /** `Structure::InstallField`. */
  function StructureInstallField(s: Symbol, id: ID, d: Symbol): (r: Symbol)
    requires s.kind.StructureKind? && d.kind.DefinitionKind?
    ensures r.kind.StructureKind?
    ensures r.kind.fields == InstallDefinition(s.kind.fields, id, d).table
    ensures r.(kind := r.kind.(fields := s.kind.fields)) == s
  {
    s.(kind := s.kind.(fields := InstallDefinition(s.kind.fields, id, d).table))
  }

  /** `Structure::InstallBase`. */
  function StructureInstallBase(s: Symbol, id: ID): (r: Symbol)
    requires s.kind.StructureKind?
    ensures r.kind.StructureKind? && r.kind.bases == InstallRef(s.kind.bases, id)
    ensures r.(kind := r.kind.(bases := s.kind.bases)) == s
  {
    s.(kind := s.kind.(bases := InstallRef(s.kind.bases, id)))
  }

  /** `Structure::InstallNestedClass`. */
  function StructureInstallNestedClass(s: Symbol, id: ID): (r: Symbol)
    requires s.kind.StructureKind?
    ensures r.kind.StructureKind? && r.kind.contains == InstallRef(s.kind.contains, id)
    ensures r.(kind := r.kind.(contains := s.kind.contains)) == s
  {
    s.(kind := s.kind.(contains := InstallRef(s.kind.contains, id)))
  }

  /** `Structure::InstallFriend`. */
  function StructureInstallFriend(s: Symbol, id: ID): (r: Symbol)
    requires s.kind.StructureKind?
    ensures r.kind.StructureKind? && r.kind.friends == InstallRef(s.kind.friends, id)
    ensures r.(kind := r.kind.(friends := s.kind.friends)) == s
  {
    s.(kind := s.kind.(friends := InstallRef(s.kind.friends, id)))
  }

  /** `InstallTemplateSpecializationArgument` of a structure or a method. */
  function InstallTemplateArgument(s: Symbol, id: ID): (r: Symbol)
    requires s.kind.StructureKind? || s.kind.MethodKind?
    ensures r.kind.StructureKind? == s.kind.StructureKind? && r.kind.MethodKind? == s.kind.MethodKind?
    ensures r.kind.templateArgs == InstallRef(s.kind.templateArgs, id)
    ensures r.(kind := r.kind.(templateArgs := s.kind.templateArgs)) == s
  {
    s.(kind := s.kind.(templateArgs := InstallRef(s.kind.templateArgs, id)))
  }

  /** `Method::InstallArg`. */
  function MethodInstallArg(s: Symbol, id: ID, d: Symbol): (r: Symbol)
    requires s.kind.MethodKind? && d.kind.DefinitionKind?
    ensures r.kind.MethodKind?
    ensures r.kind.arguments == InstallDefinition(s.kind.arguments, id, d).table
    ensures r.(kind := r.kind.(arguments := s.kind.arguments)) == s
  {
    s.(kind := s.kind.(arguments := InstallDefinition(s.kind.arguments, id, d).table))
  }

  /** `Method::InstallDefinition`. */
  function MethodInstallDefinition(s: Symbol, id: ID, d: Symbol): (r: Symbol)
    requires s.kind.MethodKind? && d.kind.DefinitionKind?
    ensures r.kind.MethodKind?
    ensures r.kind.definitions == InstallDefinition(s.kind.definitions, id, d).table
    ensures r.(kind := r.kind.(definitions := s.kind.definitions)) == s
  {
    s.(kind := s.kind.(definitions := InstallDefinition(s.kind.definitions, id, d).table))
  }
}
