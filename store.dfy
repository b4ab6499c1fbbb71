/** The shared symbol table object: records by ID, plus the name index, which is kept here
    only as a ghost map from each ID to the name list it was pushed onto. */
module Store {
  import opened Wrappers
  import opened Symbols
  import Tables

  class SymbolTable {
    var byID: Table
    /** `byName`: every new ID is pushed once, under the name of the record that created it;
        an upgrade in place does not re-index it. */
    ghost var nameOf: map<ID, string>

    ghost predicate Valid()
      reads this
    {
      nameOf.Keys == byID.byID.Keys
    }

    constructor()
      ensures Valid() && byID == EmptyTable && nameOf == map[]
    {
      byID := EmptyTable;
      nameOf := map[];
    }

    function IsEmpty(): (b: bool)
      reads this
      ensures b <==> byID.byID.Keys == {}
    {
      byID.byID == map[]
    }

    function GetSize(): (n: nat)
      reads this
      ensures n == 0 <==> IsEmpty()
      ensures n == |byID.byID.Keys|
    {
      |byID.byID|
    }

    method Lookup(id: ID) returns (r: Option<Symbol>)
      ensures r == Tables.Lookup(byID, id)
    {
      if id in byID.byID {
        r := Some(byID.byID[id]);
      } else {
        r := None;
      }
    }

    /** A new ID is stored and pushed onto the list of `name`. */
    method Insert(id: ID, name: string, s: Symbol)
      requires Valid() && id !in byID.byID
      modifies this
      ensures Valid()
      ensures byID == Table(old(byID).byID[id := s]) && nameOf == old(nameOf)[id := name]
    {
      byID := Table(byID.byID[id := s]);
      nameOf := nameOf[id := name];
    }

    /** `Install(id, name, type)`. */
    method InstallStub(id: ID, name: string, ct: ClassType) returns (s: Symbol)
      requires Valid() && ct != ClassType.Undefined
      modifies this
      ensures Valid()
      ensures Tables.Installed(byID, s) == Tables.InstallStub(old(byID), id, name, ct)
      ensures nameOf == if id in old(byID).byID then old(nameOf) else old(nameOf)[id := name]
    {
      if id in byID.byID {
        return byID.byID[id];
      }
      if ct == ClassType.Structure {
        s := NewStructure(id, name);
      } else if ct == ClassType.Method {
        s := NewMethod(id, name);
      } else {
        s := NewDefinition(id, name);
      }
      Insert(id, name, s);
    }

    /** `Install(id, Structure)`: the upgrade overwrites only an `Undefined` structure and
        leaves the name index alone. */
    method InstallStructure(id: ID, symbol: Symbol) returns (s: Symbol)
      requires Valid() && symbol.kind.StructureKind?
      modifies this
      ensures Valid()
      ensures Tables.Installed(byID, s) == Tables.InstallStructure(old(byID), id, symbol)
      ensures nameOf == if id in old(byID).byID then old(nameOf) else old(nameOf)[id := symbol.name]
    {
      if id in byID.byID {
        if IsUndefinedStructure(byID.byID[id]) {
          byID := Table(byID.byID[id := symbol]);
          return symbol;
        }
        return byID.byID[id];
      }
      s := Tables.CopyStructure(symbol);
      Insert(id, symbol.name, s);
    }

    /** `Install2`: never overwrites. */
    method Install2(id: ID, symbol: Symbol) returns (s: Symbol)
      requires Valid() && symbol.kind.StructureKind?
      modifies this
      ensures Valid()
      ensures Tables.Installed(byID, s) == Tables.Install2(old(byID), id, symbol)
      ensures nameOf == if id in old(byID).byID then old(nameOf) else old(nameOf)[id := symbol.name]
    {
      if id in byID.byID {
        return byID.byID[id];
      }
      s := Tables.CopyStructure(symbol);
      Insert(id, symbol.name, s);
    }

    /** `Install(id, Method)`: first-wins. */
    method InstallMethod(id: ID, symbol: Symbol) returns (s: Symbol)
      requires Valid() && symbol.kind.MethodKind?
      modifies this
      ensures Valid()
      ensures Tables.Installed(byID, s) == Tables.InstallMethod(old(byID), id, symbol)
      ensures nameOf == if id in old(byID).byID then old(nameOf) else old(nameOf)[id := symbol.name]
    {
      if id in byID.byID {
        return byID.byID[id];
      }
      s := symbol;
      Insert(id, symbol.name, s);
    }

    /** `Install(id, Definition)`: first-wins. */
    method InstallDefinition(id: ID, symbol: Symbol) returns (s: Symbol)
      requires Valid() && symbol.kind.DefinitionKind?
      modifies this
      ensures Valid()
      ensures Tables.Installed(byID, s) == Tables.InstallDefinition(old(byID), id, symbol)
      ensures nameOf == if id in old(byID).byID then old(nameOf) else old(nameOf)[id := symbol.name]
    {
      if id in byID.byID {
        return byID.byID[id];
      }
      s := symbol;
      Insert(id, symbol.name, s);
    }

    /** Overwrites the record stored under an existing ID (the setters the importer calls on
        the record `Install2` returned). The name index is not touched. */
    method Replace(id: ID, s: Symbol)
      requires Valid() && id in byID.byID
      modifies this
      ensures Valid()
      ensures byID == Table(old(byID).byID[id := s]) && nameOf == old(nameOf)
    {
      byID := Table(byID.byID[id := s]);
    }
  }
}
