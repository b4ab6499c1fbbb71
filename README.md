# Code-Smell-Detector: the symbol table and its incremental import, in Dafny

The dependency miner of Code-Smell-Detector records every C++ structure, method and
definition it meets in an identity-resolving symbol table. Records are stored once under a
string ID. Every relationship is a reference to the stored record: a base class, a nested
class, a friend, a template argument, a field's type or a method's return type. A reference
met before its target is defined installs a placeholder, an `Undefined` structure with no
source location. The full definition later upgrades that placeholder in place, so every
referrer sees it. The table is exported as a JSON document with one object per record that
has a location. The incremental mode reads such a document back into a table and uses a
ledger of source files to skip the files already parsed.

The model has these parts:

- `Symbols` (symbols.dfy): the enumerations and their names, and source locations with their
  comparison operators. It also holds the three record kinds as one `Symbol` datatype, with
  the defaults their constructors produce.
- `Tables` (tables.dfy): every install routine as a function on table values, covering the
  first-wins rule, the upgrade of an `Undefined` structure and `Install2`. It also holds the
  per-record installers for methods, fields, bases, nested classes, friends, template
  arguments, arguments and local definitions. Reference tables keep only the IDs, each once,
  in install order.
- `Store` (store.dfy): the shared table as a class whose methods update it in place. Its
  install methods are proved against `Tables`. The name index is a ghost map.
- `MemberExprs` (members.dfy): how a method merges member-access expressions by start
  location.
- `JsonValues` and `Text` (json.dfy, text.dfy): an already-parsed JSON value and the
  conversions the export and the import use. jsoncpp visits object members in byte-wise key
  order, and the model does the same.
- `Export` (export.dfy): the JSON projection of a table as a function. The exporter loops of
  `AddJsonSymbolTable` and `AddJson*` are proved equal to it.
- `Incremental` (incremental.dfy): the import as functions over a table value. Every error
  the source asserts on becomes an `Err`. The section also holds the ledger functions
  `ImportSources` and `DropParsedFiles`.
- `Importer` (importer.dfy): the import as the source runs it, one helper per installer,
  updating a `Store.SymbolTable` in place. Each helper is proved against the `Incremental`
  function of the same name.
- `RoundTrip` (roundtrip.dfy): exporting a table and importing the document into an empty
  table gives a table with the same export.
  - The round trip holds for every table satisfying `RoundTrips`.
  - A table whose fields lack an access specifier does not read back.

## Model

| member | source | states |
|---|---|---|
| Symbols.Ordinal | GraphGenerator/DependenciesMining/SymbolTable/SymbolTable.h:22-30 | `StructureType` enumerators have the values -1..5, and only `Undefined` is -1 |
| Symbols.Less | GraphGenerator/DependenciesMining/SymbolTable/SymbolTable.cpp:41-48 | `a < b` holds unless `b` is at or before `a` in both line and column; it requires both locations to be in the same file |
| Symbols.LessEq | GraphGenerator/DependenciesMining/SymbolTable/SymbolTable.cpp:50-57 | `a <= b` fails only when `b` is strictly before `a` in both coordinates |
| Symbols.Greater | GraphGenerator/DependenciesMining/SymbolTable/SymbolTable.cpp:59-66 | `a > b` is exactly `b < a` |
| Symbols.GreaterEq | GraphGenerator/DependenciesMining/SymbolTable/SymbolTable.cpp:68-75 | `a >= b` is exactly `b <= a` |
| Symbols.Equal | GraphGenerator/DependenciesMining/SymbolTable/SymbolTable.cpp:77-83 | equal line and column in the same file is equality of the locations |
| Symbols.NotEqual | GraphGenerator/DependenciesMining/SymbolTable/SymbolTable.h:85-87 | `!=` is exactly inequality of the locations |
| Symbols.LessNotAsymmetric | GraphGenerator/DependenciesMining/SymbolTable/SymbolTable.cpp:41-48 | `<` is irreflexive, but two locations can each be before the other |
| Symbols.LessEqNotLessOrEqual | GraphGenerator/DependenciesMining/SymbolTable/SymbolTable.cpp:50-57 | `<=` is total, yet it holds of a pair that is neither `<` nor `==` |
| Symbols.GreaterAllowsEarlierLocation | GraphGenerator/DependenciesMining/SymbolTable/SymbolTable.cpp:59-66 | `>` holds of a location that is lexicographically before the other |
| Symbols.ToString | GraphGenerator/DependenciesMining/SymbolTable/SymbolTable.cpp:19-21 | "file:line:col" can be parsed back into the same location, even when the file name holds colons |
| Symbols.ClassTypeOf | GraphGenerator/DependenciesMining/SymbolTable/SymbolTable.h:47-52 | every record has a defined runtime tag |
| Symbols.NewStructure | GraphGenerator/DependenciesMining/SymbolTable/SymbolTable.h:350-351 | `Structure(id, name)` is an `Undefined` structure with that ID and name, no namespace, no access and no location (line and column -1) |
| Symbols.StructureStub | GraphGenerator/DependenciesMining/SymbolTable/SymbolTable.h:349 | `Structure(id)` is the structure named by its own ID |
| Symbols.EmptyStructure | GraphGenerator/DependenciesMining/SymbolTable/SymbolTable.h:348 | `Structure{}` is the structure with empty ID and name |
| Symbols.NewMethod | GraphGenerator/DependenciesMining/SymbolTable/SymbolTable.h:267-283 | `Method(id, name)` has all counters 0, type `Undefined`, no return type, no member expressions and empty argument and definition tables |
| Symbols.EmptyMethod | GraphGenerator/DependenciesMining/SymbolTable/SymbolTable.h:282 | `Method{}` is the method with empty ID and name |
| Symbols.NewDefinition | GraphGenerator/DependenciesMining/SymbolTable/SymbolTable.h:199-207 | `Definition(id, name)` has no structured type and an empty full type |
| Symbols.EmptyDefinition | GraphGenerator/DependenciesMining/SymbolTable/SymbolTable.h:205 | `Definition{}` is the definition with empty ID and name |
| Symbols.ConstructorsMakeStubs | GraphGenerator/DependenciesMining/SymbolTable/SymbolTable.h:61-68 | a record built without source information has the empty file name that marks a stub |
| Symbols.IsTemplate | GraphGenerator/DependenciesMining/SymbolTable/SymbolTable.cpp:631-635 | the enumerator range the source tests is exactly the four template kinds |
| Symbols.MethodFamilies | GraphGenerator/DependenciesMining/SymbolTable/SymbolTable.cpp:374-423 | each defined method type is in exactly one of the families constructor, destructor, operator, user method and template; trivial ones are special members |
| Symbols.StructureTypeAsString | GraphGenerator/DependenciesMining/SymbolTable/SymbolTable.cpp:510-532 | the name is "Undefined" exactly for `Undefined` |
| Symbols.MethodTypeAsString | GraphGenerator/DependenciesMining/SymbolTable/SymbolTable.cpp:213-249 | only defined method types have a name, and the name is not empty |
| Symbols.ClassTypeAsString | GraphGenerator/DependenciesMining/SymbolTable/SymbolTable.cpp:99-113 | only the defined tags have a name: "Structure", "Method" or "Definition" |
| Symbols.AccessTypeStr | GraphGenerator/DependenciesMining/SymbolTable/SymbolTable.cpp:123-134 | the name is "unknown" exactly for an unknown access |
| Symbols.EnumeratorNamesDistinct | GraphGenerator/DependenciesMining/SymbolTable/SymbolTable.cpp:99-134 | distinct enumerators of each enumeration have distinct names |
| Tables.Lookup | GraphGenerator/DependenciesMining/SymbolTable/SymbolTable.cpp:787-801 | the stored record; null exactly when the ID is absent |
| Tables.IsEmpty | GraphGenerator/DependenciesMining/SymbolTable/SymbolTable.h:135-136 | a table is empty exactly when its size is 0 |
| Tables.CopyStructure | GraphGenerator/DependenciesMining/SymbolTable/SymbolTable.cpp:489-504 | the copy constructor copies every field but the access specifier |
| Tables.InstallStub | GraphGenerator/DependenciesMining/SymbolTable/SymbolTable.cpp:651-675 | first wins. A new ID gets a record of the requested kind with that name and no location; for a structure it is `Undefined`. Nothing else changes |
| Tables.InstallStructure | GraphGenerator/DependenciesMining/SymbolTable/SymbolTable.cpp:699-719 | a new ID stores a copy. An `Undefined` record is overwritten by assignment. Any other existing record is kept |
| Tables.Install2 | GraphGenerator/DependenciesMining/SymbolTable/SymbolTable.cpp:721-736 | never modifies an existing entry; a new ID stores a copy |
| Tables.InstallFirst | GraphGenerator/DependenciesMining/SymbolTable/SymbolTable.cpp:738-767 | first wins; a new ID stores the record; nothing else changes |
| Tables.InstallMethod | GraphGenerator/DependenciesMining/SymbolTable/SymbolTable.cpp:738-751 | first wins for methods |
| Tables.InstallDefinition | GraphGenerator/DependenciesMining/SymbolTable/SymbolTable.cpp:753-767 | first wins for definitions |
| Tables.InstallRef | GraphGenerator/DependenciesMining/SymbolTable/SymbolTable.cpp:769-785 | `Install(id, Symbol*)`, which `InstallBase`, `InstallNestedClass`, `InstallFriend` and `InstallTemplateSpecializationArgument` call, as seen in a reference table: the ID is added only if absent, at the end, and the table stays duplicate-free |
| Tables.InstallRefs | GraphGenerator/Incremental/Incremental.cpp:106-116 | a sequence of reference installs only extends the table, by at most one entry per ID |
| Tables.LookupAfterInstall | GraphGenerator/DependenciesMining/SymbolTable/SymbolTable.cpp:787-801 | after any install, `Lookup` finds the returned record, the size grows by one exactly for a new ID, and other lookups are unchanged |
| Tables.StubThenFullInstall | GraphGenerator/DependenciesMining/SymbolTable/SymbolTable.cpp:699-719 | a placeholder followed by a full structure install stores the full structure under the same ID |
| Tables.DefinedStructureIsFinal | GraphGenerator/DependenciesMining/SymbolTable/SymbolTable.cpp:699-736 | once a structure is defined, no structure, `Install2` or placeholder install under its ID changes the table |
| Tables.InstallStructureIdempotent | GraphGenerator/DependenciesMining/SymbolTable/SymbolTable.cpp:699-719 | installing a defined structure twice is installing it once |
| Tables.InstallUndefinedStructureTwice | GraphGenerator/DependenciesMining/SymbolTable/SymbolTable.cpp:699-719 | installing an `Undefined` structure with a known access twice is not idempotent: the copy lost the access, and the assignment restores it |
| Tables.InstallStructureTypes | GraphGenerator/DependenciesMining/SymbolTable/SymbolTable.cpp:699-719 | the install returns a structure exactly when the ID was absent or already held a structure |
| Tables.InstallFirstCommutes | GraphGenerator/DependenciesMining/SymbolTable/SymbolTable.cpp:738-767 | first-wins installs of distinct IDs commute |
| Tables.Install2Commutes | GraphGenerator/DependenciesMining/SymbolTable/SymbolTable.cpp:721-736 | `Install2` of distinct IDs commute |
| Tables.InstallRefsSet | GraphGenerator/DependenciesMining/SymbolTable/SymbolTable.cpp:769-785 | a run of `Install(id, Symbol*)` calls on a reference table records exactly the IDs installed, each once |
| Tables.StructureInstallMethod | GraphGenerator/DependenciesMining/SymbolTable/SymbolTable.cpp:583-585 | only the methods table changes, by a first-wins install |
| Tables.StructureInstallField | GraphGenerator/DependenciesMining/SymbolTable/SymbolTable.cpp:587-589 | only the fields table changes, by a first-wins install |
| Tables.StructureInstallBase | GraphGenerator/DependenciesMining/SymbolTable/SymbolTable.cpp:591-593 | only the bases change, by a reference install |
| Tables.StructureInstallNestedClass | GraphGenerator/DependenciesMining/SymbolTable/SymbolTable.cpp:595-597 | only the nested classes change, by a reference install |
| Tables.StructureInstallFriend | GraphGenerator/DependenciesMining/SymbolTable/SymbolTable.cpp:599-601 | only the friends change, by a reference install |
| Tables.InstallTemplateArgument | GraphGenerator/DependenciesMining/SymbolTable/SymbolTable.cpp:603-605 | only the template arguments of a structure or a method change, by a reference install |
| Tables.MethodInstallArg | GraphGenerator/DependenciesMining/SymbolTable/SymbolTable.cpp:335-337 | only the arguments table changes, by a first-wins install |
| Tables.MethodInstallDefinition | GraphGenerator/DependenciesMining/SymbolTable/SymbolTable.cpp:339-341 | only the local definitions change, by a first-wins install |
| Store.SymbolTable.constructor | GraphGenerator/DependenciesMining/SymbolTable/SymbolTable.h:128-131 | a new table is empty |
| Store.SymbolTable.IsEmpty | GraphGenerator/DependenciesMining/SymbolTable/SymbolTable.h:135 | empty exactly when no ID is stored |
| Store.SymbolTable.GetSize | GraphGenerator/DependenciesMining/SymbolTable/SymbolTable.h:136 | the number of stored IDs; 0 exactly when empty |
| Store.SymbolTable.Lookup | GraphGenerator/DependenciesMining/SymbolTable/SymbolTable.cpp:787-793 | the stored record, or none |
| Store.SymbolTable.Insert | GraphGenerator/DependenciesMining/SymbolTable/SymbolTable.cpp:732-733 | a new ID is stored and indexed once under its name |
| Store.SymbolTable.InstallStub | GraphGenerator/DependenciesMining/SymbolTable/SymbolTable.cpp:651-675 | the new state and the returned record are those of `Tables.InstallStub`; only a new ID is indexed by name |
| Store.SymbolTable.InstallStructure | GraphGenerator/DependenciesMining/SymbolTable/SymbolTable.cpp:699-719 | as `Tables.InstallStructure`; an upgrade does not re-index the name |
| Store.SymbolTable.Install2 | GraphGenerator/DependenciesMining/SymbolTable/SymbolTable.cpp:721-736 | as `Tables.Install2` |
| Store.SymbolTable.InstallMethod | GraphGenerator/DependenciesMining/SymbolTable/SymbolTable.cpp:738-751 | as `Tables.InstallMethod` |
| Store.SymbolTable.InstallDefinition | GraphGenerator/DependenciesMining/SymbolTable/SymbolTable.cpp:753-767 | as `Tables.InstallDefinition` |
| Store.SymbolTable.Replace | GraphGenerator/Incremental/Incremental.cpp:241-257 | a record the install returned and then updated in place: the entry changes and the name index does not |
| MemberExprs.Merge | GraphGenerator/DependenciesMining/SymbolTable/SymbolTable.cpp:362-372 | a new start location stores the expression. Otherwise the text and end are replaced only when the new end is `>` the old one. Other entries are unchanged |
| MemberExprs.UpdateMemberExpr | GraphGenerator/DependenciesMining/SymbolTable/SymbolTable.cpp:362-372 | only the member expressions of the method change, by `Merge` |
| MemberExprs.InsertMemberExpr | GraphGenerator/DependenciesMining/SymbolTable/SymbolTable.cpp:347-360 | merges as `UpdateMemberExpr`, then appends the member to that expression |
| MemberExprs.InsertAppendsOneMember | GraphGenerator/DependenciesMining/SymbolTable/SymbolTable.cpp:483-485 | the expression's members grow by exactly the inserted member, and the end it keeps is the old one or a later one in `<` |
| MemberExprs.MergeIdempotent | GraphGenerator/DependenciesMining/SymbolTable/SymbolTable.cpp:362-372 | merging the same expression twice is merging it once |
| MemberExprs.MergeCanKeepEarlierEnd | GraphGenerator/DependenciesMining/SymbolTable/SymbolTable.cpp:362-372 | because `>` is not lexicographic, a merge can replace the end with a lexicographically earlier one |
| JsonValues.Get | GraphGenerator/Incremental/Incremental.cpp:26-29 | succeeds exactly on an object holding the key, with that member |
| JsonValues.AsString | GraphGenerator/Incremental/Incremental.cpp:44-46 | fails exactly on arrays and objects; a string reads as itself |
| JsonValues.AsInt | GraphGenerator/Incremental/Incremental.cpp:63-67 | succeeds on null, booleans and integers that fit 32 bits; an integer reads as itself |
| JsonValues.AsBool | GraphGenerator/Incremental/Incremental.cpp:71 | fails exactly on strings, arrays and objects; a boolean reads as itself |
| JsonValues.Items | GraphGenerator/Incremental/Incremental.cpp:109-115 | a range-for visits the elements of an array, one value per member of an object, and nothing otherwise |
| JsonValues.MemberValues | GraphGenerator/Incremental/Incremental.cpp:109-115 | the values of the named members, in the given order |
| JsonValues.Entries | GraphGenerator/Incremental/Incremental.cpp:33-38 | `ForEach` visits object members in sorted key order with their names, array elements with the empty name, and nothing otherwise |
| JsonValues.Append | GraphGenerator/DependenciesMining/SymbolTable/SymbolTable.cpp:828-830 | `append` turns null into a one-element array and extends an array by one element |
| Text.IntToString | GraphGenerator/DependenciesMining/SymbolTable/SymbolTable.cpp:19-21 | the decimal text of an integer is non-empty and has no colon |
| Text.ParseIntToString | GraphGenerator/DependenciesMining/SymbolTable/SymbolTable.cpp:19-21 | the decimal text of an integer reads back as that integer |
| Text.SortedKeys | GraphGenerator/Incremental/Incremental.cpp:33-38 | the member names in strictly increasing order, each once |
| Export.IdsJson | GraphGenerator/DependenciesMining/SymbolTable/SymbolTable.cpp:828-839 | null exactly for an empty reference table; otherwise an array of the IDs in order |
| Export.OptionalIdJson | GraphGenerator/DependenciesMining/SymbolTable/SymbolTable.cpp:846-852 | null exactly when there is no target; otherwise the target's ID |
| Export.ReturnTypeJson | GraphGenerator/DependenciesMining/SymbolTable/SymbolTable.cpp:863-868 | "void" exactly when there is no return type or the return type's ID is "void" |
| Export.Visible | GraphGenerator/DependenciesMining/SymbolTable/SymbolTable.cpp:918-919 | the exported IDs are exactly the records with a file name |
| Export.StructureObjectMembers | GraphGenerator/DependenciesMining/SymbolTable/SymbolTable.cpp:825-856 | the structure object holds "methods", "fields", "bases", "contains", "friends" and "template_args" as given |
| Export.StructureObjectEnvelope | GraphGenerator/DependenciesMining/SymbolTable/SymbolTable.cpp:841-858 | the structure object holds "src_info", "namespace", "structure_type", "template_parent", "nested_parent" and "name" as given |
| Export.MethodObjectTypes | GraphGenerator/DependenciesMining/SymbolTable/SymbolTable.cpp:863-877 | the method object holds "ret_type", "args", "definitions" and "template_args" as given |
| Export.MethodObjectCounters | GraphGenerator/DependenciesMining/SymbolTable/SymbolTable.cpp:879-885 | the method object holds the counters as given |
| Export.MethodObjectEnvelope | GraphGenerator/DependenciesMining/SymbolTable/SymbolTable.cpp:883-891 | the method object holds "src_info", "access", "virtual", "method_type" and "name" as given |
| Export.ExportEntries | GraphGenerator/DependenciesMining/SymbolTable/SymbolTable.cpp:913-938 | the export has one member per record with a file name, keyed by its ID and holding its object, and is null when there is none |
| Export.StubsAreInvisible | GraphGenerator/DependenciesMining/SymbolTable/SymbolTable.cpp:918-919 | adding or replacing a stub leaves the export unchanged |
| Export.ReturnTypeVoid | GraphGenerator/DependenciesMining/SymbolTable/SymbolTable.cpp:863-868 | "ret_type" is "void" exactly when there is no return type or it is the record "void"; otherwise it is the return type's ID |
| Export.VoidIsAmbiguous | GraphGenerator/DependenciesMining/SymbolTable/SymbolTable.cpp:863-868 | a method without a return type and the same method returning the record "void" have the same export |
| Export.DefinitionOptionalKeys | GraphGenerator/DependenciesMining/SymbolTable/SymbolTable.cpp:896-911 | "access" is present exactly when the access is known; "type" is null exactly when there is no structured type |
| Export.StructureOptionalKeys | GraphGenerator/DependenciesMining/SymbolTable/SymbolTable.cpp:822-859 | the parents are null exactly when absent; the relationship lists and nested tables are null exactly when empty |
| Export.ExportedSoFarStep | GraphGenerator/DependenciesMining/SymbolTable/SymbolTable.cpp:915-937 | one loop iteration adds the visited record's member when it has a file name and changes nothing otherwise |
| Export.ExportedSoFarAll | GraphGenerator/DependenciesMining/SymbolTable/SymbolTable.cpp:913-938 | after every ID is visited, in any order, the result is the export |
| Export.AddJsonSymbolTable | GraphGenerator/DependenciesMining/SymbolTable/SymbolTable.cpp:913-938 | the loop, visiting records in an unspecified order, produces the export |
| Export.AddJsonMember | GraphGenerator/DependenciesMining/SymbolTable/SymbolTable.cpp:915-937 | one iteration extends the members written so far by the visited ID |
| Export.AddJsonSymbol | GraphGenerator/DependenciesMining/SymbolTable/SymbolTable.cpp:921-934 | dispatches on the record kind to the export of that kind |
| Export.AppendIds | GraphGenerator/DependenciesMining/SymbolTable/SymbolTable.cpp:828-839 | `Put`, then one `append` per ID, produces the reference list's export |
| Export.AddJsonStructure | GraphGenerator/DependenciesMining/SymbolTable/SymbolTable.cpp:822-859 | the statements build the structure's export |
| Export.AddJsonMethod | GraphGenerator/DependenciesMining/SymbolTable/SymbolTable.cpp:861-894 | the statements build the method's export |
| Export.AddJsonDefinition | GraphGenerator/DependenciesMining/SymbolTable/SymbolTable.cpp:896-911 | the statements build the definition's export |
| Incremental.ToAccessType | GraphGenerator/Incremental/Incremental.cpp:57 | an access specifier read back is one whose name is the text |
| Incremental.ToMethodType | GraphGenerator/Incremental/Incremental.cpp:72 | a method type read back is defined, and its name is the text |
| Incremental.ToStructureType | GraphGenerator/Incremental/Incremental.cpp:79 | a structure type read back is one whose name is the text |
| Incremental.AccessTypeReadBack | GraphGenerator/Incremental/Incremental.cpp:57 | every access specifier's name reads back as itself |
| Incremental.MethodTypeReadBack | GraphGenerator/Incremental/Incremental.cpp:72 | every defined method type's name reads back as itself |
| Incremental.StructureTypeReadBack | GraphGenerator/Incremental/Incremental.cpp:79 | every structure type's name reads back as itself |
| Incremental.AddStubs | GraphGenerator/Incremental/Incremental.cpp:101 | adding placeholders for a set of IDs keeps every existing entry and puts `Structure(id)` under each new ID |
| Incremental.InstallDependencyIsStub | GraphGenerator/Incremental/Incremental.cpp:88-103 | `Install2(id, Structure{ id })` adds a placeholder exactly when the ID is absent, and returns the stored record |
| Incremental.AddStubsCompose | GraphGenerator/Incremental/Incremental.cpp:106-116 | adding two sets of placeholders in turn is adding their union |
| Incremental.AddStubsNone | GraphGenerator/Incremental/Incremental.cpp:106-116 | adding no placeholder changes nothing |
| Incremental.Names | GraphGenerator/Incremental/Incremental.cpp:33-38 | the names `ForEach` visits |
| Incremental.GetInt | GraphGenerator/Incremental/Incremental.cpp:63-70 | a counter is read only from an object holding the key |
| Incremental.ImportSrcInfo | GraphGenerator/Incremental/Incremental.cpp:44-46 | a location is read only from an object holding "file", "line" and "col" |
| Incremental.ImportDependency | GraphGenerator/Incremental/Incremental.cpp:88-103 | succeeds exactly on null, which means no target, or on a string |
| Incremental.ImportDependencies | GraphGenerator/Incremental/Incremental.cpp:106-116 | succeeds exactly when every element is a string, and gives those strings in order |
| Incremental.DeserializeDefinition | GraphGenerator/Incremental/Incremental.cpp:48-58 | the definition gets the key's ID. "access" is required only for fields; otherwise the access is untouched |
| Incremental.ImportDefinition | GraphGenerator/Incremental/Incremental.cpp:130-182 | the definition gets the owner's namespace, and its type is the only dependency it installs |
| Incremental.DefinitionStep | GraphGenerator/Incremental/Incremental.cpp:130-182 | one `ForEach` iteration adds the key and leaves every other entry alone |
| Incremental.ImportDefinitions | GraphGenerator/Incremental/Incremental.cpp:130-182 | the table gains exactly the keys of the JSON object |
| Incremental.DeserializeMethod | GraphGenerator/Incremental/Incremental.cpp:60-73 | the method gets the key's ID and a defined method type |
| Incremental.ImportReturnType | GraphGenerator/Incremental/Incremental.cpp:145-152 | "ret_type" must be a string; "void" means no return type |
| Incremental.ImportMethod | GraphGenerator/Incremental/Incremental.cpp:198-212 | the method gets the owner's namespace, and its return type is among the dependencies installed |
| Incremental.MethodStep | GraphGenerator/Incremental/Incremental.cpp:198-212 | one `ForEach` iteration adds the key and leaves every other entry alone |
| Incremental.ImportMethods | GraphGenerator/Incremental/Incremental.cpp:198-212 | the table gains exactly the keys of the JSON object |
| Incremental.DeserializeStructure | GraphGenerator/Incremental/Incremental.cpp:75-81 | only the ID, name, namespace, type and location change; the access and relationships are kept |
| Incremental.ImportStructureRecord | GraphGenerator/Incremental/Incremental.cpp:241-257 | the filled record is a structure with the key's ID, and its parents are among the dependencies installed |
| Incremental.ImportRelations | GraphGenerator/Incremental/Incremental.cpp:247-254 | the relationships fill a structure with the same ID, and its parents are among the dependencies installed |
| Incremental.ImportStructure | GraphGenerator/Incremental/Incremental.cpp:241-257 | the ID holds a structure with that ID. Other entries are kept, and every new one is a placeholder |
| Incremental.ImportAfterReference | GraphGenerator/Incremental/Incremental.cpp:241-242 | importing a structure that was first met as a reference gives what importing it fresh gives |
| Incremental.OverwrittenStub | GraphGenerator/Incremental/Incremental.cpp:241-257 | a placeholder under an ID that is later overwritten leaves no trace |
| Incremental.ImportStructures | GraphGenerator/Incremental/Incremental.cpp:259-263 | the table only grows; the order of the entries does not matter (`ImportStructuresAnyOrder`) |
| Incremental.ImportST | GraphGenerator/Incremental/Incremental.cpp:275-281 | the document must have "structures"; the table only grows |
| Incremental.NamesMember | GraphGenerator/Incremental/Incremental.cpp:33-38 | a name is visited exactly when some entry carries it |
| Incremental.StartOf | GraphGenerator/Incremental/Incremental.cpp:242 | an ID without a record starts from `Structure{}` |
| Incremental.RecordOf | GraphGenerator/Incremental/Incremental.cpp:241-257 | an entry read against a table fills the record found under its ID, or `Structure{}`; it fails on a record of another kind |
| Incremental.EntryMap | GraphGenerator/Incremental/Incremental.cpp:259-263 | the entries as a map, keyed by exactly the names visited |
| Incremental.Records | GraphGenerator/Incremental/Incremental.cpp:259-263 | the records the entries build, one per name |
| Incremental.RebuiltUnique | GraphGenerator/Incremental/Incremental.cpp:259-263 | the table the import of a set of records leaves is determined by the records |
| Incremental.StubFillsLikeEmpty | GraphGenerator/Incremental/Incremental.cpp:241-245 | a dependency placeholder and `Structure{}` fill in alike, because the import overwrites everything they differ in |
| Incremental.StartInRebuilt | GraphGenerator/Incremental/Incremental.cpp:242 | partway through the import, the record under an ID not yet read is the one the import started from, or a placeholder |
| Incremental.ImportStep | GraphGenerator/Incremental/Incremental.cpp:241-257 | an entry read after others that do not name it reads as if it came first, and fails exactly when it would |
| Incremental.ImportStructuresImported | GraphGenerator/Incremental/Incremental.cpp:259-263 | on distinct names, the fold succeeds exactly when every entry reads, and gives the table determined by the entries' records |
| Incremental.EntryMapPermutation | GraphGenerator/Incremental/Incremental.cpp:259-263 | two orders of the same entries with distinct names give the same map |
| Incremental.DistinctPermutation | GraphGenerator/Incremental/Incremental.cpp:259-263 | reordering entries keeps their names distinct |
| Incremental.ImportStructuresAnyOrder | GraphGenerator/Incremental/Incremental.cpp:259-263 | any reordering of entries with distinct names succeeds exactly when the original does, and gives the same table |
| Incremental.ImportStructureCommutes | GraphGenerator/Incremental/Incremental.cpp:259-263 | two entries with different names, read in either order, both succeed or both fail, and give the same table |
| Incremental.ObjectEntriesDistinct | GraphGenerator/Incremental/Incremental.cpp:259-263 | the members `ForEach` visits in a JSON object have distinct names |
| Incremental.ImportSTAnyOrder | GraphGenerator/Incremental/Incremental.cpp:275-281 | `ImportST` gives what reading the structures in any other order gives |
| Incremental.DefinitionsFailOnPrefix | GraphGenerator/Incremental/Incremental.cpp:130-182 | a failure among the first entries fails the whole import |
| Incremental.MethodsFailOnPrefix | GraphGenerator/Incremental/Incremental.cpp:198-212 | a failure among the first entries fails the whole import |
| Incremental.StructuresFailOnPrefix | GraphGenerator/Incremental/Incremental.cpp:259-263 | a failure among the first entries fails the whole import |
| Incremental.DefinitionsFailAt | GraphGenerator/Incremental/Incremental.cpp:130-143 | an entry that fails wherever it is reached fails the whole import |
| Incremental.StructuresFailAt | GraphGenerator/Incremental/Incremental.cpp:259-263 | an entry that fails wherever it is reached fails the whole import |
| Incremental.Strings | GraphGenerator/Incremental/Incremental.cpp:291-294 | succeeds exactly when every element is a string, and gives them in order |
| Incremental.ImportSources | GraphGenerator/Incremental/Incremental.cpp:283-298 | succeeds exactly when "sources" is an array of strings |
| Incremental.DropParsedFiles | GraphGenerator/Incremental/Incremental.cpp:300-305 | no cached files keeps every source; otherwise the sources from the last cached one's position on |
| Incremental.DropParsedFilesDelta | GraphGenerator/Incremental/Incremental.cpp:300-305 | when the ledger is a prefix of distinct sources, the result is the last cached file followed by the new ones |
| Incremental.DropParsedFilesExample | GraphGenerator/Incremental/Incremental.cpp:300-305 | with sources a, b, c, d and cached a, b, c the result is c, d |
| Importer.DependenciesStep | GraphGenerator/Incremental/Incremental.cpp:109-115 | one more string element extends the IDs read so far |
| Importer.StubsOfOneMore | GraphGenerator/Incremental/Incremental.cpp:109-115 | one more placeholder extends the placeholders added so far |
| Importer.StubNames | GraphGenerator/DependenciesMining/SymbolTable/SymbolTable.cpp:721-736 | placeholders installed through `Install2` join the name index under their own IDs |
| Importer.StubNamesOne | GraphGenerator/DependenciesMining/SymbolTable/SymbolTable.cpp:721-736 | one placeholder is indexed only when its ID is new |
| Importer.StubNamesCompose | GraphGenerator/Incremental/Incremental.cpp:109-115 | the name entries of two runs of placeholders are those of their union |
| Importer.NamesOfOneMore | GraphGenerator/Incremental/Incremental.cpp:109-115 | one more placeholder extends the name entries added so far |
| Importer.StubNamesFiled | GraphGenerator/DependenciesMining/SymbolTable/SymbolTable.cpp:721-736 | placeholders keep every existing name entry |
| Importer.CreatedNames | GraphGenerator/Incremental/Incremental.cpp:242 | `Install2(id, Structure{})` files a created record under "", and its placeholders follow under their own IDs |
| Importer.NamesFiledTrans | GraphGenerator/Incremental/Incremental.cpp:259-263 | what the successive imports do to the name index composes |
| Importer.NamesFiledStep | GraphGenerator/Incremental/Incremental.cpp:259-263 | one more entry of "structures" joins the IDs that may be filed under "" |
| Importer.InstallDependency | GraphGenerator/Incremental/Incremental.cpp:88-103 | fails exactly as `ImportDependency`; the table gains a placeholder for the target, filed in the name index under its own ID |
| Importer.InstallDependencies | GraphGenerator/Incremental/Incremental.cpp:106-116 | the loop fails exactly as `ImportDependencies`; the table gains placeholders for the IDs, each filed under its own ID and no other name entry changed |
| Importer.InstallDependencyAt | GraphGenerator/Incremental/Incremental.cpp:110-114 | one loop iteration |
| Importer.InstallMethodReturnType | GraphGenerator/Incremental/Incremental.cpp:145-152 | fails exactly as `ImportReturnType`; the table gains a placeholder for the return type |
| Importer.InstallDefinitionEntry | GraphGenerator/Incremental/Incremental.cpp:131-142 | fails exactly as `DefinitionStep`, and otherwise gives its table and placeholders |
| Importer.InstallDefinitions | GraphGenerator/Incremental/Incremental.cpp:130-182 | the loop fails exactly as `ImportDefinitions`, and otherwise gives its table and placeholders |
| Importer.InstallDefinitionAt | GraphGenerator/Incremental/Incremental.cpp:131-142 | one loop iteration |
| Importer.InstallMethodEntry | GraphGenerator/Incremental/Incremental.cpp:199-211 | fails exactly as `MethodStep`, and otherwise gives its table and placeholders |
| Importer.InstallMethods | GraphGenerator/Incremental/Incremental.cpp:198-212 | the loop fails exactly as `ImportMethods`, and otherwise gives its table and placeholders |
| Importer.InstallMethodAt | GraphGenerator/Incremental/Incremental.cpp:199-211 | one loop iteration |
| Importer.FillStructure | GraphGenerator/Incremental/Incremental.cpp:245-254 | fails exactly as `ImportStructureRecord`, and otherwise gives its record and placeholders |
| Importer.ImportStructure | GraphGenerator/Incremental/Incremental.cpp:241-257 | the shared table after the import is `Incremental.ImportStructure` of the old one, and the call fails exactly when that does. Existing name entries stay, a record it creates is filed under "", and a placeholder under its own ID |
| Importer.ImportStructureAt | GraphGenerator/Incremental/Incremental.cpp:260-262 | one loop iteration |
| Importer.ImportStructures | GraphGenerator/Incremental/Incremental.cpp:259-263 | the loop gives `Incremental.ImportStructures` of the old table over the entries `ForEach` visits. Existing name entries stay, and each new ID is filed under itself or, for an entry, possibly under "" |
| Importer.ImportST | GraphGenerator/Incremental/Incremental.cpp:275-281 | the shared table after the import is `Incremental.ImportST` of the old one |
| Importer.ImportSources | GraphGenerator/Incremental/Incremental.cpp:283-298 | the loop computes `Incremental.ImportSources` |
| RoundTrip.SourceInfoRoundTrip | GraphGenerator/Incremental/Incremental.cpp:44-46 | the import reads back the location `GetJsonSourceInfo` writes |
| RoundTrip.DependencyRoundTrip | GraphGenerator/Incremental/Incremental.cpp:88-103 | an optional reference reads back as written |
| RoundTrip.DependenciesRoundTrip | GraphGenerator/Incremental/Incremental.cpp:106-116 | a reference list reads back as written |
| RoundTrip.InstallDistinctRefs | GraphGenerator/Incremental/Incremental.cpp:106-116 | installing duplicate-free references into an empty table gives them back in order |
| RoundTrip.EntriesOfExport | GraphGenerator/Incremental/Incremental.cpp:259-263 | the entries of an export are the exported records, each once, under their IDs |
| RoundTrip.EntriesPrefix | GraphGenerator/Incremental/Incremental.cpp:259-263 | a prefix of the export's entries is again entries of the export |
| RoundTrip.NextNameIsNew | GraphGenerator/Incremental/Incremental.cpp:259-263 | the next entry's name was not visited before |
| RoundTrip.SameExport | GraphGenerator/DependenciesMining/SymbolTable/SymbolTable.cpp:913-938 | a table whose records are placeholders, or agree with another table's records under the same ID and cover them, has the same export |
| RoundTrip.DeserializeDefinitionReadBack | GraphGenerator/Incremental/Incremental.cpp:48-58 | a definition's export fills the envelope it was written from |
| RoundTrip.DefinitionReadBack | GraphGenerator/Incremental/Incremental.cpp:130-182 | a definition read back from its export has the same export |
| RoundTrip.DefinitionStepReadBack | GraphGenerator/Incremental/Incremental.cpp:131-142 | one iteration over an exported definition reads it back |
| RoundTrip.DefinitionsFold | GraphGenerator/Incremental/Incremental.cpp:130-182 | reading exported definitions gives exactly their names, each agreeing with its original |
| RoundTrip.DefinitionsReadBack | GraphGenerator/Incremental/Incremental.cpp:130-182 | a table of definitions read back has the same export |
| RoundTrip.DeserializeMethodFrom | GraphGenerator/Incremental/Incremental.cpp:60-73 | a method's export fills the envelope and counters it was written from |
| RoundTrip.MethodReadBack | GraphGenerator/Incremental/Incremental.cpp:198-212 | a method read back from its export has the same export |
| RoundTrip.MethodStepReadBack | GraphGenerator/Incremental/Incremental.cpp:199-211 | one iteration over an exported method reads it back |
| RoundTrip.MethodsFold | GraphGenerator/Incremental/Incremental.cpp:198-212 | reading exported methods gives exactly their names, each agreeing with its original |
| RoundTrip.MethodsReadBack | GraphGenerator/Incremental/Incremental.cpp:198-212 | a table of methods read back has the same export |
| RoundTrip.DeserializeStructureFrom | GraphGenerator/Incremental/Incremental.cpp:75-81 | a structure's export fills the envelope it was written from, in whatever record it fills |
| RoundTrip.ExportStructureLookups | GraphGenerator/DependenciesMining/SymbolTable/SymbolTable.cpp:822-859 | a structure's export holds every key the import reads, with the value written from the record |
| RoundTrip.RelationsFrom | GraphGenerator/Incremental/Incremental.cpp:247-254 | with the fields and methods already read, the reference lists and parents come back as written and the rest of the record is untouched |
| RoundTrip.RelationsReadBack | GraphGenerator/Incremental/Incremental.cpp:247-254 | read into a record that has none yet, the reference lists and parents come back as written and the fields and methods with the same export; the rest of the record is untouched |
| RoundTrip.StructureRecordReadBack | GraphGenerator/Incremental/Incremental.cpp:245-254 | a structure's export fills the record with the same envelope, references, parents and nested exports |
| RoundTrip.SameStructureExport | GraphGenerator/DependenciesMining/SymbolTable/SymbolTable.cpp:822-859 | structures that agree on the envelope, the references, the parents and the export of their nested tables have the same export |
| RoundTrip.StructureReadBack | GraphGenerator/Incremental/Incremental.cpp:241-257 | a structure read back from its export into `Structure{}` has the same export |
| RoundTrip.StructureStepReadBack | GraphGenerator/Incremental/Incremental.cpp:241-257 | a structure read back into a fresh ID or over its own placeholder has the same export |
| RoundTrip.StructuresFold | GraphGenerator/Incremental/Incremental.cpp:259-263 | reading exported structures gives every name, each agreeing with its original; all other IDs are placeholders |
| RoundTrip.ExportImportRoundTrip | GraphGenerator/Tests/Integration/IncrementalTests.cpp:32-46 | importing the export of a table into an empty table succeeds, and the result has the same export |
| RoundTrip.UnknownAccessFieldFails | GraphGenerator/Incremental/Incremental.cpp:55-58 | a field exported without "access" fails to import |
| RoundTrip.UnknownAccessFieldsFail | GraphGenerator/Incremental/Incremental.cpp:130-143 | a table of fields holding one with unknown access fails to import |
| RoundTrip.UnknownAccessStructureFails | GraphGenerator/Incremental/Incremental.cpp:241-257 | a structure with such a field fails to import |
| RoundTrip.UnknownAccessStructuresFail | GraphGenerator/Incremental/Incremental.cpp:259-263 | a document with such a structure fails to import, whatever was read before it |
| RoundTrip.UnknownAccessDocumentFails | GraphGenerator/Incremental/Incremental.cpp:275-281 | `ImportST` of a document with such a structure fails, into any table |

## Left out

- File and stream I/O: `ImportST` and `ImportSources` take the already-parsed document, so `GetArchiveRoot` and the stream assertions are not modelled. Nor are the "Compiled:" log lines of the installs.
- jsoncpp, the converters `ToAccessType`/`ToMethodType`/`ToStructureType` (Converters.h) and `STVisitor` are not part of this model. The conversions follow the JSON value types and the enumerator names.
- `Install(id, const Symbol&)` is not modelled. It slices the record, and the import does not call it.
- `Install(id, Symbol*)` is modelled at the level of IDs by `Tables.InstallRef`, since a reference table holds IDs. The import reaches it through `InstallBase`, `InstallNestedClass`, `InstallFriend` and `InstallTemplateSpecializationArgument`. When the stored record is an `Undefined` structure, it swaps in the new object. That swap is left out because it changes no ID.
- Tables.InstallStructure: a record of another kind stored under the ID is kept and returned unchanged. The source casts it to `Structure*` to read its structure type (GraphGenerator/DependenciesMining/SymbolTable/SymbolTable.cpp:699-711), which is undefined behaviour.
- `Accept` (the visitor walk), `Print2` and the `GetJson*` declarations are not modelled.
- Store.SymbolTable: the name index `byName` is a ghost map from each ID to the name it was first indexed under. The per-name lists of records are not modelled. The source never reads `byName`: the lookup by name is commented out (GraphGenerator/DependenciesMining/SymbolTable/SymbolTable.h:148). The importer methods state what happens to the index when they succeed, and leave it unspecified on failure, as they do the table.
- Aliasing: a relationship is the target's ID, and records are values. An update made in place is modelled as replacing the stored record. `Structure::LookupMethod` is `Tables.Lookup` on the methods table.
- The iteration order of `unordered_map` is unspecified. Reference tables keep install order, and `AddJsonSymbolTable` is proved for every visiting order. The import visits the members of "structures" in key order; `Incremental.ImportStructuresAnyOrder` proves that any other order gives the same table. The name index does depend on the order, since a record created by the import is filed under "" and a placeholder under its own ID.
- The export keys each entry by the table key, where the source uses the record's own ID. Every record the import builds is stored under its own ID.
- Member expressions are neither exported nor imported by the source, so the model does not carry them through JSON.
- `is_virtual` is uninitialised in the source's `Method` constructors. The model gives it `false`.
- The template parent of a method (`Template<Method>`) is never set, exported or imported, and is left out.
- Incremental.ImportStructure: in the source, a record of another kind stored under the ID, cast to `Structure*`, is undefined behaviour. The model returns `Err`. The state of the table after a failed import is unspecified.
- Incremental.DropParsedFiles: `requires |sources| >= |cached|` is the source's own assertion. The model does not say which files the ledger commits or how a checkpoint is written; neither is in the core.
- RoundTrip.ExportImportRoundTrip: the test's `AreEqual` is not part of this model, so the round trip states equality of the exports. It holds under the conditions `RoundTrips` names: every exported record is a structure, reference lists are duplicate-free, fields have a known access and arguments none, and no method returns the record "void".
- DependenciesMining, GraphGeneration and the JavaScript smell detectors are not part of this model.
