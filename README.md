# Symbol-table builder, modelled in Dafny

`generateSymbolTable.ts` builds a nested symbol table for a TypeScript program.
It starts from a record `{ name: "root", kind: "root", children: [] }` and walks the
syntax tree of every source file that is not a declaration file, in the order the
program lists them. On the way it

- appends a container record (`name`, `kind`, empty `children`) for each class or
  function declaration whose name the type checker resolves, and makes it the
  container for that declaration's subtree;
- for such a function, appends one `Parameter` leaf (`name`, `kind`, `type`) per
  parameter whose name resolves, before anything from the body;
- appends a `VariableDeclaration` leaf (`name`, `kind`, `type`, and `value` = the
  initializer's source text when there is one) for each variable declaration whose
  name resolves;
- visits every child node with the current container, which is a per-call
  parameter: a sibling visited later sees the original container again.

The model has five modules:

- `Syntax` (syntax.dfy): the syntax nodes the walker distinguishes. The compiler
  API is replaced by the answers it gives. Each node carries its resolved name
  (`Option<string>`), its type text, its initializer text and the children
  `ts.forEachChild` yields. A variable declaration has children too: an
  initializer can hold an arrow function whose body declares more variables.
- `Symbols` (symbols.dfy): the two record shapes (`Container`, `Leaf`) and the
  reference definition `SymbolsOf(n)`. It gives the records visiting `n` appends
  to its container, each with everything later attached below it. `FileSymbols`
  and `RootSymbol` give the finished table. Lemmas cover parameter order, sibling
  order, file order and the skipping of declaration files.
- `Scopes` (scopes.dfy): an independent, flat description. `Scoped(n, scope)`
  lists every resolved declaration in depth-first pre-order with the scope path
  of resolved containers around it. The path is extended by value, only when a
  container's name resolves. `OutlineIsScoped` proves that reading the built
  records in pre-order gives exactly this list. So it fixes which nodes become
  records, where each one is attached (scope isolation), and in which order.
- `SymbolTables` (symbol_table.dfy): the builder itself, imperative. The mutable
  `Symbol` objects live in a store `SymbolTable.records`. An object reference is
  an index into that store, and `children` holds indices. `Push` is
  `children.push`. `Visit` is the recursive walker: it takes the container index
  by value and loops over the children. `AddParameters` is the parameter loop,
  and `CreateSymbolTable` is the loop over source files. `Visit` is proved against
  `SymbolsOf` through the two-state predicate `Appended`. `Appended` says that
  only the given container's `children` grew, that every other existing record is
  untouched, that the new children are distinct records past the old end of the
  store, in creation order, and that
  the new children read back as the given symbols. `Valid()` keeps the root
  record's name and kind. It also keeps every child stored after its parent, so a
  container is created before any of its descendants.
- `Scenarios` (scenarios.dfy): one worked input, a function `outer(x: number)`
  holding `let y = 1 + x` and a nested function with `let z = "a"`, preceded by a
  declaration file.

Kind tags are the compiler's syntax-kind names for the four declarations the
walker records: `ClassDeclaration`, `FunctionDeclaration`, `Parameter` and
`VariableDeclaration`. The root's tag is `root`. The code always writes `type`
for parameters and variables (`typeToString` of whatever type the checker
gives). The model therefore always carries a type on leaves. The
record literal for variables has a `value` field that the `Symbol` interface
does not declare (the file is not type-checked). The model gives leaves that
field.

## Model

| member | source | states |
|---|---|---|
| `SymbolTables.SymbolTable.Visit` | generateSymbolTable.ts:24-63 | visiting a node under container `cur` changes only `cur`'s `children` (name and kind kept, old children kept, every other record untouched); the appended children are new records and read back as exactly `SymbolsOf(node)`; the store grows by the number of resolved containers, parameters and variables in the subtree |
| `SymbolTables.SymbolTable.Declare` | generateSymbolTable.ts:25-61 | the node's own step: a resolved class or function gets one new container record with empty children (a function's then holding its parameter records) appended to `cur`, which becomes the container for the children; a resolved variable gets one leaf (type, and value exactly when an initializer exists) appended to `cur`; anything else appends nothing and keeps `cur` |
| `SymbolTables.SymbolTable.AddParameters` | generateSymbolTable.ts:32-45 | the parameter loop appends to the function's record exactly one `Parameter` leaf per resolved parameter, in parameter order, and changes nothing else |
| `SymbolTables.SymbolTable.Push` | generateSymbolTable.ts:28-29 | `children.push` of a freshly built record: the record is stored at the end, its index is appended to the parent's children, nothing else changes, and the store stays well formed |
| `SymbolTables.SymbolTable.constructor` | generateSymbolTable.ts:16 | the table starts as the single root record with name `root`, kind `root` and no children |
| `SymbolTables.CreateSymbolTable` | generateSymbolTable.ts:12-23 | the root record read back equals `RootSymbol(files)`: the records of every non-declaration file in file order; the store holds one record plus one per resolved declaration in those files |
| `Scopes.OutlineIsScoped` | generateSymbolTable.ts:24-63 | the records a node yields, read in pre-order with the names of the records above them, are exactly its resolved declarations in depth-first left-to-right order, each with its lexical scope path, kind, type, initializer text and container/leaf shape |
| `Scopes.OutlineAllIsScoped` | generateSymbolTable.ts:62 | the same for a list of sibling nodes visited with one container |
| `Scopes.ParametersOutline` | generateSymbolTable.ts:33-44 | the parameter records read back are the resolved parameters, in order, each a leaf with its type and no value |
| `Scopes.ScopedCount` | generateSymbolTable.ts:27-59 | a node yields one entry per resolved class, function, parameter of a resolved function, and variable in its subtree |
| `Scopes.ScopedWithin` | generateSymbolTable.ts:24-62 | nothing a node yields lands outside the scope it is visited in |
| `Scopes.ContainerEnclosesBody` | generateSymbolTable.ts:25-30 | a resolved class or function is recorded in the enclosing scope, and everything declared inside it (parameters included) lies in its own scope or deeper |
| `Symbols.ParameterSymbolsAppend` | generateSymbolTable.ts:33-44 | parameter records follow parameter order: the records of a split parameter list are the records of the first part followed by those of the second |
| `Symbols.UnresolvedParameterSkipped` | generateSymbolTable.ts:34-35 | a parameter whose name does not resolve adds no record and leaves the records of the others unchanged |
| `Symbols.ParameterSymbolsAreParameters` | generateSymbolTable.ts:34-42 | a function with N resolved parameters gets exactly N parameter records, each a `Parameter` leaf without a value |
| `Symbols.SymbolsOfAllAppend` | generateSymbolTable.ts:62 | siblings are recorded in source order: the records of a later sibling follow those of an earlier one, in the same container |
| `Symbols.FileSymbolsAppend` | generateSymbolTable.ts:19-23 | files are recorded in the order given: the root's children for two lists of files are those of the first followed by those of the second |
| `Symbols.DeclarationFilesIgnored` | generateSymbolTable.ts:20-21 | declaration files add nothing: the table equals the table built from the non-declaration files alone |
| `Scenarios.OuterScenario` | generateSymbolTable.ts:16-63 | for `function outer(x: number) { let y = 1 + x; function inner() { let z = "a"; } }` after a declaration file, the root holds `outer` with children `x` (Parameter, number), `y` (value `1 + x`) and `inner`, which holds `z` |

## Left out

- Program construction, the type checker and the syntax tree API (`ts.createProgram`, `getTypeChecker`, `getSymbolAtLocation`, `getTypeAtLocation`, `typeToString`, `getText`, `ts.forEachChild`) are not modelled. Their answers are fields of the syntax nodes: a resolved name or none, a type text, an initializer text, and the ordered child list.
- Writing `results/symbol_table.json` and `JSON.stringify` are file I/O and library serialization. `SymbolTable.Root()` is the value that would be written.
- Command-line handling and the compiler options literal (lines 68-69) are not modelled.
- JavaScript object identity is not modelled: records live in one store and a reference is an index into it. In the code every record is pushed onto exactly one container when it is created; `Appended` states that the new children of a container are distinct new records in creation order. In-place `push` is a reassignment of the store.
- The text of the kind tags is taken as the compiler's syntax-kind names; the enumeration's reverse lookup itself is not modelled.
- The `Scopes` module's scope paths are a reading of the nested table; the code builds no table keyed by them.
