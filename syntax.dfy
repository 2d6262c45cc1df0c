/**
 * The part of the TypeScript syntax tree that the symbol-table builder looks at.
 *
 * The compiler API (program construction, the type checker, `getText`) is not
 * modelled: each node carries the answers the type checker gives for it.
 * `name` is what `getSymbolAtLocation` resolves for the declared name (`None`
 * when it returns nothing), `typeName` is `typeToString(getTypeAtLocation(..))`
 * and `init` is the source text of an initializer when there is one.
 * `kids` are the nodes `ts.forEachChild` hands to the walker, in source order.
 */
module Syntax {
  import opened Wrappers

  /** One entry of a function declaration's `parameters` list. */
  datatype Param = Param(name: Option<string>, typeName: string)

  datatype Node =
    | ClassDecl(name: Option<string>, kids: seq<Node>)
    | FuncDecl(name: Option<string>, params: seq<Param>, kids: seq<Node>)
    | VarDecl(name: Option<string>, typeName: string, init: Option<string>, kids: seq<Node>)
    | Other(kids: seq<Node>)

  /** A source file of the program, with the compiler's `isDeclarationFile` flag. */
  datatype SourceFile = SourceFile(isDeclarationFile: bool, root: Node)
}
