/**
 * One worked input, to show the shape the builder produces:
 *   function outer(x: number) { let y = 1 + x; function inner() { let z = "a"; } }
 * A `let` statement reaches its declaration through two plain nodes (the
 * statement and its declaration list); a function's plain children are its
 * name, its parameter nodes and its body block.
 */
module Scenarios {
  import opened Wrappers
  import opened Syntax
  import opened Symbols

  function LetStatement(name: string, typeName: string, init: string): Node
  {
    Other([Other([VarDecl(Some(name), typeName, Some(init), [Other([])])])])
  }

  function OuterFile(): Node
  {
    var inner := FuncDecl(Some("inner"), [], [Other([]), Other([LetStatement("z", "string", "\"a\"")])]);
    var outer := FuncDecl(Some("outer"), [Param(Some("x"), "number")],
                          [Other([]), Other([Other([]), Other([])]),
                           Other([LetStatement("y", "number", "1 + x"), inner])]);
    Other([outer])
  }

  /** The parameter comes first, then the body's declarations in source order, nested by function. */
  lemma OuterScenario()
    ensures RootSymbol([SourceFile(true, Other([VarDecl(Some("lib"), "any", None, [])])),
                        SourceFile(false, OuterFile())])
            == Container("root", RootKind,
                 [Container("outer", FunctionKind,
                    [Leaf("x", ParameterKind, "number", None),
                     Leaf("y", VariableKind, "number", Some("1 + x")),
                     Container("inner", FunctionKind,
                       [Leaf("z", VariableKind, "string", Some("\"a\""))])])])
  {
    var z := Leaf("z", VariableKind, "string", Some("\"a\""));
    var y := Leaf("y", VariableKind, "number", Some("1 + x"));
    var x := Leaf("x", ParameterKind, "number", None);
    var empty := Other([]);
    SingleChild(empty);
    LetSymbols("z", "string", "\"a\"");
    LetSymbols("y", "number", "1 + x");
    var letZ, letY := LetStatement("z", "string", "\"a\""), LetStatement("y", "number", "1 + x");
    SingleChild(letZ);
    Pair(empty, Other([letZ]));
    var inner := FuncDecl(Some("inner"), [], [empty, Other([letZ])]);
    var innerSym := Container("inner", FunctionKind, [z]);
    assert SymbolsOf(inner) == [innerSym];
    Pair(letY, inner);
    var body := Other([letY, inner]);
    assert SymbolsOf(body) == [y, innerSym];
    Pair(empty, empty);
    var paramNode := Other([empty, empty]);
    var kids := [empty, paramNode, body];
    assert kids[..2] == [empty, paramNode];
    Pair(empty, paramNode);
    assert SymbolsOfAll(kids) == [y, innerSym];
    var ps := [Param(Some("x"), "number")];
    assert ps[..0] == [];
    assert ParameterSymbols(ps) == [x];
    var outer := FuncDecl(Some("outer"), ps, kids);
    assert [x] + [y, innerSym] == [x, y, innerSym];
    assert SymbolsOf(outer) == [Container("outer", FunctionKind, [x, y, innerSym])];
    SingleChild(outer);
    var noFiles: seq<SourceFile> := [];
    var files := [SourceFile(true, Other([VarDecl(Some("lib"), "any", None, [])])), SourceFile(false, OuterFile())];
    assert files[..1][..0] == noFiles;
    assert FileSymbols(files[..1]) == [];
    assert FileSymbols(files) == SymbolsOf(OuterFile());
  }

  lemma Pair(a: Node, b: Node)
    ensures SymbolsOfAll([a, b]) == SymbolsOf(a) + SymbolsOf(b)
  {
    assert [a, b][..1] == [a];
    SingleChild(a);
  }

  lemma SingleChild(n: Node)
    ensures SymbolsOfAll([n]) == SymbolsOf(n)
  {
    assert [n][..0] == [];
  }

  lemma LetSymbols(name: string, typeName: string, init: string)
    ensures SymbolsOf(LetStatement(name, typeName, init)) == [Leaf(name, VariableKind, typeName, Some(init))]
  {
    var v := VarDecl(Some(name), typeName, Some(init), [Other([])]);
    SingleChild(Other([]));
    SingleChild(v);
    SingleChild(Other([v]));
  }
}
