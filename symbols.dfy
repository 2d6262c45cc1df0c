/**
 * The symbol records the builder emits and, as functions on the syntax tree,
 * which records a walk adds to the container it is given.
 */
module Symbols {
  import opened Wrappers
  import opened Syntax

  /**
   * The two shapes of `Symbol` record the builder writes: containers (the root,
   * classes, functions) with a `children` list and no type, and leaves
   * (parameters, variables) with a type and no `children`.  `value` is the
   * initializer text of a variable; it is absent for parameters.
   */
  datatype Symbol =
    | Container(name: string, kind: string, children: seq<Symbol>)
    | Leaf(name: string, kind: string, typeName: string, value: Option<string>)

  /** Kind tags: the root's literal tag, then the names of the compiler's syntax kinds. */
  const RootKind := "root"
  const ClassKind := "ClassDeclaration"
  const FunctionKind := "FunctionDeclaration"
  const ParameterKind := "Parameter"
  const VariableKind := "VariableDeclaration"

  /** The records one parameter adds: one when its name resolves, none otherwise. */
  function ParameterSymbol(p: Param): seq<Symbol>
  {
    match p.name
    case Some(id) => [Leaf(id, ParameterKind, p.typeName, None)]
    case None => []
  }

  /** The records the parameter loop adds, in parameter order. */
  function ParameterSymbols(ps: seq<Param>): seq<Symbol>
  {
    if ps == [] then [] else ParameterSymbols(ps[..|ps| - 1]) + ParameterSymbol(ps[|ps| - 1])
  }

  /**
   * The records that visiting `n` appends to the container it is visited with,
   * each with everything the walk later attaches below it.
   */
  function SymbolsOf(n: Node): seq<Symbol>
    decreases n
  {
    match n
    case ClassDecl(name, kids) =>
      if name.None? then SymbolsOfAll(kids)
      else [Container(name.value, ClassKind, SymbolsOfAll(kids))]
    case FuncDecl(name, params, kids) =>
      if name.None? then SymbolsOfAll(kids)
      else [Container(name.value, FunctionKind, ParameterSymbols(params) + SymbolsOfAll(kids))]
    case VarDecl(name, typeName, init, kids) =>
      (if name.None? then [] else [Leaf(name.value, VariableKind, typeName, init)])
      + SymbolsOfAll(kids)
    case Other(kids) => SymbolsOfAll(kids)
  }

  /** The records that visiting `kids` one after another appends to one container. */
  function SymbolsOfAll(kids: seq<Node>): seq<Symbol>
    decreases kids
  {
    if kids == [] then [] else SymbolsOfAll(kids[..|kids| - 1]) + SymbolsOf(kids[|kids| - 1])
  }

  /** The root's children: the records of every non-declaration file, in file order. */
  function FileSymbols(files: seq<SourceFile>): seq<Symbol>
  {
    if files == [] then []
    else
      var last := files[|files| - 1];
      FileSymbols(files[..|files| - 1]) + (if last.isDeclarationFile then [] else SymbolsOf(last.root))
  }

  /** The finished table for a program. */
  function RootSymbol(files: seq<SourceFile>): Symbol
  {
    Container("root", RootKind, FileSymbols(files))
  }

  /** Resolved declarations: containers, their parameters and variables. */
  function ParameterCount(ps: seq<Param>): nat
  {
    if ps == [] then 0 else (if ps[0].name.Some? then 1 else 0) + ParameterCount(ps[1..])
  }

  function Count(n: Node): nat
    decreases n
  {
    match n
    case ClassDecl(name, kids) => (if name.Some? then 1 else 0) + CountAll(kids)
    case FuncDecl(name, params, kids) =>
      (if name.Some? then 1 + ParameterCount(params) else 0) + CountAll(kids)
    case VarDecl(name, _, _, kids) => (if name.Some? then 1 else 0) + CountAll(kids)
    case Other(kids) => CountAll(kids)
  }

  function CountAll(kids: seq<Node>): nat
    decreases kids
  {
    if kids == [] then 0 else CountAll(kids[..|kids| - 1]) + Count(kids[|kids| - 1])
  }

  function FileCount(files: seq<SourceFile>): nat
  {
    if files == [] then 0
    else
      var last := files[|files| - 1];
      FileCount(files[..|files| - 1]) + (if last.isDeclarationFile then 0 else Count(last.root))
  }

  /** The non-declaration files of a program, in order. */
  function SourceFilesOnly(files: seq<SourceFile>): (r: seq<SourceFile>)
    ensures forall i :: 0 <= i < |r| ==> !r[i].isDeclarationFile
    ensures forall f :: f in r <==> f in files && !f.isDeclarationFile
  {
    if files == [] then []
    else (if files[0].isDeclarationFile then [] else [files[0]]) + SourceFilesOnly(files[1..])
  }

  /** Parameters are recorded in order: the records of a split list are the records of its parts. */
  lemma {:induction false} ParameterSymbolsAppend(a: seq<Param>, b: seq<Param>)
    ensures ParameterSymbols(a + b) == ParameterSymbols(a) + ParameterSymbols(b)
    decreases |b|
  {
    if b == [] {
      assert a + b == a;
    } else {
      var init, last := b[..|b| - 1], b[|b| - 1];
      assert (a + b)[..|a + b| - 1] == a + init && (a + b)[|a + b| - 1] == last;
      ParameterSymbolsAppend(a, init);
    }
  }

  /** A parameter whose name does not resolve is skipped and leaves the others as they are. */
  lemma {:induction false} UnresolvedParameterSkipped(a: seq<Param>, p: Param, b: seq<Param>)
    requires p.name.None?
    ensures ParameterSymbols(a + [p] + b) == ParameterSymbols(a) + ParameterSymbols(b)
  {
    var ap := a + [p];
    assert ap[..|ap| - 1] == a && ap[|ap| - 1] == p;
    assert ParameterSymbols(ap) == ParameterSymbols(a) + [];
    ParameterSymbolsAppend(ap, b);
  }

  /**
   * A function with N resolved parameters gets exactly N parameter records,
   * each a leaf of kind `Parameter` with a type and no initializer text.
   */
  lemma {:induction false} ParameterSymbolsAreParameters(ps: seq<Param>)
    ensures |ParameterSymbols(ps)| == ParameterCount(ps)
    ensures forall i :: 0 <= i < |ParameterSymbols(ps)| ==>
              ParameterSymbols(ps)[i].Leaf? && ParameterSymbols(ps)[i].kind == ParameterKind
              && ParameterSymbols(ps)[i].value.None?
  {
    if ps != [] {
      ParameterSymbolsAreParameters(ps[1..]);
      assert ps == [ps[0]] + ps[1..];
      ParameterSymbolsAppend([ps[0]], ps[1..]);
      assert [ps[0]][..0] == [];
    }
  }

  /** Siblings are recorded in source order: the later sibling's records follow the earlier one's. */
  lemma {:induction false} SymbolsOfAllAppend(a: seq<Node>, b: seq<Node>)
    ensures SymbolsOfAll(a + b) == SymbolsOfAll(a) + SymbolsOfAll(b)
    decreases |b|
  {
    if b == [] {
      assert a + b == a;
    } else {
      var init, last := b[..|b| - 1], b[|b| - 1];
      assert (a + b)[..|a + b| - 1] == a + init && (a + b)[|a + b| - 1] == last;
      SymbolsOfAllAppend(a, init);
    }
  }

  /** Files are visited in the order given. */
  lemma {:induction false} FileSymbolsAppend(a: seq<SourceFile>, b: seq<SourceFile>)
    ensures FileSymbols(a + b) == FileSymbols(a) + FileSymbols(b)
    decreases |b|
  {
    if b == [] {
      assert a + b == a;
    } else {
      var init, last := b[..|b| - 1], b[|b| - 1];
      assert (a + b)[..|a + b| - 1] == a + init && (a + b)[|a + b| - 1] == last;
      FileSymbolsAppend(a, init);
    }
  }

  /** Declaration files add nothing: the table is that of the non-declaration files alone. */
  lemma {:induction false} DeclarationFilesIgnored(files: seq<SourceFile>)
    ensures FileSymbols(files) == FileSymbols(SourceFilesOnly(files))
  {
    if files != [] {
      var first, rest := files[0], files[1..];
      assert files == [first] + rest;
      DeclarationFilesIgnored(rest);
      FileSymbolsAppend([first], rest);
      var kept := if first.isDeclarationFile then [] else [first];
      FileSymbolsAppend(kept, SourceFilesOnly(rest));
      assert [first][..0] == [];
      if kept == [] {
        assert kept + SourceFilesOnly(rest) == SourceFilesOnly(rest);
      }
    }
  }
}
