/**
 * A second, flat description of the same walk, kept independent of the tree:
 * every resolved declaration in depth-first pre-order, each with the scope path
 * of resolved containers that encloses it.  The path is extended by value when
 * a container's name resolves, and never otherwise.  The main lemma says that
 * reading the built tree in pre-order gives exactly this list, which fixes
 * which nodes become records, where each one is attached and in what order.
 */
module Scopes {
  import opened Wrappers
  import opened Syntax
  import opened Symbols

  /** One declaration, with the names of the containers it sits in (outermost first). */
  datatype Entry = Entry(scope: seq<string>, name: string, kind: string,
                         typeName: Option<string>, value: Option<string>, container: bool)

  function ScopedParams(ps: seq<Param>, scope: seq<string>): seq<Entry>
  {
    if ps == [] then []
    else
      (match ps[0].name
       case None => []
       case Some(id) => [Entry(scope, id, ParameterKind, Some(ps[0].typeName), None, false)])
      + ScopedParams(ps[1..], scope)
  }

  /** The declarations of `n`, given the scope path it is visited in. */
  function Scoped(n: Node, scope: seq<string>): seq<Entry>
    decreases n
  {
    match n
    case ClassDecl(name, kids) =>
      if name.None? then ScopedAll(kids, scope)
      else [Entry(scope, name.value, ClassKind, None, None, true)]
           + ScopedAll(kids, scope + [name.value])
    case FuncDecl(name, params, kids) =>
      if name.None? then ScopedAll(kids, scope)
      else [Entry(scope, name.value, FunctionKind, None, None, true)]
           + ScopedParams(params, scope + [name.value])
           + ScopedAll(kids, scope + [name.value])
    case VarDecl(name, typeName, init, kids) =>
      (if name.None? then [] else [Entry(scope, name.value, VariableKind, Some(typeName), init, false)])
      + ScopedAll(kids, scope)
    case Other(kids) => ScopedAll(kids, scope)
  }

  function ScopedAll(kids: seq<Node>, scope: seq<string>): seq<Entry>
    decreases kids
  {
    if kids == [] then [] else Scoped(kids[0], scope) + ScopedAll(kids[1..], scope)
  }

  /** Pre-order reading of a list of built records, each with the names of the records above it. */
  function Outline(syms: seq<Symbol>, scope: seq<string>): seq<Entry>
    decreases syms
  {
    if syms == [] then [] else OutlineOne(syms[0], scope) + Outline(syms[1..], scope)
  }

  function OutlineOne(s: Symbol, scope: seq<string>): seq<Entry>
    decreases s
  {
    match s
    case Container(name, kind, children) =>
      [Entry(scope, name, kind, None, None, true)] + Outline(children, scope + [name])
    case Leaf(name, kind, typeName, value) =>
      [Entry(scope, name, kind, Some(typeName), value, false)]
  }

  lemma {:induction false} OutlineAppend(a: seq<Symbol>, b: seq<Symbol>, scope: seq<string>)
    ensures Outline(a + b, scope) == Outline(a, scope) + Outline(b, scope)
    decreases a
  {
    if a != [] {
      assert (a + b)[0] == a[0] && (a + b)[1..] == a[1..] + b;
      OutlineAppend(a[1..], b, scope);
    } else {
      assert a + b == b;
    }
  }

  lemma {:induction false} ScopedAllAppend(a: seq<Node>, b: seq<Node>, scope: seq<string>)
    ensures ScopedAll(a + b, scope) == ScopedAll(a, scope) + ScopedAll(b, scope)
    decreases a
  {
    if a != [] {
      assert (a + b)[1..] == a[1..] + b;
      ScopedAllAppend(a[1..], b, scope);
    } else {
      assert a + b == b;
    }
  }

  lemma {:induction false} ScopedParamsAppend(a: seq<Param>, b: seq<Param>, scope: seq<string>)
    ensures ScopedParams(a + b, scope) == ScopedParams(a, scope) + ScopedParams(b, scope)
    decreases a
  {
    if a != [] {
      assert (a + b)[1..] == a[1..] + b;
      ScopedParamsAppend(a[1..], b, scope);
    } else {
      assert a + b == b;
    }
  }

  /** The parameter records read back give the resolved parameters, in order. */
  lemma {:induction false} ParametersOutline(ps: seq<Param>, scope: seq<string>)
    ensures Outline(ParameterSymbols(ps), scope) == ScopedParams(ps, scope)
    decreases |ps|
  {
    if ps != [] {
      var init, last := ps[..|ps| - 1], ps[|ps| - 1];
      assert ps == init + [last];
      ParametersOutline(init, scope);
      OutlineAppend(ParameterSymbols(init), ParameterSymbol(last), scope);
      ScopedParamsAppend(init, [last], scope);
    }
  }

  /**
   * Reading the records a node adds in pre-order, with the scope path of the
   * records above them, gives the node's declarations with their lexical scope.
   */
  lemma {:induction false} OutlineIsScoped(n: Node, scope: seq<string>)
    ensures Outline(SymbolsOf(n), scope) == Scoped(n, scope)
    decreases n
  {
    match n
    case ClassDecl(name, kids) =>
      if name.None? {
        OutlineAllIsScoped(kids, scope);
      } else {
        OutlineAllIsScoped(kids, scope + [name.value]);
      }
    case FuncDecl(name, params, kids) =>
      if name.None? {
        OutlineAllIsScoped(kids, scope);
      } else {
        var inner := scope + [name.value];
        OutlineAllIsScoped(kids, inner);
        ParametersOutline(params, inner);
        OutlineAppend(ParameterSymbols(params), SymbolsOfAll(kids), inner);
      }
    case VarDecl(name, typeName, init, kids) =>
      OutlineAllIsScoped(kids, scope);
      var own := if name.None? then [] else [Leaf(name.value, VariableKind, typeName, init)];
      OutlineAppend(own, SymbolsOfAll(kids), scope);
    case Other(kids) =>
      OutlineAllIsScoped(kids, scope);
  }

  lemma {:induction false} OutlineAllIsScoped(kids: seq<Node>, scope: seq<string>)
    ensures Outline(SymbolsOfAll(kids), scope) == ScopedAll(kids, scope)
    decreases kids
  {
    if kids != [] {
      var init, last := kids[..|kids| - 1], kids[|kids| - 1];
      assert kids == init + [last];
      OutlineAllIsScoped(init, scope);
      OutlineIsScoped(last, scope);
      OutlineAppend(SymbolsOfAll(init), SymbolsOf(last), scope);
      ScopedAllAppend(init, [last], scope);
    }
  }

  /** The walk records one entry per resolved container, parameter and variable. */
  lemma {:induction false} ScopedCount(n: Node, scope: seq<string>)
    ensures |Scoped(n, scope)| == Count(n)
    decreases n
  {
    match n
    case ClassDecl(name, kids) =>
      ScopedAllCount(kids, if name.None? then scope else scope + [name.value]);
    case FuncDecl(name, params, kids) =>
      if name.None? {
        ScopedAllCount(kids, scope);
      } else {
        ScopedAllCount(kids, scope + [name.value]);
        ScopedParamsCount(params, scope + [name.value]);
      }
    case VarDecl(_, _, _, kids) =>
      ScopedAllCount(kids, scope);
    case Other(kids) =>
      ScopedAllCount(kids, scope);
  }

  lemma {:induction false} ScopedAllCount(kids: seq<Node>, scope: seq<string>)
    ensures |ScopedAll(kids, scope)| == CountAll(kids)
    decreases kids
  {
    if kids != [] {
      var init, last := kids[..|kids| - 1], kids[|kids| - 1];
      assert kids == init + [last];
      ScopedAllCount(init, scope);
      ScopedCount(last, scope);
      ScopedAllAppend(init, [last], scope);
      assert [last][1..] == [];
    }
  }

  lemma {:induction false} ScopedParamsCount(ps: seq<Param>, scope: seq<string>)
    ensures |ScopedParams(ps, scope)| == ParameterCount(ps)
  {
    if ps != [] {
      ScopedParamsCount(ps[1..], scope);
    }
  }

  /** Every declaration a node yields lies in the scope the node is visited in or deeper. */
  lemma {:induction false} ScopedWithin(n: Node, scope: seq<string>)
    ensures forall i :: 0 <= i < |Scoped(n, scope)| ==> scope <= Scoped(n, scope)[i].scope
    decreases n
  {
    match n
    case ClassDecl(name, kids) =>
      if name.None? {
        ScopedAllWithin(kids, scope);
      } else {
        ScopedAllWithin(kids, scope + [name.value]);
      }
    case FuncDecl(name, params, kids) =>
      if name.None? {
        ScopedAllWithin(kids, scope);
      } else {
        ScopedAllWithin(kids, scope + [name.value]);
        ScopedParamsWithin(params, scope + [name.value]);
      }
    case VarDecl(_, _, _, kids) =>
      ScopedAllWithin(kids, scope);
    case Other(kids) =>
      ScopedAllWithin(kids, scope);
  }

  lemma {:induction false} ScopedAllWithin(kids: seq<Node>, scope: seq<string>)
    ensures forall i :: 0 <= i < |ScopedAll(kids, scope)| ==> scope <= ScopedAll(kids, scope)[i].scope
    decreases kids
  {
    if kids != [] {
      ScopedWithin(kids[0], scope);
      ScopedAllWithin(kids[1..], scope);
    }
  }

  lemma {:induction false} ScopedParamsWithin(ps: seq<Param>, scope: seq<string>)
    ensures forall i :: 0 <= i < |ScopedParams(ps, scope)| ==> ScopedParams(ps, scope)[i].scope == scope
  {
    if ps != [] {
      ScopedParamsWithin(ps[1..], scope);
    }
  }

  /**
   * Scope isolation: everything declared inside a resolved class or function
   * lies in that container's scope, and the container itself in the enclosing one.
   */
  lemma ContainerEnclosesBody(n: Node, scope: seq<string>)
    requires (n.ClassDecl? || n.FuncDecl?) && n.name.Some?
    ensures Scoped(n, scope)[0].scope == scope && Scoped(n, scope)[0].container
    ensures Scoped(n, scope)[0].name == n.name.value
    ensures Scoped(n, scope)[0].kind == if n.ClassDecl? then ClassKind else FunctionKind
    ensures forall i :: 1 <= i < |Scoped(n, scope)| ==>
              scope + [n.name.value] <= Scoped(n, scope)[i].scope
  {
    var inner := scope + [n.name.value];
    ScopedAllWithin(n.kids, inner);
    if n.FuncDecl? {
      ScopedParamsWithin(n.params, inner);
    }
  }
}
