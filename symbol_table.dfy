/**
 * The symbol-table builder of generateSymbolTable.ts, in its imperative form.
 *
 * The builder's `Symbol` objects are mutable records shared by reference: the
 * walker holds a reference to the current container and pushes new records
 * onto its `children` list.  Here the records live in one store,
 * `SymbolTable.records`, and a reference is an index into it: a container's
 * `children` are the indices of its child records.  The walker receives the
 * index of its container as an ordinary (by-value) parameter.
 */
module SymbolTables {
  import opened Wrappers
  import opened Syntax
  import opened Symbols

  /** A stored record; a container lists its children by index. */
  datatype Record =
    | ContainerRecord(name: string, kind: string, children: seq<nat>)
    | LeafRecord(name: string, kind: string, typeName: string, value: Option<string>)

  /** `{ name: "root", kind: "root", children: [] }` */
  const RootRecord := ContainerRecord("root", RootKind, [])

  /** Each child of the record at `id` is stored after it and inside the store. */
  ghost predicate ChildrenAfter(r: Record, id: nat, n: nat)
  {
    r.ContainerRecord? ==> forall k :: 0 <= k < |r.children| ==> id < r.children[k] < n
  }

  /** Records only point forward: a container is stored before everything below it. */
  ghost predicate WellFormed(rs: seq<Record>)
  {
    forall i :: 0 <= i < |rs| ==> ChildrenAfter(rs[i], i, |rs|)
  }

  ghost predicate InStore(rs: seq<Record>, ids: seq<nat>)
  {
    forall k :: 0 <= k < |ids| ==> ids[k] < |rs|
  }

  /** The record at `id` with everything below it: what serializing that object writes. */
  ghost function TreeAt(rs: seq<Record>, id: nat): Symbol
    requires WellFormed(rs) && id < |rs|
    decreases |rs| - id
  {
    match rs[id]
    case LeafRecord(name, kind, typeName, value) => Leaf(name, kind, typeName, value)
    case ContainerRecord(name, kind, children) =>
      assert ChildrenAfter(rs[id], id, |rs|);
      Container(name, kind, seq(|children|, k requires 0 <= k < |children| => TreeAt(rs, children[k])))
  }

  ghost function Forest(rs: seq<Record>, ids: seq<nat>): seq<Symbol>
    requires WellFormed(rs) && InStore(rs, ids)
  {
    seq(|ids|, k requires 0 <= k < |ids| => TreeAt(rs, ids[k]))
  }

  /** The tree of a record that has no children yet. */
  function NewSymbol(r: Record): Symbol
  {
    match r
    case ContainerRecord(name, kind, _) => Container(name, kind, [])
    case LeafRecord(name, kind, typeName, value) => Leaf(name, kind, typeName, value)
  }

  /**
   * `after` is `before` with records added below the container `cur` and nowhere
   * else: every other old record is unchanged, `cur` keeps its name and kind and
   * its old children, its new children are distinct new records in creation
   * order, and they read as `added`.
   */
  ghost predicate Appended(before: seq<Record>, after: seq<Record>, cur: nat, added: seq<Symbol>)
  {
    && WellFormed(after)
    && cur < |before| <= |after|
    && before[cur].ContainerRecord? && after[cur].ContainerRecord?
    && (forall i :: 0 <= i < |before| && i != cur ==> after[i] == before[i])
    && after[cur].name == before[cur].name && after[cur].kind == before[cur].kind
    && before[cur].children <= after[cur].children
    && (forall k :: |before[cur].children| <= k < |after[cur].children| ==>
          |before| <= after[cur].children[k] < |after|)
    && (forall k, l :: |before[cur].children| <= k < l < |after[cur].children| ==>
          after[cur].children[k] < after[cur].children[l])
    && Forest(after, after[cur].children[|before[cur].children|..]) == added
  }

  /** A tree does not change when nothing from its root onwards changes. */
  lemma {:induction false} TreeStable(r1: seq<Record>, r2: seq<Record>, id: nat)
    requires WellFormed(r1) && WellFormed(r2) && id < |r1| <= |r2|
    requires forall i :: id <= i < |r1| ==> r2[i] == r1[i]
    ensures TreeAt(r2, id) == TreeAt(r1, id)
    decreases |r1| - id
  {
    if r1[id].ContainerRecord? {
      var cs := r1[id].children;
      assert ChildrenAfter(r1[id], id, |r1|);
      forall k | 0 <= k < |cs|
        ensures TreeAt(r2, cs[k]) == TreeAt(r1, cs[k])
      {
        TreeStable(r1, r2, cs[k]);
      }
    }
  }

  lemma ForestStable(r1: seq<Record>, r2: seq<Record>, ids: seq<nat>, lo: nat)
    requires WellFormed(r1) && WellFormed(r2) && |r1| <= |r2|
    requires forall k :: 0 <= k < |ids| ==> lo <= ids[k] < |r1|
    requires forall i :: lo <= i < |r1| ==> r2[i] == r1[i]
    ensures InStore(r1, ids) && InStore(r2, ids)
    ensures Forest(r2, ids) == Forest(r1, ids)
  {
    forall k | 0 <= k < |ids|
      ensures TreeAt(r2, ids[k]) == TreeAt(r1, ids[k])
    {
      TreeStable(r1, r2, ids[k]);
    }
  }

  lemma ForestAppend(rs: seq<Record>, a: seq<nat>, b: seq<nat>)
    requires WellFormed(rs) && InStore(rs, a) && InStore(rs, b)
    ensures InStore(rs, a + b)
    ensures Forest(rs, a + b) == Forest(rs, a) + Forest(rs, b)
  {
    assert forall k :: 0 <= k < |a + b| ==> (a + b)[k] == if k < |a| then a[k] else b[k - |a|];
  }

  /** The stored tree of a container lists the trees of its children. */
  lemma TreeAtContainer(rs: seq<Record>, id: nat)
    requires WellFormed(rs) && id < |rs| && rs[id].ContainerRecord?
    ensures InStore(rs, rs[id].children)
    ensures TreeAt(rs, id) == Container(rs[id].name, rs[id].kind, Forest(rs, rs[id].children))
  {
    assert ChildrenAfter(rs[id], id, |rs|);
  }

  lemma AppendedNothing(rs: seq<Record>, cur: nat)
    requires WellFormed(rs) && cur < |rs| && rs[cur].ContainerRecord?
    ensures Appended(rs, rs, cur, [])
  {
  }

  /** Two rounds of appends below one container append their concatenation. */
  lemma AppendedTrans(r0: seq<Record>, r1: seq<Record>, r2: seq<Record>, cur: nat,
                      a: seq<Symbol>, b: seq<Symbol>)
    requires Appended(r0, r1, cur, a) && Appended(r1, r2, cur, b)
    ensures Appended(r0, r2, cur, a + b)
  {
    var c0, c1, c2 := r0[cur].children, r1[cur].children, r2[cur].children;
    var n1, n2 := c1[|c0|..], c2[|c1|..];
    assert c2[|c0|..] == n1 + n2;
    ForestStable(r1, r2, n1, |r0|);
    ForestAppend(r2, n1, n2);
  }

  /**
   * A container `k` appended below `cur`, which then gets children `more`
   * of its own, reads as that container with `more` after its first children.
   */
  lemma AppendedNest(r0: seq<Record>, r1: seq<Record>, r2: seq<Record>, cur: nat, k: nat,
                     name: string, kind: string, first: seq<Symbol>, more: seq<Symbol>)
    requires Appended(r0, r1, cur, [Container(name, kind, first)])
    requires r1[cur].children == r0[cur].children + [k]
    requires Appended(r1, r2, k, more)
    ensures Appended(r0, r2, cur, [Container(name, kind, first + more)])
    ensures r2[cur].children == r0[cur].children + [k]
  {
    assert r1[cur].children[|r0[cur].children|..] == [k];
    assert r1[cur].children[|r0[cur].children|] == k;
    assert k != cur;
    assert Forest(r1, [k])[0] == TreeAt(r1, k);
    var c1, c2 := r1[k].children, r2[k].children;
    TreeAtContainer(r1, k);
    TreeAtContainer(r2, k);
    assert c2 == c1 + c2[|c1|..];
    ForestAppend(r2, c1, c2[|c1|..]);
    assert ChildrenAfter(r1[k], k, |r1|);
    ForestStable(r1, r2, c1, k + 1);
    assert TreeAt(r2, k) == Container(name, kind, first + more);
    assert r2[cur].children[|r0[cur].children|..] == [k];
  }

  class SymbolTable {
    /** Every record created so far; index 0 is the root. */
    var records: seq<Record>

    ghost predicate Valid()
      reads this
    {
      && |records| > 0
      && records[0].ContainerRecord? && records[0].name == "root" && records[0].kind == RootKind
      && WellFormed(records)
    }

    /** The root record with everything below it: the table that is written out. */
    ghost function Root(): Symbol
      reads this
      requires Valid()
    {
      TreeAt(records, 0)
    }

    /** A table holding only `{ name: "root", kind: "root", children: [] }`. */
    constructor ()
      ensures Valid() && records == [RootRecord]
      ensures Root() == Container("root", RootKind, [])
    {
      records := [RootRecord];
    }

    /** `parent.children.push(r)` for a record `r` created with no children. */
    method Push(parent: nat, r: Record) returns (id: nat)
      requires Valid() && parent < |records| && records[parent].ContainerRecord?
      requires r.ContainerRecord? ==> r.children == []
      modifies this
      ensures Valid()
      ensures id == old(|records|)
      ensures records == old(records)[parent := old(records[parent]).(children := old(records[parent].children) + [id])] + [r]
      ensures Appended(old(records), records, parent, [NewSymbol(r)])
    {
      ghost var before := records;
      id := |records|;
      var p := records[parent];
      records := records[parent := p.(children := p.children + [id])] + [r];
      assert forall i :: 0 <= i < |records| ==> ChildrenAfter(records[i], i, |records|) by {
        forall i | 0 <= i < |records| ensures ChildrenAfter(records[i], i, |records|) {
          if i < |before| { assert ChildrenAfter(before[i], i, |before|); }
        }
      }
      assert records[parent].children[|p.children|..] == [id];
      assert TreeAt(records, id) == NewSymbol(r);
    }

    /** The parameter loop: one `Parameter` leaf per parameter whose name resolves. */
    method AddParameters(params: seq<Param>, fn: nat)
      requires Valid() && fn < |records| && records[fn].ContainerRecord?
      modifies this
      ensures Valid()
      ensures Appended(old(records), records, fn, ParameterSymbols(params))
      ensures |records| == old(|records|) + ParameterCount(params)
    {
      AppendedNothing(records, fn);
      for i := 0 to |params|
        invariant Valid()
        invariant Appended(old(records), records, fn, ParameterSymbols(params[..i]))
        invariant |records| == old(|records|) + |ParameterSymbols(params[..i])|
      {
        ghost var before := records;
        var p := params[i];
        assert params[..i + 1][..i] == params[..i];
        if p.name.Some? {
          var _ := Push(fn, LeafRecord(p.name.value, ParameterKind, p.typeName, None));
          AppendedTrans(old(records), before, records, fn,
                        ParameterSymbols(params[..i]), ParameterSymbol(p));
        }
      }
      assert params[..|params|] == params;
      ParameterSymbolsAreParameters(params);
    }

    /**
     * The first half of `visit`: records what `node` itself declares below
     * `cur` and returns the container its children are visited with, the new
     * record when a class or function name resolves and `cur` otherwise.
     */
    method Declare(node: Node, cur: nat) returns (container: nat)
      requires Valid() && cur < |records| && records[cur].ContainerRecord?
      modifies this
      ensures Valid() && container < |records| && records[container].ContainerRecord?
      ensures Declared(node, old(records), records, cur, container)
      ensures |records| == old(|records|) + Count(node) - CountAll(node.kids)
    {
      container := cur;
      match node
      case ClassDecl(name, _) =>
        if name.Some? {
          container := Push(cur, ContainerRecord(name.value, ClassKind, []));
        }
      case FuncDecl(name, params, _) =>
        if name.Some? {
          container := Push(cur, ContainerRecord(name.value, FunctionKind, []));
          ghost var withContainer := records;
          AddParameters(params, container);
          AppendedNest(old(records), withContainer, records, cur, container,
                       name.value, FunctionKind, [], ParameterSymbols(params));
        }
      case VarDecl(name, typeName, init, _) =>
        if name.Some? {
          var _ := Push(cur, LeafRecord(name.value, VariableKind, typeName, init));
        }
      case Other(_) =>
    }

    /**
     * `visit(node, currentSymbol)`: records what `node` declares below the
     * container `cur`, then visits every child with the container `node`
     * opened, or with `cur` when it opened none.
     */
    method Visit(node: Node, cur: nat)
      requires Valid() && cur < |records| && records[cur].ContainerRecord?
      modifies this
      ensures Valid()
      ensures Appended(old(records), records, cur, SymbolsOf(node))
      ensures |records| == old(|records|) + Count(node)
      decreases node
    {
      var container := Declare(node, cur);
      ghost var header := records;
      var kids := node.kids;
      AppendedNothing(records, container);
      for i := 0 to |kids|
        invariant Valid()
        invariant Appended(header, records, container, SymbolsOfAll(kids[..i]))
        invariant |records| == |header| + CountAll(kids[..i])
      {
        ghost var before := records;
        assert kids[..i + 1][..i] == kids[..i];
        Visit(kids[i], container);
        AppendedTrans(header, before, records, container, SymbolsOfAll(kids[..i]), SymbolsOf(kids[i]));
      }
      assert kids[..|kids|] == kids;
      VisitEnd(node, old(records), header, records, cur, container);
    }
  }

  /** What `Declare` leaves behind, case by case: the node's own record (if any) and the container for its children. */
  ghost predicate Declared(node: Node, r0: seq<Record>, r1: seq<Record>, cur: nat, container: nat)
  {
    && WellFormed(r0) && cur < |r0| && r0[cur].ContainerRecord?
    && (node.ClassDecl? && node.name.Some? ==>
          Appended(r0, r1, cur, [Container(node.name.value, ClassKind, [])])
          && r1[cur].children == r0[cur].children + [container])
    && (node.FuncDecl? && node.name.Some? ==>
          Appended(r0, r1, cur, [Container(node.name.value, FunctionKind, ParameterSymbols(node.params))])
          && r1[cur].children == r0[cur].children + [container])
    && (node.VarDecl? && node.name.Some? ==>
          Appended(r0, r1, cur, [Leaf(node.name.value, VariableKind, node.typeName, node.init)])
          && container == cur)
    && ((node.Other? || node.name.None?) ==> r1 == r0 && container == cur)
  }

  /** How the node's own records and its children's records combine, case by case. */
  lemma VisitEnd(node: Node, r0: seq<Record>, r1: seq<Record>, r2: seq<Record>, cur: nat, container: nat)
    requires Declared(node, r0, r1, cur, container)
    requires Appended(r1, r2, container, SymbolsOfAll(node.kids))
    ensures Appended(r0, r2, cur, SymbolsOf(node))
  {
    match node
    case ClassDecl(name, kids) =>
      if name.Some? {
        AppendedNest(r0, r1, r2, cur, container, name.value, ClassKind, [], SymbolsOfAll(kids));
        assert [] + SymbolsOfAll(kids) == SymbolsOfAll(kids);
      } else {
        AppendedNothing(r0, cur);
        AppendedTrans(r0, r1, r2, cur, [], SymbolsOfAll(kids));
      }
    case FuncDecl(name, params, kids) =>
      if name.Some? {
        AppendedNest(r0, r1, r2, cur, container, name.value, FunctionKind,
                     ParameterSymbols(params), SymbolsOfAll(kids));
      } else {
        AppendedNothing(r0, cur);
        AppendedTrans(r0, r1, r2, cur, [], SymbolsOfAll(kids));
      }
    case VarDecl(name, typeName, init, kids) =>
      if name.Some? {
        AppendedTrans(r0, r1, r2, cur, [Leaf(name.value, VariableKind, typeName, init)], SymbolsOfAll(kids));
      } else {
        AppendedNothing(r0, cur);
        AppendedTrans(r0, r1, r2, cur, [], SymbolsOfAll(kids));
      }
    case Other(kids) =>
      AppendedNothing(r0, cur);
      AppendedTrans(r0, r1, r2, cur, [], SymbolsOfAll(kids));
  }

  /**
   * `createSymbolTable`: starts from the root record and visits every
   * non-declaration source file, in order, with the root as container.
   */
  method CreateSymbolTable(files: seq<SourceFile>) returns (table: SymbolTable)
    ensures fresh(table) && table.Valid()
    ensures table.Root() == RootSymbol(files)
    ensures |table.records| == 1 + FileCount(files)
  {
    table := new SymbolTable();
    AppendedNothing(table.records, 0);
    for i := 0 to |files|
      invariant table.Valid()
      invariant Appended([RootRecord], table.records, 0, FileSymbols(files[..i]))
      invariant |table.records| == 1 + FileCount(files[..i])
    {
      ghost var before := table.records;
      assert files[..i + 1][..i] == files[..i];
      if !files[i].isDeclarationFile {
        table.Visit(files[i].root, 0);
        AppendedTrans([RootRecord], before, table.records, 0, FileSymbols(files[..i]), SymbolsOf(files[i].root));
      }
    }
    assert files[..|files|] == files;
    TreeAtContainer(table.records, 0);
    assert table.records[0].children[0..] == table.records[0].children;
  }
}
