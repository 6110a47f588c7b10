/** Traversals of values with an explicit stack (src/compiler/binding-input-v02.ts), against recursion. */
module Traversals {

  const MAX_DEPTH: nat := 64
  const MAX_NODES: nat := 100000

  /**
   * A value of any type. `plain` says of an array that it is dense and without extra keys or prototype,
   * of an object that its keys are strings and its properties data, with the ordinary prototype. Other
   * stands for undefined, functions, symbols and big integers.
   */
  datatype Value =
    | Null | Bool(b: bool) | Text(s: string) | Number(finite: bool)
    | Array(plain: bool, items: seq<Value>)
    | Object(plain: bool, keys: seq<string>, items: seq<Value>)
    | Other

  function Children(v: Value): seq<Value> {
    if v.Array? || v.Object? then v.items else []
  }

  // -----------------------------------------------------------------------
  // By recursion
  // -----------------------------------------------------------------------

  function Nodes(v: Value): (n: nat)
    ensures n >= 1
    decreases v, 0
  {
    match v
    case Array(_, items) => 1 + NodesOfAll(items)
    case Object(_, _, items) => 1 + NodesOfAll(items)
    case _ => 1
  }

  function NodesOfAll(vs: seq<Value>): nat
    decreases vs, 1
  {
    if vs == [] then 0 else Nodes(vs[0]) + NodesOfAll(vs[1..])
  }

  function Depth(v: Value): (d: nat)
    ensures d >= 1
    decreases v, 0
  {
    match v
    case Array(_, items) => 1 + DepthOfAll(items)
    case Object(_, _, items) => 1 + DepthOfAll(items)
    case _ => 1
  }

  function DepthOfAll(vs: seq<Value>): nat
    decreases vs, 1
  {
    if vs == [] then 0
    else
      var rest := DepthOfAll(vs[1..]);
      if Depth(vs[0]) > rest then Depth(vs[0]) else rest
  }

  /** JSON all the way down, every number finite. */
  predicate Strict(v: Value)
    decreases v, 0
  {
    match v
    case Number(finite) => finite
    case Array(plain, items) => plain && AllStrict(items)
    case Object(plain, _, items) => plain && AllStrict(items)
    case Other => false
    case _ => true
  }

  predicate AllStrict(vs: seq<Value>)
    decreases vs, 1
  {
    vs == [] || (Strict(vs[0]) && AllStrict(vs[1..]))
  }

  /** The strings of a value, left to right. */
  function Leaves(v: Value): seq<string>
    decreases v, 0
  {
    match v
    case Text(s) => [s]
    case Array(_, items) => LeavesOfAll(items)
    case Object(_, _, items) => LeavesOfAll(items)
    case _ => []
  }

  function LeavesOfAll(vs: seq<Value>): seq<string>
    decreases vs, 1
  {
    if vs == [] then [] else Leaves(vs[0]) + LeavesOfAll(vs[1..])
  }

  // -----------------------------------------------------------------------
  // With a stack: the top is the last element
  // -----------------------------------------------------------------------

  datatype Entry = Entry(value: Value, depth: nat)

  /** Strict, and within the depth limit when it starts at the given depth. */
  predicate Fits(e: Entry) {
    Strict(e.value) && e.depth - 1 + Depth(e.value) <= MAX_DEPTH
  }

  predicate AllFit(stack: seq<Entry>) {
    forall i :: 0 <= i < |stack| ==> Fits(stack[i])
  }

  function Pending(stack: seq<Entry>): nat {
    if stack == [] then 0 else Nodes(stack[|stack| - 1].value) + Pending(stack[..|stack| - 1])
  }

  predicate AllFitAt(vs: seq<Value>, depth: nat) {
    forall i :: 0 <= i < |vs| ==> Fits(Entry(vs[i], depth))
  }

  lemma {:induction false} ChildrenFit(vs: seq<Value>, depth: nat)
    requires depth >= 1
    ensures AllFitAt(vs, depth) <==> AllStrict(vs) && (vs == [] || depth - 1 + DepthOfAll(vs) <= MAX_DEPTH)
  {
    if vs != [] {
      ChildrenFit(vs[1..], depth);
      assert vs == [vs[0]] + vs[1..];
      assert AllFitAt(vs, depth) <==> Fits(Entry(vs[0], depth)) && AllFitAt(vs[1..], depth);
    }
  }

  /** What is checked of a popped entry at once. */
  predicate PassesAlone(e: Entry) {
    && e.depth <= MAX_DEPTH && !e.value.Other? && (e.value.Number? ==> e.value.finite)
    && (e.value.Array? || e.value.Object? ==> e.value.plain)
  }

  /** An entry fits when it passes alone and what it pushes fits. */
  lemma EntryFits(e: Entry)
    requires e.depth >= 1
    ensures Fits(e) <==> PassesAlone(e) && AllFitAt(Children(e.value), e.depth + 1)
    ensures Nodes(e.value) == 1 + NodesOfAll(Children(e.value))
  {
    var vs := Children(e.value);
    ChildrenFit(vs, e.depth + 1);
    assert Depth(e.value) == 1 + DepthOfAll(vs);
    assert e.value.Array? || e.value.Object? ==> (Strict(e.value) <==> e.value.plain && AllStrict(vs));
    assert DepthOfAll([]) == 0;
  }

  lemma PendingPush(stack: seq<Entry>, e: Entry)
    ensures Pending(stack + [e]) == Nodes(e.value) + Pending(stack)
    ensures AllFit(stack + [e]) <==> AllFit(stack) && Fits(e)
  {
    var next := stack + [e];
    assert next[..|stack|] == stack;
    assert next[|stack|] == e && forall i :: 0 <= i < |stack| ==> next[i] == stack[i];
  }

  lemma {:induction false} NodesSnoc(vs: seq<Value>, n: nat)
    requires n < |vs|
    ensures NodesOfAll(vs[..n + 1]) == NodesOfAll(vs[..n]) + Nodes(vs[n])
  {
    if n == 0 {
      assert vs[..1] == [vs[0]] && vs[..1][1..] == [];
      assert vs[..0] == [];
    } else {
      NodesSnoc(vs[1..], n - 1);
      assert vs[..n + 1][1..] == vs[1..][..n] && vs[..n][1..] == vs[1..][..n - 1];
    }
  }

  /** Lines 40 to 43 push the items of an array from the last to the first. */
  method PushBackwards(stack: seq<Entry>, items: seq<Value>, depth: nat) returns (pushed: seq<Entry>)
    requires EachDeep(stack) && depth >= 1
    ensures EachDeep(pushed) && Pending(pushed) == Pending(stack) + NodesOfAll(items)
    ensures AllFit(pushed) <==> AllFit(stack) && AllFitAt(items, depth)
  {
    pushed := stack;
    var index := |items|;
    assert items[..|items|] == items;
    while index > 0
      invariant 0 <= index <= |items| && EachDeep(pushed)
      invariant Pending(pushed) + NodesOfAll(items[..index]) == Pending(stack) + NodesOfAll(items)
      invariant AllFit(pushed) <==> AllFit(stack) && AllFitAt(items[index..], depth)
    {
      index := index - 1;
      PendingPush(pushed, Entry(items[index], depth));
      NodesSnoc(items, index);
      FitsAtFirst(items[index..], depth);
      assert items[index..][1..] == items[index + 1..];
      pushed := pushed + [Entry(items[index], depth)];
    }
    assert items[0..] == items;
  }

  lemma FitsAtFirst(vs: seq<Value>, depth: nat)
    requires vs != []
    ensures AllFitAt(vs, depth) <==> Fits(Entry(vs[0], depth)) && AllFitAt(vs[1..], depth)
  {
    assert vs == [vs[0]] + vs[1..];
  }

  predicate EachDeep(stack: seq<Entry>) {
    forall i :: 0 <= i < |stack| ==> stack[i].depth >= 1
  }

  /** Lines 48 to 55 push the values of an object from the first to the last. */
  method PushForwards(stack: seq<Entry>, items: seq<Value>, depth: nat) returns (pushed: seq<Entry>)
    requires EachDeep(stack) && depth >= 1
    ensures EachDeep(pushed) && Pending(pushed) == Pending(stack) + NodesOfAll(items)
    ensures AllFit(pushed) <==> AllFit(stack) && AllFitAt(items, depth)
  {
    pushed := stack;
    var index := 0;
    while index < |items|
      invariant 0 <= index <= |items| && EachDeep(pushed)
      invariant Pending(pushed) + NodesOfAll(items[index..]) == Pending(stack) + NodesOfAll(items)
      invariant AllFit(pushed) && AllFitAt(items[index..], depth) <==> AllFit(stack) && AllFitAt(items, depth)
    {
      PendingPush(pushed, Entry(items[index], depth));
      FitsAtFirst(items[index..], depth);
      assert items[index..][1..] == items[index + 1..];
      pushed := pushed + [Entry(items[index], depth)];
      index := index + 1;
    }
  }

  /** Lines 32 to 55, one entry. */
  method Visit(current: Entry, rest: seq<Entry>) returns (ok: bool, stack: seq<Entry>)
    requires EachDeep(rest) && current.depth >= 1 && current.depth <= MAX_DEPTH
    ensures ok <==> PassesAlone(current)
    ensures ok ==> EachDeep(stack) && Pending(stack) == Pending(rest) + NodesOfAll(Children(current.value))
    ensures ok ==> (AllFit(stack) <==> AllFit(rest) && AllFitAt(Children(current.value), current.depth + 1))
  {
    ok, stack := true, rest;
    match current.value {
      case Null =>
      case Bool(_) =>
      case Text(_) =>
      case Number(finite) => ok := finite;
      case Array(plain, items) =>
        ok := plain;
        if ok {
          stack := PushBackwards(rest, items, current.depth + 1);
        }
      case Object(plain, _, items) =>
        ok := plain;
        if ok {
          stack := PushForwards(rest, items, current.depth + 1);
        }
      case Other => ok := false;
    }
  }

  /** `isStrictJsonValue`, lines 24 to 58. */
  method IsStrictJsonValue(root: Value) returns (ok: bool)
    ensures ok <==> Strict(root) && Depth(root) <= MAX_DEPTH && Nodes(root) <= MAX_NODES
  {
    var nodes := 0;
    var stack := [Entry(root, 1)];
    PendingPush([], Entry(root, 1));
    assert [] + [Entry(root, 1)] == stack;
    while stack != []
      invariant EachDeep(stack) && nodes <= MAX_NODES
      invariant nodes + Pending(stack) == Nodes(root)
      invariant AllFit(stack) <==> Fits(Entry(root, 1))
      decreases Pending(stack)
    {
      var current := stack[|stack| - 1];
      var rest := stack[..|stack| - 1];
      assert stack == rest + [current];
      PendingPush(rest, current);
      EntryFits(current);
      nodes := nodes + 1;
      if nodes > MAX_NODES || current.depth > MAX_DEPTH {
        return false;
      }
      var passes, next := Visit(current, rest);
      if !passes {
        return false;
      }
      stack := next;
    }
    ok := true;
  }

  // -----------------------------------------------------------------------
  // The strings
  // -----------------------------------------------------------------------

  function LeavesOfStack(stack: seq<Value>): seq<string> {
    if stack == [] then [] else Leaves(stack[|stack| - 1]) + LeavesOfStack(stack[..|stack| - 1])
  }

  function NodesOfStack(stack: seq<Value>): nat {
    if stack == [] then 0 else Nodes(stack[|stack| - 1]) + NodesOfStack(stack[..|stack| - 1])
  }

  /** Pushing the items from the last to the first leaves the first on top. */
  method PushItems(stack: seq<Value>, items: seq<Value>) returns (pushed: seq<Value>)
    ensures LeavesOfStack(pushed) == LeavesOfAll(items) + LeavesOfStack(stack)
    ensures NodesOfStack(pushed) == NodesOfAll(items) + NodesOfStack(stack)
  {
    pushed := stack;
    var index := |items|;
    while index > 0
      invariant 0 <= index <= |items|
      invariant LeavesOfStack(pushed) == LeavesOfAll(items[index..]) + LeavesOfStack(stack)
      invariant NodesOfStack(pushed) == NodesOfAll(items[index..]) + NodesOfStack(stack)
    {
      index := index - 1;
      assert items[index..][1..] == items[index + 1..];
      assert (pushed + [items[index]])[..|pushed|] == pushed;
      pushed := pushed + [items[index]];
    }
    assert items[0..] == items;
  }

  /** `stringLeavesDepthFirst`, lines 122 to 138. */
  method StringLeavesDepthFirst(root: Value) returns (leaves: seq<string>)
    ensures leaves == Leaves(root)
  {
    leaves := [];
    var stack := [root];
    assert stack[..0] == [];
    while stack != []
      invariant leaves + LeavesOfStack(stack) == Leaves(root)
      decreases NodesOfStack(stack)
    {
      var value, rest := stack[|stack| - 1], stack[..|stack| - 1];
      stack := rest;
      match value {
        case Text(s) => leaves := leaves + [s];
        case Array(_, items) => stack := PushItems(rest, items);
        case Object(_, _, items) => stack := PushItems(rest, items);
        case _ =>
      }
    }
  }
}
