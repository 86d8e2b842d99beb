/**
 The bound on a JSON value's depth, nodes and weight: what it means, and the stack loop that
 checks it without recursion.
 */
module JsonBounds {
  import opened Wrappers
  import opened Snapshots
  import opened SortedPaths

  const MAX_FRAME_BYTES: nat := 32768
  const MAX_DEPTH: nat := 8
  const MAX_NODES: nat := 4096

  /**
   A decoded JSON value.  An object's keys stand in sorted order, once each; `Other` is any value
   JSON does not have.
   */
  datatype Json =
    | Null
    | Bool(b: bool)
    | Int(n: int)
    | Float(finite: bool, bits: int)
    | Str(s: string)
    | List(items: seq<Json>)
    | Dict(keys: seq<string>, values: seq<Json>)
    | Other

  function Children(v: Json): (c: seq<Json>)
    ensures forall k :: 0 <= k < |c| ==> c[k] < v
  {
    match v
    case List(items) => items
    case Dict(_, values) => values
    case _ => []
  }

  // ----- objects -----

  /** The canonical form of a decoded value: every object lists its keys in order, one value to each. */
  predicate Proper(v: Json) {
    match v
    case List(items) => forall k :: 0 <= k < |items| ==> Proper(items[k])
    case Dict(keys, values) =>
      |keys| == |values| && StrictlySorted(keys) && forall k :: 0 <= k < |values| ==> Proper(values[k])
    case _ => true
  }

  /** The value under a key, if the object has it. */
  function Field(v: Json, name: string): Option<Json>
    requires v.Dict?
  {
    FieldFrom(v.keys, v.values, name)
  }

  function FieldFrom(keys: seq<string>, values: seq<Json>, name: string): Option<Json> {
    if keys == [] || values == [] then None
    else if keys[0] == name then Some(values[0])
    else FieldFrom(keys[1..], values[1..], name)
  }

  /** A key of a canonical object has its own value. */
  lemma {:induction false} FieldAt(keys: seq<string>, values: seq<Json>, i: nat)
    requires i < |keys| == |values| && StrictlySorted(keys)
    ensures FieldFrom(keys, values, keys[i]) == Some(values[i])
  {
    if i > 0 {
      LessTotal(keys[0], keys[i]);
      FieldAt(keys[1..], values[1..], i - 1);
    }
  }

  function KeySet(v: Json): set<string>
    requires v.Dict?
  {
    set k | k in v.keys
  }

  // ----- what a value costs -----

  function KeysWeight(keys: seq<string>): nat {
    if keys == [] then 0 else |keys[0]| + 3 + KeysWeight(keys[1..])
  }

  /** What a value costs by itself, its children aside. */
  function OwnWeight(v: Json): nat {
    1 + match v
        case Dict(keys, _) => KeysWeight(keys)
        case Str(s) => |s| + 2
        case Int(_) => 20
        case Float(_, _) => 32
        case Null => 5
        case Bool(_) => 5
        case _ => 0
  }

  predicate OwnFine(v: Json) {
    match v
    case Int(n) => -0x8000_0000_0000_0000 <= n < 0x8000_0000_0000_0000
    case Float(finite, _) => finite
    case Other => false
    case _ => true
  }

  // ----- the recursive meaning -----

  function Nodes(v: Json): nat {
    match v
    case List(items) => 1 + NodesAll(items)
    case Dict(_, values) => 1 + NodesAll(values)
    case _ => 1
  }

  function NodesAll(vs: seq<Json>): nat {
    if vs == [] then 0 else Nodes(vs[0]) + NodesAll(vs[1..])
  }

  function Weight(v: Json): nat {
    match v
    case List(items) => OwnWeight(v) + WeightAll(items)
    case Dict(_, values) => OwnWeight(v) + WeightAll(values)
    case _ => OwnWeight(v)
  }

  function WeightAll(vs: seq<Json>): nat {
    if vs == [] then 0 else Weight(vs[0]) + WeightAll(vs[1..])
  }

  /** Every scalar is representable and nothing lies deeper than `room` levels below. */
  predicate FineWithin(v: Json, room: int) {
    match v
    case List(items) => room >= 0 && FineAll(items, room - 1)
    case Dict(_, values) => room >= 0 && FineAll(values, room - 1)
    case _ => room >= 0 && OwnFine(v)
  }

  predicate FineAll(vs: seq<Json>, room: int) {
    vs == [] || (FineWithin(vs[0], room) && FineAll(vs[1..], room))
  }

  /** What the bound accepts. */
  predicate Bounded(v: Json) {
    FineWithin(v, MAX_DEPTH) && Nodes(v) <= MAX_NODES && Weight(v) <= MAX_FRAME_BYTES
  }

  // ----- the stack -----

  datatype Item = Item(value: Json, depth: nat)

  function Push(vs: seq<Json>, depth: nat): seq<Item> {
    if vs == [] then [] else [Item(vs[0], depth)] + Push(vs[1..], depth)
  }

  function StackNodes(stack: seq<Item>): nat {
    if stack == [] then 0 else Nodes(stack[0].value) + StackNodes(stack[1..])
  }

  function StackWeight(stack: seq<Item>): nat {
    if stack == [] then 0 else Weight(stack[0].value) + StackWeight(stack[1..])
  }

  predicate StackFine(stack: seq<Item>) {
    stack == [] || (FineWithin(stack[0].value, MAX_DEPTH - stack[0].depth) && StackFine(stack[1..]))
  }

  lemma {:induction false} StackConcat(a: seq<Item>, b: seq<Item>)
    ensures StackNodes(a + b) == StackNodes(a) + StackNodes(b)
    ensures StackWeight(a + b) == StackWeight(a) + StackWeight(b)
    ensures StackFine(a + b) <==> StackFine(a) && StackFine(b)
  {
    hide Nodes, Weight, FineWithin;
    if a == [] {
      assert a + b == b;
    } else {
      assert (a + b)[1..] == a[1..] + b;
      StackConcat(a[1..], b);
    }
  }

  lemma {:induction false} PushMeans(vs: seq<Json>, depth: nat)
    ensures StackNodes(Push(vs, depth)) == NodesAll(vs)
    ensures StackWeight(Push(vs, depth)) == WeightAll(vs)
    ensures StackFine(Push(vs, depth)) <==> FineAll(vs, MAX_DEPTH - depth)
  {
    hide Nodes, Weight, FineWithin;
    if vs != [] {
      PushMeans(vs[1..], depth);
      assert Push(vs, depth)[1..] == Push(vs[1..], depth);
    }
  }

  lemma OneItem(item: Item)
    ensures StackNodes([item]) == Nodes(item.value) && StackWeight([item]) == Weight(item.value)
    ensures StackFine([item]) <==> FineWithin(item.value, MAX_DEPTH - item.depth)
  {
    hide Nodes, Weight, FineWithin;
    assert [item][1..] == [];
  }

  /** Taking an item apart: itself and its children, one level deeper. */
  lemma TakeApart(item: Item)
    ensures var below := Push(Children(item.value), item.depth + 1);
      && Nodes(item.value) == 1 + StackNodes(below)
      && Weight(item.value) == OwnWeight(item.value) + StackWeight(below)
      && (FineWithin(item.value, MAX_DEPTH - item.depth)
          <==> item.depth <= MAX_DEPTH && OwnFine(item.value) && StackFine(below))
  {
    PushMeans(Children(item.value), item.depth + 1);
    hide OwnWeight;
  }

  lemma {:induction false} NodesAtLeast(vs: seq<Json>)
    ensures NodesAll(vs) >= |vs|
  {
    if vs != [] {
      NodesAtLeast(vs[1..]);
    }
  }

  lemma {:induction false} KeysWeightMonotone(keys: seq<string>, n: nat)
    requires n <= |keys|
    ensures KeysWeight(keys[..n]) <= KeysWeight(keys)
    ensures n < |keys| ==> KeysWeight(keys[..n + 1]) == KeysWeight(keys[..n]) + |keys[n]| + 3
  {
    if n > 0 {
      KeysWeightMonotone(keys[1..], n - 1);
      assert keys[..n][1..] == keys[1..][..n - 1];
      if n < |keys| {
        assert keys[..n + 1][1..] == keys[1..][..n];
      }
    } else if keys != [] {
      assert keys[..1] == [keys[0]] && [keys[0]][1..] == [];
    }
  }

  /** Charge the keys of an object, refusing one longer than a frame. */
  method ChargeKeys(keys: seq<string>, start: nat) returns (ok: bool, budget: nat)
    ensures ok ==> budget == start + KeysWeight(keys)
    ensures !ok ==> KeysWeight(keys) > MAX_FRAME_BYTES
  {
    budget := start;
    for n := 0 to |keys|
      invariant budget == start + KeysWeight(keys[..n])
    {
      KeysWeightMonotone(keys, n);
      KeysWeightMonotone(keys, n + 1);
      if |keys[n]| > MAX_FRAME_BYTES {
        return false, budget;
      }
      budget := budget + |keys[n]| + 3;
    }
    assert keys[..|keys|] == keys;
    return true, budget;
  }

  /** Charge one value for itself, refusing what JSON or a 64-bit integer cannot hold. */
  method Charge(v: Json, start: nat) returns (ok: bool, budget: nat)
    ensures ok ==> OwnFine(v) && budget + 1 == start + OwnWeight(v)
    ensures !ok ==> !OwnFine(v) || OwnWeight(v) > MAX_FRAME_BYTES
  {
    ok, budget := true, start;
    match v {
      case Dict(keys, _) =>
        ok, budget := ChargeKeys(keys, start);
      case List(_) =>
      case Str(s) =>
        budget := start + |s| + 2;
      case Int(n) =>
        if !(-9223372036854775808 <= n < 9223372036854775808) {
          return false, start;
        }
        budget := start + 20;
      case Float(finite, _) =>
        if !finite {
          return false, start;
        }
        budget := start + 32;
      case Null =>
        budget := start + 5;
      case Bool(_) =>
        budget := start + 5;
      case Other =>
        return false, start;
    }
  }

  /** The iterative check: it accepts exactly the values within the recursive bound. */
  method Tree(value: Json) returns (ok: bool)
    ensures ok == Bounded(value)
  {
    hide Nodes, NodesAll, Weight, WeightAll, FineWithin, FineAll, OwnWeight, OwnFine, StackNodes, StackWeight, StackFine,
         KeysWeight, Push, Children;
    var stack := [Item(value, 0)];
    OneItem(stack[0]);
    var count: nat, budget: nat := 0, 0;
    while stack != []
      invariant count + StackNodes(stack) == Nodes(value)
      invariant budget + StackWeight(stack) == Weight(value)
      invariant FineWithin(value, MAX_DEPTH) <==> StackFine(stack)
      invariant count <= MAX_NODES && budget <= MAX_FRAME_BYTES
      decreases StackNodes(stack)
    {
      var item, rest := stack[|stack| - 1], stack[..|stack| - 1];
      assert stack == rest + [item];
      StackConcat(rest, [item]);
      OneItem(item);
      TakeApart(item);
      var below := Push(Children(item.value), item.depth + 1);
      stack := rest;
      count := count + 1;
      budget := budget + 1;
      if item.depth > MAX_DEPTH || count > MAX_NODES {
        return false;
      }
      if item.value.Dict? || item.value.List? {
        ManyChildren(item);
        if |Children(item.value)| > MAX_NODES {
          return false;
        }
      }
      var fits: bool;
      fits, budget := Charge(item.value, budget);
      if !fits {
        return false;
      }
      StackConcat(rest, below);
      stack := rest + below;
      if budget > MAX_FRAME_BYTES {
        return false;
      }
    }
    EmptyStack();
    return true;
  }

  lemma EmptyStack()
    ensures StackNodes([]) == 0 && StackWeight([]) == 0 && StackFine([])
  {
  }

  lemma ManyChildren(item: Item)
    ensures |Children(item.value)| <= StackNodes(Push(Children(item.value), item.depth + 1))
  {
    PushMeans(Children(item.value), item.depth + 1);
    NodesAtLeast(Children(item.value));
  }
}
