/**
 `Canonicalize` over Go values: maps, slices and pointers are nodes of a heap,
 shared or cyclic, and a set of addresses under visit guards the traversal.
 */
module GoHeap {
  import opened Basics
  import opened Json
  import opened JsonNumber
  import opened JsonString
  import opened KeyOrder
  import opened Numerals
  import Base64
  import Utf8

  type Addr = nat

  /** A Go value as `reflect` shows it to the printer. */
  datatype GoValue =
    | Nil
    | NilMap
    | Bool(b: bool)
    | Number(lexeme: GoString)
    | Int(i: int)
    | Text(s: GoString)
    | Bytes(bs: seq<byte>)
    | Ref(addr: Addr)

  datatype Cell =
    | Pointee(target: GoValue)
    | Slice(items: seq<GoValue>)
    | Mapping(members: map<GoString, GoValue>)

  /** Distinct nodes have distinct addresses. */
  type Heap = map<Addr, Cell>

  /** The JSON leaf for a value without an address. */
  function Leaf(v: GoValue): Json
    requires !v.Ref?
  {
    match v
    case Nil => Null
    case NilMap => Obj(map[])
    case Bool(b) => Boolean(b)
    case Number(lexeme) => Num(lexeme)
    case Int(i) => Num(IntText(i))
    case Text(s) => Str(s)
    case Bytes(bs) => Str(Base64.Std(bs))
  }

  // ---------- the traversal as a function of the visiting set ----------

  /** The bytes or the error for `v` when the nodes in `visiting` are being printed. */
  function CanonGraph(h: Heap, v: GoValue, visiting: set<Addr>): Result<GoString>
    decreases h.Keys - visiting, 0
  {
    if !v.Ref? then Canon(Leaf(v))
    else if v.addr in visiting then Err(CyclicValue)
    else if v.addr !in h then Err(DanglingAddress)
    else
      assert h.Keys - (visiting + {v.addr}) < h.Keys - visiting by {
        assert v.addr in h.Keys - visiting;
      }
      CanonCell(h, h[v.addr], visiting + {v.addr})
  }

  function CanonCell(h: Heap, c: Cell, visiting: set<Addr>): Result<GoString>
    decreases h.Keys - visiting, 3
  {
    match c
    case Pointee(target) => CanonGraph(h, target, visiting)
    case Slice(items) => Prepend([OPEN_ARRAY], GraphItems(h, items, true, visiting))
    case Mapping(members) =>
      if !AllValid(members.Keys) then Err(InvalidUtf8)
      else Prepend([OPEN_OBJECT], GraphMembers(h, members, SortedKeys(members.Keys), true, visiting))
  }

  function GraphItems(h: Heap, items: seq<GoValue>, first: bool, visiting: set<Addr>): Result<GoString>
    decreases h.Keys - visiting, 1, |items|
  {
    if items == [] then Ok([CLOSE_ARRAY])
    else
      var head :- CanonGraph(h, items[0], visiting);
      Prepend(Separator(first) + head, GraphItems(h, items[1..], false, visiting))
  }

  function GraphMembers(h: Heap, members: map<GoString, GoValue>, keys: seq<GoString>, first: bool,
                              visiting: set<Addr>): Result<GoString>
    requires forall k :: k in keys ==> k in members
    decreases h.Keys - visiting, 1, |keys|
  {
    if keys == [] then Ok([CLOSE_OBJECT])
    else
      var key :- Quote(keys[0]);
      var value :- CanonGraph(h, members[keys[0]], visiting);
      Prepend(Separator(first) + key + [COLON] + value, GraphMembers(h, members, keys[1..], false, visiting))
  }

  // ---------- the traversal as the source runs it ----------

  lemma PrependTwice(a: GoString, b: GoString, r: Result<GoString>)
    ensures Prepend(a, Prepend(b, r)) == Prepend(a + b, r)
  {
    if r.Ok? {
      assert a + (b + r.value) == a + b + r.value;
    }
  }

  /** The printer with its mutable set of addresses under visit. */
  class Canonicalizer {
    const heap: Heap
    var visiting: set<Addr>

    constructor (heap: Heap)
      ensures this.heap == heap && visiting == {}
    {
      this.heap := heap;
      visiting := {};
    }

    method CanonicalizeValue(value: GoValue) returns (r: Result<GoString>)
      modifies this
      ensures r == CanonGraph(heap, value, old(visiting))
      ensures visiting == old(visiting)
      decreases heap.Keys - visiting, 0
    {
      var v := value;
      var entered: set<Addr> := {};
      while v.Ref? && v.addr in heap && heap[v.addr].Pointee?
        invariant entered !! old(visiting) && visiting == old(visiting) + entered
        invariant CanonGraph(heap, value, old(visiting)) == CanonGraph(heap, v, visiting)
        decreases heap.Keys - visiting
      {
        if v.addr in visiting {
          visiting := visiting - entered;
          return Err(CyclicValue);
        }
        assert v.addr in heap.Keys - visiting;
        entered := entered + {v.addr};
        visiting := visiting + {v.addr};
        v := heap[v.addr].target;
      }
      if !v.Ref? {
        r := CanonicalLeaf(v);
      } else if v.addr in visiting {
        r := Err(CyclicValue);
      } else if v.addr !in heap {
        r := Err(DanglingAddress);
      } else {
        assert v.addr in heap.Keys - visiting;
        entered := entered + {v.addr};
        visiting := visiting + {v.addr};
        match heap[v.addr]
        case Slice(items) => r := CanonicalArray(items);
        case Mapping(members) => r := CanonicalMap(members);
      }
      visiting := visiting - entered;
    }

    method CanonicalArray(items: seq<GoValue>) returns (r: Result<GoString>)
      modifies this
      ensures r == Prepend([OPEN_ARRAY], GraphItems(heap, items, true, old(visiting)))
      ensures visiting == old(visiting)
      decreases heap.Keys - visiting, 1
    {
      var out: GoString := [OPEN_ARRAY];
      for i := 0 to |items|
        invariant visiting == old(visiting)
        invariant Prepend([OPEN_ARRAY], GraphItems(heap, items, true, visiting))
                  == Prepend(out, GraphItems(heap, items[i..], i == 0, visiting))
      {
        ghost var before := out;
        if i > 0 {
          out := out + [COMMA];
        }
        var item := CanonicalizeValue(items[i]);
        if item.Err? {
          return item;
        }
        out := out + item.value;
        assert items[i..][1..] == items[i + 1..];
        AppendItem(before, i == 0, item.value);
        PrependTwice(before, Separator(i == 0) + item.value, GraphItems(heap, items[i + 1..], false, visiting));
      }
      return Ok(out + [CLOSE_ARRAY]);
    }

    method CanonicalMap(members: map<GoString, GoValue>) returns (r: Result<GoString>)
      modifies this
      ensures r == CanonCell(heap, Mapping(members), old(visiting))
      ensures visiting == old(visiting)
      decreases heap.Keys - visiting, 2
    {
      var keys := CollectKeys(members);
      if keys.Err? {
        return Err(keys.error);
      }
      var sorted := SortKeys(keys.value);
      SortedMembers(members);
      r := WriteMembers(members, sorted);
    }

    /** The members in the order of `sorted`, between braces. */
    method WriteMembers(members: map<GoString, GoValue>, sorted: seq<GoString>) returns (r: Result<GoString>)
      requires forall k :: k in sorted ==> k in members
      modifies this
      ensures r == Prepend([OPEN_OBJECT], GraphMembers(heap, members, sorted, true, old(visiting)))
      ensures visiting == old(visiting)
      decreases heap.Keys - visiting, 1
    {
      var out: GoString := [OPEN_OBJECT];
      for i := 0 to |sorted|
        invariant visiting == old(visiting)
        invariant Prepend([OPEN_OBJECT], GraphMembers(heap, members, sorted, true, visiting))
                  == Prepend(out, GraphMembers(heap, members, sorted[i..], i == 0, visiting))
      {
        ghost var before := out;
        if i > 0 {
          out := out + [COMMA];
        }
        var key := CanonicalString(sorted[i]);
        if key.Err? {
          return key;
        }
        var value := CanonicalizeValue(members[sorted[i]]);
        if value.Err? {
          return value;
        }
        out := out + key.value + [COLON] + value.value;
        assert sorted[i..][1..] == sorted[i + 1..];
        ghost var text := Separator(i == 0) + key.value + [COLON] + value.value;
        AppendMember(before, i == 0, key.value, value.value);
        PrependTwice(before, text, GraphMembers(heap, members, sorted[i + 1..], false, visiting));
      }
      return Ok(out + [CLOSE_OBJECT]);
    }
  }

  lemma SortedMembers(members: map<GoString, GoValue>)
    requires AllValid(members.Keys)
    ensures forall k :: k in SortedKeys(members.Keys) ==> k in members
  {
    forall k | k in SortedKeys(members.Keys)
      ensures k in members
    {
      assert k in Elements(SortedKeys(members.Keys));
    }
  }

  /** `keys` enumerates the part of `all` that is not in `unread`. */
  ghost predicate Collected(keys: seq<GoString>, unread: set<GoString>, all: set<GoString>) {
    unread <= all && Distinct(keys) && Elements(keys) == all - unread && AllValid(Elements(keys))
  }

  lemma CollectNext(keys: seq<GoString>, unread: set<GoString>, all: set<GoString>, key: GoString)
    requires Collected(keys, unread, all) && key in unread && Utf8.Valid(key)
    ensures Collected(keys + [key], unread - {key}, all)
  {
    hide Utf8.Valid;
    assert key !in Elements(keys);
    assert Elements(keys + [key]) == Elements(keys) + {key};
  }

  lemma CollectEnds(keys: seq<GoString>, all: set<GoString>)
    ensures Collected([], all, all)
    ensures Collected(keys, {}, all) ==> Distinct(keys) && Elements(keys) == all && AllValid(all)
  {
    hide Utf8.Valid;
  }

  /** The keys of a map in whatever order the iteration yields them, if all are valid UTF-8. */
  method CollectKeys(members: map<GoString, GoValue>) returns (r: Result<seq<GoString>>)
    ensures r.Ok? <==> AllValid(members.Keys)
    ensures r.Ok? ==> Distinct(r.value) && Elements(r.value) == members.Keys
    ensures r.Err? ==> r.error == InvalidUtf8
  {
    hide Collected, Distinct, Elements, Utf8.Valid;
    var keys: seq<GoString> := [];
    var unread := members.Keys;
    CollectEnds(keys, members.Keys);
    while unread != {}
      invariant unread <= members.Keys && Collected(keys, unread, members.Keys)
      decreases |unread|
    {
      var key :| key in unread;
      if !Utf8.Valid(key) {
        return Err(InvalidUtf8);
      }
      CollectNext(keys, unread, members.Keys, key);
      keys := keys + [key];
      unread := unread - {key};
    }
    CollectEnds(keys, members.Keys);
    return Ok(keys);
  }

  lemma AppendItem(out: GoString, first: bool, item: GoString)
    ensures (if first then out else out + [COMMA]) + item == out + (Separator(first) + item)
  {
    assert (if first then out else out + [COMMA]) == out + Separator(first);
    Bracket([], out, Separator(first), item);
  }

  lemma AppendMember(out: GoString, first: bool, key: GoString, value: GoString)
    ensures (if first then out else out + [COMMA]) + key + [COLON] + value
            == out + (Separator(first) + key + [COLON] + value)
  {
    var s := Separator(first);
    assert (if first then out else out + [COMMA]) == out + s;
    Bracket([], out, s, key);
    Bracket([], out, s + key, [COLON]);
    Bracket([], out, s + key + [COLON], value);
  }

  lemma EmptyObject(t: Json)
    requires t.Obj? && t.members.Keys == {}
    ensures Canon(t) == Ok([OPEN_OBJECT, CLOSE_OBJECT])
  {
    var keys := SortedKeys(t.members.Keys);
    NoElements(keys);
    assert CanonMembers(t, keys, true) == Ok([CLOSE_OBJECT]);
    assert [OPEN_OBJECT] + [CLOSE_OBJECT] == [OPEN_OBJECT, CLOSE_OBJECT];
  }

  method CanonicalLeaf(v: GoValue) returns (r: Result<GoString>)
    requires !v.Ref?
    ensures r == Canon(Leaf(v))
  {
    match v
    case Nil => return Ok(NULL_TEXT);
    case NilMap =>
      EmptyObject(Leaf(NilMap));
      return Ok([OPEN_OBJECT, CLOSE_OBJECT]);
    case Bool(b) => return Ok(if b then TRUE_TEXT else FALSE_TEXT);
    case Number(lexeme) => return CanonicalNumber(lexeme);
    case Int(i) => return CanonicalNumber(IntText(i));
    case Text(s) => r := CanonicalString(s);
    case Bytes(bs) => r := CanonicalString(Base64.Std(bs));
  }

  // ---------- unfolding the graph into a tree ----------

  /** The tree that `v` unfolds into within `depth` steps, if there is one. */
  ghost function Unfold(h: Heap, v: GoValue, depth: nat): Option<Json>
    decreases depth
  {
    if !v.Ref? then Some(Leaf(v))
    else if depth == 0 || v.addr !in h then None
    else match h[v.addr]
      case Pointee(target) => Unfold(h, target, depth - 1)
      case Slice(items) =>
        if forall i :: 0 <= i < |items| ==> Unfold(h, items[i], depth - 1).Some?
        then Some(Arr(seq(|items|, i requires 0 <= i < |items| => Unfold(h, items[i], depth - 1).value)))
        else None
      case Mapping(members) =>
        if forall k :: k in members ==> Unfold(h, members[k], depth - 1).Some?
        then Some(Obj(map k | k in members :: Unfold(h, members[k], depth - 1).value))
        else None
  }

  /** More depth does not change a finished unfolding. */
  lemma {:induction false} UnfoldMonotone(h: Heap, v: GoValue, m: nat, n: nat)
    requires m <= n && Unfold(h, v, m).Some?
    ensures Unfold(h, v, n) == Unfold(h, v, m)
    decreases m
  {
    if v.Ref? {
      match h[v.addr]
      case Pointee(target) =>
        UnfoldMonotone(h, target, m - 1, n - 1);
      case Slice(items) =>
        forall i | 0 <= i < |items|
          ensures Unfold(h, items[i], n - 1) == Unfold(h, items[i], m - 1)
        {
          UnfoldMonotone(h, items[i], m - 1, n - 1);
        }
        assert Unfold(h, v, n).value.items == Unfold(h, v, m).value.items;
      case Mapping(members) =>
        forall k | k in members
          ensures Unfold(h, members[k], n - 1) == Unfold(h, members[k], m - 1)
        {
          UnfoldMonotone(h, members[k], m - 1, n - 1);
        }
        assert Unfold(h, v, n).value.members == Unfold(h, v, m).value.members;
    }
  }

  /** No node under visit unfolds within `depth` steps. */
  ghost predicate Above(h: Heap, visiting: set<Addr>, depth: nat) {
    forall a :: a in visiting ==> Unfold(h, Ref(a), depth).None?
  }

  lemma AboveLess(h: Heap, visiting: set<Addr>, depth: nat)
    requires depth > 0 && Above(h, visiting, depth)
    ensures Above(h, visiting, depth - 1)
  {
    forall a | a in visiting
      ensures Unfold(h, Ref(a), depth - 1).None?
    {
      if Unfold(h, Ref(a), depth - 1).Some? {
        UnfoldMonotone(h, Ref(a), depth - 1, depth);
      }
    }
  }

  /** A graph that unfolds prints as its unfolding, shared nodes and all. */
  lemma {:induction false} GraphPrintsTree(h: Heap, v: GoValue, visiting: set<Addr>, depth: nat)
    requires Unfold(h, v, depth).Some? && Above(h, visiting, depth)
    ensures CanonGraph(h, v, visiting) == Canon(Unfold(h, v, depth).value)
    decreases depth, 3
  {
    if v.Ref? {
      AboveLess(h, visiting, depth);
      if Unfold(h, v, depth - 1).Some? {
        UnfoldMonotone(h, v, depth - 1, depth);
        GraphPrintsTree(h, v, visiting, depth - 1);
      } else {
        var inside := visiting + {v.addr};
        assert v.addr !in visiting;
        assert Above(h, inside, depth - 1);
        hide Canon;
        assert CanonGraph(h, v, visiting) == CanonCell(h, h[v.addr], inside);
        CellPrintsTree(h, v.addr, inside, depth);
      }
    }
  }

  lemma {:induction false} CellPrintsTree(h: Heap, a: Addr, visiting: set<Addr>, depth: nat)
    requires depth > 0 && a in h && Unfold(h, Ref(a), depth).Some? && Above(h, visiting, depth - 1)
    ensures CanonCell(h, h[a], visiting) == Canon(Unfold(h, Ref(a), depth).value)
    decreases depth, 2
  {
    var t := Unfold(h, Ref(a), depth).value;
    match h[a]
    case Pointee(target) =>
      GraphPrintsTree(h, target, visiting, depth - 1);
    case Slice(items) =>
      ItemsPrintTree(h, items, t.items, true, visiting, depth - 1);
    case Mapping(members) =>
      assert t.members.Keys == members.Keys;
      if KeysValid(t) {
        SortedMembers(members);
        MembersPrintTree(h, members, t, SortedKeys(members.Keys), true, visiting, depth - 1);
      }
  }

  lemma {:induction false} ItemsPrintTree(h: Heap, items: seq<GoValue>, ts: seq<Json>, first: bool,
                                          visiting: set<Addr>, depth: nat)
    requires |items| == |ts| && Above(h, visiting, depth)
    requires forall i :: 0 <= i < |items| ==> Unfold(h, items[i], depth) == Some(ts[i])
    ensures GraphItems(h, items, first, visiting) == CanonItems(ts, first)
    decreases depth, 4, |items|
  {
    if items != [] {
      GraphPrintsTree(h, items[0], visiting, depth);
      ItemsPrintTree(h, items[1..], ts[1..], false, visiting, depth);
    }
  }

  lemma {:induction false} MembersPrintTree(h: Heap, members: map<GoString, GoValue>, t: Json, keys: seq<GoString>,
                                            first: bool, visiting: set<Addr>, depth: nat)
    requires t.Obj? && Above(h, visiting, depth)
    requires forall k :: k in keys ==> k in members && k in t.members
    requires forall k :: k in keys ==> Unfold(h, members[k], depth) == Some(t.members[k])
    ensures GraphMembers(h, members, keys, first, visiting) == CanonMembers(t, keys, first)
    decreases depth, 4, |keys|
  {
    if keys != [] {
      GraphPrintsTree(h, members[keys[0]], visiting, depth);
      MembersPrintTree(h, members, t, keys[1..], false, visiting, depth);
    }
  }

  // ---------- success means a finite unfolding ----------

  /** A graph that prints unfolds, within as many steps as there are nodes not under visit. */
  lemma {:induction false} PrintedUnfolds(h: Heap, v: GoValue, visiting: set<Addr>)
    requires CanonGraph(h, v, visiting).Ok?
    ensures Unfold(h, v, |h.Keys - visiting|).Some?
    decreases h.Keys - visiting, 0
  {
    if v.Ref? {
      var inside := visiting + {v.addr};
      assert v.addr in h.Keys - visiting;
      assert h.Keys - inside == (h.Keys - visiting) - {v.addr};
      var d := |h.Keys - inside|;
      assert |h.Keys - visiting| == d + 1;
      match h[v.addr]
      case Pointee(target) =>
        PrintedUnfolds(h, target, inside);
      case Slice(items) =>
        ItemsUnfold(h, items, true, inside);
      case Mapping(members) =>
        SortedMembers(members);
        MembersUnfold(h, members, SortedKeys(members.Keys), true, inside);
        forall k | k in members
          ensures Unfold(h, members[k], d).Some?
        {
          assert k in Elements(SortedKeys(members.Keys));
        }
    }
  }

  lemma {:induction false} ItemsUnfold(h: Heap, items: seq<GoValue>, first: bool, visiting: set<Addr>)
    requires GraphItems(h, items, first, visiting).Ok?
    ensures forall i :: 0 <= i < |items| ==> Unfold(h, items[i], |h.Keys - visiting|).Some?
    decreases h.Keys - visiting, 1, |items|
  {
    hide CanonGraph, Unfold;
    if items != [] {
      PrintedUnfolds(h, items[0], visiting);
      ItemsUnfold(h, items[1..], false, visiting);
      assert items == [items[0]] + items[1..];
    }
  }

  lemma {:induction false} MembersUnfold(h: Heap, members: map<GoString, GoValue>, keys: seq<GoString>, first: bool,
                                         visiting: set<Addr>)
    requires forall k :: k in keys ==> k in members
    requires GraphMembers(h, members, keys, first, visiting).Ok?
    ensures forall k :: k in keys ==> Unfold(h, members[k], |h.Keys - visiting|).Some?
    decreases h.Keys - visiting, 1, |keys|
  {
    if keys != [] {
      PrintedUnfolds(h, members[keys[0]], visiting);
      MembersUnfold(h, members, keys[1..], false, visiting);
    }
  }

  function Canonicalize(h: Heap, v: GoValue): Result<GoString> {
    CanonGraph(h, v, {})
  }

  /**
   `Canonicalize` succeeds exactly on graphs that unfold into a printable tree,
   and whenever the graph unfolds its outcome is that of the tree.
   */
  lemma CanonicalizeMeaning(h: Heap, v: GoValue)
    ensures Canonicalize(h, v).Ok? <==>
              exists depth: nat :: Unfold(h, v, depth).Some? && Canon(Unfold(h, v, depth).value).Ok?
    ensures forall depth: nat :: Unfold(h, v, depth).Some? ==>
              Canonicalize(h, v) == Canon(Unfold(h, v, depth).value)
  {
    forall depth: nat | Unfold(h, v, depth).Some?
      ensures Canonicalize(h, v) == Canon(Unfold(h, v, depth).value)
    {
      GraphPrintsTree(h, v, {}, depth);
    }
    if Canonicalize(h, v).Ok? {
      PrintedUnfolds(h, v, {});
    }
  }

  // ---------- cycles ----------

  ghost predicate Points(h: Heap, a: Addr, b: Addr) {
    a in h && match h[a]
              case Pointee(target) => target == Ref(b)
              case Slice(items) => Ref(b) in items
              case Mapping(members) => exists k :: k in members && members[k] == Ref(b)
  }

  /** Consecutive nodes of `path` point at one another. */
  ghost predicate IsPath(h: Heap, path: seq<Addr>) {
    path != [] && forall i :: 0 <= i < |path| - 1 ==> Points(h, path[i], path[i + 1])
  }

  lemma PointsUnfolds(h: Heap, a: Addr, b: Addr, depth: nat)
    requires Points(h, a, b) && Unfold(h, Ref(a), depth).Some?
    ensures depth > 0 && Unfold(h, Ref(b), depth - 1).Some?
  {
  }

  lemma {:induction false} PathUnfolds(h: Heap, path: seq<Addr>, depth: nat)
    requires IsPath(h, path) && Unfold(h, Ref(path[0]), depth).Some?
    ensures |path| - 1 <= depth && Unfold(h, Ref(path[|path| - 1]), depth - (|path| - 1)).Some?
  {
    if |path| > 1 {
      assert Points(h, path[0], path[0 + 1]);
      PointsUnfolds(h, path[0], path[1], depth);
      forall i | 0 <= i < |path[1..]| - 1
        ensures Points(h, path[1..][i], path[1..][i + 1])
      {
        assert Points(h, path[i + 1], path[i + 1 + 1]);
      }
      PathUnfolds(h, path[1..], depth - 1);
    }
  }

  /** A node that is reached from itself never unfolds. */
  lemma {:induction false} CycleNeverUnfolds(h: Heap, cycle: seq<Addr>, depth: nat)
    requires IsPath(h, cycle) && |cycle| > 1 && cycle[0] == cycle[|cycle| - 1]
    ensures Unfold(h, Ref(cycle[0]), depth).None?
    decreases depth
  {
    if Unfold(h, Ref(cycle[0]), depth).Some? {
      PathUnfolds(h, cycle, depth);
      CycleNeverUnfolds(h, cycle, depth - (|cycle| - 1));
    }
  }

  /** Whatever reaches a cycle is rejected. */
  lemma CycleRejected(h: Heap, path: seq<Addr>, cycle: seq<Addr>)
    requires IsPath(h, path) && IsPath(h, cycle)
    requires path[|path| - 1] == cycle[0]
    requires |cycle| > 1 && cycle[0] == cycle[|cycle| - 1]
    ensures Canonicalize(h, Ref(path[0])).Err?
  {
    hide Unfold, CanonGraph;
    if CanonGraph(h, Ref(path[0]), {}).Ok? {
      PrintedUnfolds(h, Ref(path[0]), {});
      var depth := |h.Keys - {}|;
      PathUnfolds(h, path, depth);
      CycleNeverUnfolds(h, cycle, depth - (|path| - 1));
    }
  }
}
