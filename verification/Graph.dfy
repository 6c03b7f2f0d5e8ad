/** The one-pass check of a captured node list, and what it means: the list is
    the preorder of one rooted tree.  Node payloads are not part of it. */
module Graph {
  import opened Common

  datatype Node = Node(id: string, parent: Option<string>, childIndex: Option<int>, depth: int, childCount: int)

  // ---- What is accepted ------------------------------------------------

  datatype Tree = Tree(id: string, kids: Forest)
  datatype Forest = Empty | Then(first: Tree, others: Forest)

  function Length(f: Forest): nat {
    match f
    case Empty => 0
    case Then(_, others) => 1 + Length(others)
  }

  /** A tree in depth-first order, parents before children. */
  function Listing(t: Tree, parent: Option<string>, childIndex: Option<int>, depth: nat): seq<Node>
    decreases t
  {
    [Node(t.id, parent, childIndex, depth, Length(t.kids))] + ListKids(t.id, t.kids, 0, depth + 1)
  }

  function ListKids(parent: string, kids: Forest, from: nat, depth: nat): seq<Node>
    decreases kids
  {
    match kids
    case Empty => []
    case Then(first, others) =>
      Listing(first, Some(parent), Some(from), depth) + ListKids(parent, others, from + 1, depth)
  }

  predicate DistinctIds(nodes: seq<Node>) {
    && (forall i :: 0 <= i < |nodes| ==> nodes[i].id != "")
    && (forall i, j :: 0 <= i < j < |nodes| ==> nodes[i].id != nodes[j].id)
  }

  ghost predicate IsTree(nodes: seq<Node>) {
    exists t: Tree :: nodes == Listing(t, None, None, 0)
  }

  // ---- The check, one node at a time -----------------------------------

  /** The identifiers met, those of the current ancestors, and children per parent. */
  datatype Walk = Walk(ids: set<string>, stack: seq<string>, counts: map<string, nat>)

  function Count(w: Walk, id: string): nat {
    if id in w.counts then w.counts[id] else 0
  }

  function NewWalk(): Walk {
    Walk({}, [], map[])
  }

  function Visit(w: Walk, n: Node): Option<Walk> {
    if n.id == "" || n.id in w.ids || n.depth < 0 || n.childCount < 0 then None
    else if n.depth == 0 then
      if w.ids != {} || n.parent.Some? || n.childIndex.Some? then None
      else Some(Walk({n.id}, [n.id], w.counts))
    else if n.parent.None? || n.childIndex.None? || n.childIndex.value < 0 then None
    else if |w.stack| < n.depth || w.stack[n.depth - 1] != n.parent.value then None
    else if n.childIndex.value != Count(w, n.parent.value) then None
    else Some(Walk(w.ids + {n.id}, w.stack[..n.depth] + [n.id],
                   w.counts[n.parent.value := Count(w, n.parent.value) + 1]))
  }

  function Run(w: Walk, nodes: seq<Node>): Option<Walk>
    decreases |nodes|
  {
    if nodes == [] then Some(w)
    else
      match Visit(w, nodes[0])
      case None => None
      case Some(next) => Run(next, nodes[1..])
  }

  predicate CountsAgree(w: Walk, nodes: seq<Node>) {
    forall n :: n in nodes ==> Count(w, n.id) == n.childCount
  }

  predicate Accepted(nodes: seq<Node>) {
    && nodes != [] && nodes[0].depth == 0
    && Run(NewWalk(), nodes).Some?
    && CountsAgree(Run(NewWalk(), nodes).value, nodes)
  }

  lemma {:induction false} RunAppend(w: Walk, a: seq<Node>, b: seq<Node>)
    ensures Run(w, a + b) == match Run(w, a) case None => None case Some(v) => Run(v, b)
    decreases |a|
  {
    if a == [] {
      assert a + b == b;
    } else {
      assert (a + b)[1..] == a[1..] + b;
      match Visit(w, a[0]) {
        case None =>
        case Some(next) => RunAppend(next, a[1..], b);
      }
    }
  }

  lemma RunOne(w: Walk, n: Node)
    ensures Run(w, [n]) == Visit(w, n)
  {
    assert [n][1..] == [];
  }

  // ---- A tree's listing is accepted ------------------------------------

  /** Distinct identifiers, none of them in use yet. */
  predicate Unused(nodes: seq<Node>, ids: set<string>) {
    DistinctIds(nodes) && forall n :: n in nodes ==> n.id !in ids
  }

  function Ids(nodes: seq<Node>): set<string> {
    set n | n in nodes :: n.id
  }

  lemma UnusedSplit(a: seq<Node>, b: seq<Node>, ids: set<string>)
    requires Unused(a + b, ids)
    ensures Unused(a, ids) && Unused(b, ids + Ids(a))
    ensures Ids(a + b) == Ids(a) + Ids(b)
  {
    forall i | 0 <= i < |a| ensures a[i].id != "" && a[i].id !in ids {
      assert (a + b)[i] == a[i];
    }
    forall i, j | 0 <= i < j < |a| ensures a[i].id != a[j].id {
      assert (a + b)[i] == a[i] && (a + b)[j] == a[j];
    }
    forall i | 0 <= i < |b| ensures b[i].id != "" && b[i].id !in ids + Ids(a) {
      assert (a + b)[|a| + i] == b[i];
      forall k | 0 <= k < |a| ensures a[k].id != b[i].id {
        assert (a + b)[k] == a[k];
      }
    }
    forall i, j | 0 <= i < j < |b| ensures b[i].id != b[j].id {
      assert (a + b)[|a| + i] == b[i] && (a + b)[|a| + j] == b[j];
    }
    forall n ensures n in a + b <==> n in a || n in b {
    }
  }

  /** How the walk stands after a family at `depth` below `parent` was listed. */
  predicate Passed(w: Walk, v: Walk, nodes: seq<Node>, parent: string, kids: nat, depth: nat) {
    && v.ids == w.ids + Ids(nodes)
    && depth <= |w.stack| && depth <= |v.stack| && v.stack[..depth] == w.stack[..depth]
    && Count(v, parent) == Count(w, parent) + kids
    && (forall id :: id in w.ids && id != parent ==> Count(v, id) == Count(w, id))
    && CountsAgree(v, nodes)
    && Counted(v)
  }

  /** Only identifiers already met have children, and only they are ancestors. */
  predicate Counted(w: Walk) {
    && w.counts.Keys <= w.ids
    && (forall i :: 0 <= i < |w.stack| ==> w.stack[i] in w.ids)
    && (forall i, j :: 0 <= i < j < |w.stack| ==> w.stack[i] != w.stack[j])
  }

  lemma ListingRuns(w: Walk, t: Tree, parent: string, from: nat, depth: nat) returns (v: Walk)
    requires Counted(w) && 0 < depth <= |w.stack| && w.stack[depth - 1] == parent && Count(w, parent) == from
    requires Unused(Listing(t, Some(parent), Some(from), depth), w.ids)
    ensures Run(w, Listing(t, Some(parent), Some(from), depth)) == Some(v)
    ensures Passed(w, v, Listing(t, Some(parent), Some(from), depth), parent, 1, depth)
    decreases t
  {
    var head := Node(t.id, Some(parent), Some(from), depth, Length(t.kids));
    var tail := ListKids(t.id, t.kids, 0, depth + 1);
    UnusedSplit([head], tail, w.ids);
    assert [head][0] == head && head in [head];
    assert head.id !in w.ids && head.id != "";
    var next := Visit(w, head).value;
    assert Ids([head]) == {head.id};
    NextCounted(w, head);
    v := ListKidsRun(next, t.id, t.kids, 0, depth + 1);
    RunAppend(w, [head], tail);
    RunOne(w, head);
    PassedOver(w, next, v, head, tail, parent, Length(t.kids), depth);
  }

  lemma NextCounted(w: Walk, n: Node)
    requires Counted(w) && Visit(w, n).Some? && n.depth > 0
    ensures var next := Visit(w, n).value;
            && Counted(next) && next.ids == w.ids + {n.id} && Count(next, n.id) == 0
            && |next.stack| == n.depth + 1 && next.stack[n.depth] == n.id
            && next.stack[..n.depth] == w.stack[..n.depth]
            && Count(next, n.parent.value) == Count(w, n.parent.value) + 1
            && (forall id :: id in w.ids && id != n.parent.value ==> Count(next, id) == Count(w, id))
  {
    assert w.stack[n.depth - 1] in w.ids;
  }

  lemma PassedOver(w: Walk, next: Walk, v: Walk, head: Node, tail: seq<Node>, parent: string, kids: nat, depth: nat)
    requires Counted(w) && Visit(w, head) == Some(next) && head.depth == depth > 0
    requires head.parent == Some(parent) && head.childCount == kids
    requires Passed(next, v, tail, head.id, kids, depth + 1)
    requires Unused(tail, next.ids)
    ensures Passed(w, v, [head] + tail, parent, 1, depth)
  {
    NextCounted(w, head);
    var nodes := [head] + tail;
    assert Ids(nodes) == {head.id} + Ids(tail) by {
      assert forall n :: n in nodes <==> n == head || n in tail;
    }
    assert w.stack[depth - 1] == parent && parent in w.ids;
    assert v.stack[..depth] == v.stack[..depth + 1][..depth] == next.stack[..depth + 1][..depth] == next.stack[..depth];
    forall n | n in nodes ensures Count(v, n.id) == n.childCount {
      if n !in tail {
        assert n == head;
      }
    }
  }

  lemma ListKidsRun(w: Walk, parent: string, kids: Forest, from: nat, depth: nat) returns (v: Walk)
    requires Counted(w) && 0 < depth <= |w.stack| && w.stack[depth - 1] == parent && Count(w, parent) == from
    requires Unused(ListKids(parent, kids, from, depth), w.ids)
    ensures Run(w, ListKids(parent, kids, from, depth)) == Some(v)
    ensures Passed(w, v, ListKids(parent, kids, from, depth), parent, Length(kids), depth)
    decreases kids
  {
    match kids {
      case Empty => v := w;
      case Then(first, others) =>
        var a := Listing(first, Some(parent), Some(from), depth);
        var b := ListKids(parent, others, from + 1, depth);
        UnusedSplit(a, b, w.ids);
        var u := ListingRuns(w, first, parent, from, depth);
        assert u.stack[depth - 1] == u.stack[..depth][depth - 1] == w.stack[..depth][depth - 1];
        v := ListKidsRun(u, parent, others, from + 1, depth);
        RunAppend(w, a, b);
        PassedTwice(w, u, v, a, b, parent, Length(others), depth);
    }
  }

  lemma PassedTwice(w: Walk, u: Walk, v: Walk, a: seq<Node>, b: seq<Node>, parent: string, kids: nat, depth: nat)
    requires Passed(w, u, a, parent, 1, depth) && Passed(u, v, b, parent, kids, depth)
    requires parent in w.ids && Unused(a, w.ids)
    ensures Passed(w, v, a + b, parent, 1 + kids, depth)
  {
    assert Ids(a + b) == Ids(a) + Ids(b) by {
      assert forall n :: n in a + b <==> n in a || n in b;
    }
    forall n | n in a + b ensures Count(v, n.id) == n.childCount {
      if n !in b {
        assert n in a && n.id in Ids(a);
      }
    }
  }

  lemma TreeIsAccepted(t: Tree)
    requires DistinctIds(Listing(t, None, None, 0))
    ensures Accepted(Listing(t, None, None, 0))
  {
    var head := Node(t.id, None, None, 0, Length(t.kids));
    var tail := ListKids(t.id, t.kids, 0, 1);
    var nodes := Listing(t, None, None, 0);
    assert nodes == [head] + tail && nodes[0] == head;
    UnusedSplit([head], tail, {});
    assert Ids([head]) == {head.id};
    var next := Visit(NewWalk(), head).value;
    var v := ListKidsRun(next, t.id, t.kids, 0, 1);
    RunAppend(NewWalk(), [head], tail);
    RunOne(NewWalk(), head);
    forall n | n in nodes ensures Count(v, n.id) == n.childCount {
      if n !in tail {
        assert n == head;
      }
    }
  }

  // ---- What is accepted is a tree's listing ----------------------------

  /** An identifier that has left the stack gets no more children. */
  lemma {:induction false} CountFrozen(w: Walk, nodes: seq<Node>, id: string)
    requires Counted(w) && Run(w, nodes).Some? && id in w.ids && id !in w.stack
    ensures Count(Run(w, nodes).value, id) == Count(w, id)
    decreases |nodes|
  {
    if nodes != [] {
      var n := nodes[0];
      assert n.depth != 0;
      NextCounted(w, n);
      assert w.stack[n.depth - 1] in w.stack;
      CountFrozen(Visit(w, n).value, nodes[1..], id);
    }
  }

  /** A finished node: whatever is listed next is not below it. */
  lemma CountFinal(w: Walk, nodes: seq<Node>, depth: nat)
    requires Counted(w) && Run(w, nodes).Some? && depth < |w.stack|
    requires nodes != [] ==> nodes[0].depth <= depth
    ensures Count(Run(w, nodes).value, w.stack[depth]) == Count(w, w.stack[depth])
  {
    if nodes != [] {
      var n, id := nodes[0], w.stack[depth];
      assert w.ids != {};
      assert n.depth != 0;
      NextCounted(w, n);
      assert w.stack[n.depth - 1] != id;
      var next := Visit(w, n).value;
      assert id !in next.stack by {
        forall i | 0 <= i < |next.stack| ensures next.stack[i] != id {
          if i < n.depth {
            assert next.stack[i] == next.stack[..n.depth][i] == w.stack[..n.depth][i] == w.stack[i];
          }
        }
      }
      CountFrozen(next, nodes[1..], id);
    }
  }

  /** Reads the children of `parent` off the front of a list that runs through. */
  lemma {:induction false} ReadKids(w: Walk, nodes: seq<Node>, parent: string, depth: nat, final: Walk)
    returns (kids: Forest, rest: seq<Node>, v: Walk)
    requires Counted(w) && Run(w, nodes) == Some(final) && CountsAgree(final, nodes)
    requires 0 < depth <= |w.stack| && w.stack[depth - 1] == parent
    requires nodes != [] ==> nodes[0].depth <= depth
    ensures nodes == ListKids(parent, kids, Count(w, parent), depth) + rest
    ensures rest != [] ==> rest[0].depth < depth
    ensures Counted(v) && Run(v, rest) == Some(final)
    ensures depth <= |v.stack| && v.stack[..depth] == w.stack[..depth]
    ensures w.ids <= v.ids
    ensures Count(v, parent) == Count(w, parent) + Length(kids)
    ensures forall id :: id in w.ids && id != parent ==> Count(v, id) == Count(w, id)
    ensures |rest| <= |nodes|
    decreases |nodes|
  {
    hide Visit, ListKids, Counted, CountsAgree;
    if nodes == [] || nodes[0].depth < depth {
      kids, rest, v := Empty, nodes, w;
      assert nodes == [] + rest == ListKids(parent, Empty, Count(w, parent), depth) + rest by {
        NoKids(parent, Count(w, parent), depth);
      }
    } else {
      var n, more := nodes[0], nodes[1..];
      var from := Count(w, parent);
      FrontVisit(w, nodes, parent, depth, final);
      var next := Visit(w, n).value;
      NextCounted(w, n);
      var own, after, u := ReadKids(next, more, n.id, depth + 1, final);
      OwnCount(n, next, u, after, final, own, depth);
      StackStep(w, next, u, depth);
      SuffixAgrees(final, ListKids(n.id, own, 0, depth + 1), after);
      var siblings;
      siblings, rest, v := ReadKids(u, after, parent, depth, final);
      kids := Then(Tree(n.id, own), siblings);
      Reassemble(nodes, n, more, own, after, siblings, rest, parent, from, depth);
    }
  }

  lemma NoKids(parent: string, from: nat, depth: nat)
    ensures ListKids(parent, Empty, from, depth) == []
  {
  }

  /** The front node is a child of `parent`, the next one. */
  lemma FrontVisit(w: Walk, nodes: seq<Node>, parent: string, depth: nat, final: Walk)
    requires Counted(w) && Run(w, nodes) == Some(final) && CountsAgree(final, nodes)
    requires nodes != [] && nodes[0].depth == depth
    requires 0 < depth <= |w.stack| && w.stack[depth - 1] == parent
    ensures Visit(w, nodes[0]).Some?
    ensures var n, more, next := nodes[0], nodes[1..], Visit(w, nodes[0]).value;
            && nodes == [n] + more
            && n == Node(n.id, Some(parent), Some(Count(w, parent)), depth, n.childCount)
            && Count(final, n.id) == n.childCount
            && Run(next, more) == Some(final) && CountsAgree(final, more)
            && (more != [] ==> more[0].depth <= |next.stack|)
            && n.id !in w.ids && parent in w.ids && n.id != parent
  {
    var next := Visit(w, nodes[0]).value;
    NextIsShallow(next, nodes[1..]);
    assert nodes[0] in nodes;
  }

  lemma SuffixAgrees(final: Walk, a: seq<Node>, b: seq<Node>)
    requires CountsAgree(final, a + b)
    ensures CountsAgree(final, b)
  {
    assert forall m :: m in b ==> m in a + b;
  }

  /** The next node is at most one level below the last. */
  lemma NextIsShallow(w: Walk, nodes: seq<Node>)
    requires Run(w, nodes).Some?
    ensures nodes != [] ==> nodes[0].depth <= |w.stack|
  {
  }

  lemma OwnCount(n: Node, next: Walk, u: Walk, after: seq<Node>, final: Walk, own: Forest, depth: nat)
    requires Counted(u) && Run(u, after) == Some(final) && Count(final, n.id) == n.childCount
    requires depth + 1 <= |u.stack| && |next.stack| == depth + 1 && next.stack[depth] == n.id
    requires u.stack[..depth + 1] == next.stack[..depth + 1]
    requires Count(next, n.id) == 0 && Count(u, n.id) == Count(next, n.id) + Length(own)
    requires after != [] ==> after[0].depth < depth + 1
    ensures n.childCount == Length(own)
  {
    assert u.stack[depth] == u.stack[..depth + 1][depth] == n.id;
    CountFinal(u, after, depth);
  }

  lemma StackStep(w: Walk, next: Walk, u: Walk, depth: nat)
    requires 0 < depth <= |w.stack| && depth + 1 <= |u.stack| && |next.stack| == depth + 1
    requires next.stack[..depth] == w.stack[..depth]
    requires u.stack[..depth + 1] == next.stack[..depth + 1]
    ensures u.stack[..depth] == w.stack[..depth] && u.stack[depth - 1] == w.stack[depth - 1]
  {
    assert u.stack[..depth] == u.stack[..depth + 1][..depth] == next.stack[..depth + 1][..depth] == next.stack[..depth];
    assert u.stack[depth - 1] == u.stack[..depth][depth - 1];
  }

  lemma Reassemble(nodes: seq<Node>, n: Node, more: seq<Node>, own: Forest, after: seq<Node>, siblings: Forest,
                   rest: seq<Node>, parent: string, from: nat, depth: nat)
    requires nodes == [n] + more
    requires n == Node(n.id, Some(parent), Some(from), depth, Length(own))
    requires more == ListKids(n.id, own, 0, depth + 1) + after
    requires after == ListKids(parent, siblings, from + 1, depth) + rest
    ensures nodes == ListKids(parent, Then(Tree(n.id, own), siblings), from, depth) + rest
  {
    var a := ListKids(n.id, own, 0, depth + 1);
    var b := ListKids(parent, siblings, from + 1, depth);
    Assoc([n], a, after);
    Assoc([n] + a, b, rest);
  }

  lemma AcceptedIsTree(nodes: seq<Node>)
    requires Accepted(nodes)
    ensures IsTree(nodes)
  {
    var n, more := nodes[0], nodes[1..];
    var next := Visit(NewWalk(), n).value;
    var final := Run(NewWalk(), nodes).value;
    assert CountsAgree(final, more);
    NextIsShallow(next, more);
    var kids, rest, v := ReadKids(next, more, n.id, 1, final);
    assert n.id in v.ids;
    if rest != [] {
      assert false;
    }
    assert rest == [] && more == ListKids(n.id, kids, 0, 1);
    assert n in nodes;
    assert v.stack[0] == v.stack[..1][0] == n.id;
    CountFinal(v, rest, 0);
    assert nodes == Listing(Tree(n.id, kids), None, None, 0);
  }

  lemma {:induction false} RunIsDistinct(w: Walk, nodes: seq<Node>)
    requires Run(w, nodes).Some?
    ensures Unused(nodes, w.ids)
    decreases |nodes|
  {
    if nodes != [] {
      var next := Visit(w, nodes[0]).value;
      RunIsDistinct(next, nodes[1..]);
      forall i | 0 <= i < |nodes| ensures nodes[i].id != "" && nodes[i].id !in w.ids {
        if i > 0 {
          assert nodes[i] == nodes[1..][i - 1] && nodes[1..][i - 1] in nodes[1..];
        }
      }
      forall i, j | 0 <= i < j < |nodes| ensures nodes[i].id != nodes[j].id {
        assert nodes[j] == nodes[1..][j - 1] && nodes[1..][j - 1] in nodes[1..];
        if i > 0 {
          assert nodes[i] == nodes[1..][i - 1];
        }
      }
    }
  }

  /** The check accepts exactly the preorder listings of trees with distinct,
      non-empty identifiers. */
  lemma AcceptedExactlyTrees(nodes: seq<Node>)
    ensures Accepted(nodes) <==> IsTree(nodes) && DistinctIds(nodes)
  {
    if Accepted(nodes) {
      AcceptedIsTree(nodes);
      RunIsDistinct(NewWalk(), nodes);
    }
    if IsTree(nodes) && DistinctIds(nodes) {
      var t :| nodes == Listing(t, None, None, 0);
      TreeIsAccepted(t);
    }
  }

  // ---- The loop that does it -------------------------------------------

  function IdsOf(stack: seq<Node>): seq<string> {
    seq(|stack|, i requires 0 <= i < |stack| => stack[i].id)
  }

  function Sizes(children: map<string, seq<int>>): map<string, nat> {
    map p | p in children :: |children[p]|
  }

  function ChildrenOf(children: map<string, seq<int>>, parent: string): seq<int> {
    if parent in children then children[parent] else []
  }

  lemma SizesAdd(children: map<string, seq<int>>, parent: string, index: int)
    ensures Sizes(children[parent := ChildrenOf(children, parent) + [index]])
         == Sizes(children)[parent := |ChildrenOf(children, parent)| + 1]
  {
  }

  /** Pops what is deeper than the node at hand. */
  method PopTo(stack: seq<Node>, depth: nat) returns (popped: seq<Node>)
    ensures popped == if |stack| > depth then stack[..depth] else stack
  {
    popped := stack;
    while |popped| > depth
      invariant |popped| <= |stack| && popped == stack[..|popped|]
      invariant |popped| >= depth || popped == stack
    {
      popped := popped[..|popped| - 1];
    }
  }

  /** The three containers of the loop, as the walk they stand for. */
  ghost function WalkOf(ids: set<string>, stack: seq<Node>, children: map<string, seq<int>>): Walk {
    Walk(ids, IdsOf(stack), Sizes(children))
  }

  method VisitNode(nodeIds: set<string>, stack: seq<Node>, childIndices: map<string, seq<int>>, offset: nat, node: Node)
    returns (ok: bool, newIds: set<string>, newStack: seq<Node>, newIndices: map<string, seq<int>>)
    requires nodeIds == {} <==> offset == 0
    ensures Visit(WalkOf(nodeIds, stack, childIndices), node)
         == if ok then Some(WalkOf(newIds, newStack, newIndices)) else None
    ensures ok ==> newIds != {}
  {
    ok, newIds, newStack, newIndices := false, nodeIds + {node.id}, stack, childIndices;
    if node.id == "" || node.id in nodeIds || node.depth < 0 || node.childCount < 0 {
      return;
    }
    if node.depth == 0 {
      if offset != 0 || node.parent.Some? || node.childIndex.Some? {
        return;
      }
      newStack := [node];
      assert nodeIds == {} ==> {} + {node.id} == {node.id};
      assert IdsOf([node]) == [node.id];
      ok := true;
      return;
    }
    if node.parent.None? || node.childIndex.None? || node.childIndex.value < 0 {
      return;
    }
    newStack := PopTo(stack, node.depth);
    if |newStack| != node.depth || newStack[|newStack| - 1].id != node.parent.value {
      return;
    }
    var siblings := ChildrenOf(childIndices, node.parent.value);
    if node.childIndex.value != |siblings| {
      return;
    }
    SizesAdd(childIndices, node.parent.value, node.childIndex.value);
    newIndices := childIndices[node.parent.value := siblings + [node.childIndex.value]];
    assert IdsOf(newStack) == IdsOf(stack)[..node.depth];
    assert IdsOf(newStack + [node]) == IdsOf(newStack) + [node.id];
    newStack := newStack + [node];
    ok := true;
  }

  method ValidateGraph(nodes: seq<Node>) returns (ok: bool)
    ensures ok <==> Accepted(nodes)
  {
    hide Visit;
    var nodeIds: set<string> := {};
    var stack: seq<Node> := [];
    var childIndices: map<string, seq<int>> := map[];
    assert IdsOf([]) == [] && Sizes(map[]) == map[] && nodes[0..] == nodes;
    for offset := 0 to |nodes|
      invariant nodeIds == {} <==> offset == 0
      invariant Run(NewWalk(), nodes) == Run(WalkOf(nodeIds, stack, childIndices), nodes[offset..])
    {
      assert nodes[offset..][0] == nodes[offset] && nodes[offset..][1..] == nodes[offset + 1..];
      ok, nodeIds, stack, childIndices := VisitNode(nodeIds, stack, childIndices, offset, nodes[offset]);
      if !ok {
        return;
      }
    }
    if nodes == [] || nodes[0].depth != 0 {
      return false;
    }
    ghost var final := WalkOf(nodeIds, stack, childIndices);
    for offset := 0 to |nodes|
      invariant Run(NewWalk(), nodes) == Some(final)
      invariant forall k :: 0 <= k < offset ==> Count(final, nodes[k].id) == nodes[k].childCount
    {
      if |ChildrenOf(childIndices, nodes[offset].id)| != nodes[offset].childCount {
        assert nodes[offset] in nodes && Count(final, nodes[offset].id) != nodes[offset].childCount;
        return false;
      }
    }
    ok := true;
  }
}
