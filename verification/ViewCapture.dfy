/** The traversal that lists a view hierarchy with an explicit stack. */
module ViewCapture {
  import opened Common
  import opened Graph

  datatype View = View(subviews: seq<View>)

  // ---- Names -----------------------------------------------------------

  function Digit(d: nat): char
    requires d < 10
  {
    ['0', '1', '2', '3', '4', '5', '6', '7', '8', '9'][d]
  }

  function Decimal(n: nat): (s: string)
    ensures |s| > 0
  {
    if n < 10 then [Digit(n)] else Decimal(n / 10) + [Digit(n % 10)]
  }

  lemma {:induction false} DecimalIsInjective(m: nat, n: nat)
    requires Decimal(m) == Decimal(n)
    ensures m == n
    decreases m
  {
    var a, b := Decimal(m), Decimal(n);
    assert a[|a| - 1] == Digit(m % 10) && b[|b| - 1] == Digit(n % 10);
    assert m % 10 == n % 10;
    if m >= 10 && n >= 10 {
      assert a[..|a| - 1] == Decimal(m / 10) && b[..|b| - 1] == Decimal(n / 10);
      DecimalIsInjective(m / 10, n / 10);
    }
  }

  function Name(n: nat): string {
    "view." + Decimal(n)
  }

  lemma NamesAreDecimal()
    ensures Name(0) == "view.0" && Name(9) == "view.9" && Name(10) == "view.10" && Name(1203) == "view.1203"
  {
    assert Decimal(1) == "1" && Decimal(12) == "12" && Decimal(120) == "120";
  }

  lemma NameIsInjective(m: nat, n: nat)
    requires Name(m) == Name(n)
    ensures m == n
  {
    assert Name(m)[5..] == Decimal(m) && Name(n)[5..] == Decimal(n);
    DecimalIsInjective(m, n);
  }

  // ---- Recursive preorder ----------------------------------------------

  function Size(v: View): (n: nat)
    ensures n > 0
    decreases v, |v.subviews|, 1
  {
    1 + SizeFrom(v, 0)
  }

  function SizeFrom(v: View, k: nat): nat
    requires k <= |v.subviews|
    decreases v, |v.subviews| - k, 0
  {
    if k == |v.subviews| then 0 else Size(v.subviews[k]) + SizeFrom(v, k + 1)
  }

  /** The tree a view hierarchy is, its nodes named in the order they are met. */
  function Labelled(v: View, first: nat): Tree
    decreases v, |v.subviews|, 1
  {
    Tree(Name(first), LabelledFrom(v, 0, first + 1))
  }

  function LabelledFrom(v: View, k: nat, first: nat): Forest
    requires k <= |v.subviews|
    decreases v, |v.subviews| - k, 0
  {
    if k == |v.subviews| then Empty
    else Then(Labelled(v.subviews[k], first), LabelledFrom(v, k + 1, first + Size(v.subviews[k])))
  }

  lemma LabelledLength(v: View, k: nat, first: nat)
    requires k <= |v.subviews|
    ensures Length(LabelledFrom(v, k, first)) == |v.subviews| - k
    decreases |v.subviews| - k
  {
    if k < |v.subviews| {
      LabelledLength(v, k + 1, first + Size(v.subviews[k]));
    }
  }

  datatype PendingView = PendingView(view: View, parent: Option<string>, childIndex: Option<int>, depth: nat)

  /** The listing of one pending view whose first node gets the given number. */
  function ListingOf(p: PendingView, first: nat): seq<Node> {
    Listing(Labelled(p.view, first), p.parent, p.childIndex, p.depth)
  }

  /** What is still to be listed: the top of the stack first. */
  function Remaining(pending: seq<PendingView>, first: nat): seq<Node>
    decreases |pending|
  {
    if pending == [] then []
    else
      var top := pending[|pending| - 1];
      ListingOf(top, first) + Remaining(pending[..|pending| - 1], first + Size(top.view))
  }

  function Weight(pending: seq<PendingView>): nat
    decreases |pending|
  {
    if pending == [] then 0
    else Size(pending[|pending| - 1].view) + Weight(pending[..|pending| - 1])
  }

  /** The subviews from `k` on, the first of them on top. */
  function Pushed(v: View, k: nat, parent: string, depth: nat): seq<PendingView>
    requires k <= |v.subviews|
    decreases |v.subviews| - k
  {
    if k == |v.subviews| then []
    else Pushed(v, k + 1, parent, depth) + [PendingView(v.subviews[k], Some(parent), Some(k), depth)]
  }

  lemma RemainingTop(rest: seq<PendingView>, p: PendingView, first: nat)
    ensures Remaining(rest + [p], first) == ListingOf(p, first) + Remaining(rest, first + Size(p.view))
    ensures Weight(rest + [p]) == Size(p.view) + Weight(rest)
  {
    hide ListingOf;
    assert (rest + [p])[..|rest|] == rest;
  }

  lemma {:induction false} PushedRemain(rest: seq<PendingView>, v: View, k: nat, parent: string, depth: nat, first: nat)
    requires k <= |v.subviews|
    ensures Remaining(rest + Pushed(v, k, parent, depth), first)
         == ListKids(parent, LabelledFrom(v, k, first), k, depth) + Remaining(rest, first + SizeFrom(v, k))
    ensures Weight(rest + Pushed(v, k, parent, depth)) == Weight(rest) + SizeFrom(v, k)
    decreases |v.subviews| - k
  {
    hide ListingOf, Remaining, Weight;
    if k == |v.subviews| {
      assert rest + [] == rest;
      assert [] + Remaining(rest, first) == Remaining(rest, first);
    } else {
      var p := PendingView(v.subviews[k], Some(parent), Some(k), depth);
      var next := first + Size(p.view);
      var below := rest + Pushed(v, k + 1, parent, depth);
      Assoc(rest, Pushed(v, k + 1, parent, depth), [p]);
      RemainingTop(below, p, first);
      PushedRemain(rest, v, k + 1, parent, depth, next);
      KidsUnfold(v, k, parent, depth, first);
      Assoc(ListingOf(p, first), ListKids(parent, LabelledFrom(v, k + 1, next), k + 1, depth),
            Remaining(rest, next + SizeFrom(v, k + 1)));
    }
  }

  lemma KidsUnfold(v: View, k: nat, parent: string, depth: nat, first: nat)
    requires k < |v.subviews|
    ensures ListKids(parent, LabelledFrom(v, k, first), k, depth)
         == ListingOf(PendingView(v.subviews[k], Some(parent), Some(k), depth), first)
            + ListKids(parent, LabelledFrom(v, k + 1, first + Size(v.subviews[k])), k + 1, depth)
  {
  }

  /** One round of the loop: the top view's node, then its subviews on the stack. */
  lemma OneRound(rest: seq<PendingView>, current: PendingView, before: seq<Node>)
    ensures var first, v := |before|, current.view;
            var node := Node(Name(first), current.parent, current.childIndex, current.depth, |v.subviews|);
            && before + Remaining(rest + [current], first)
               == (before + [node]) + Remaining(rest + Pushed(v, 0, Name(first), current.depth + 1), first + 1)
            && Weight(rest + Pushed(v, 0, Name(first), current.depth + 1)) < Weight(rest + [current])
  {
    hide Remaining, Weight, Listing, ListKids;
    var first, v := |before|, current.view;
    var node := Node(Name(first), current.parent, current.childIndex, current.depth, |v.subviews|);
    var kids := ListKids(Name(first), LabelledFrom(v, 0, first + 1), 0, current.depth + 1);
    RemainingTop(rest, current, first);
    PushedRemain(rest, v, 0, Name(first), current.depth + 1, first + 1);
    ListingUnfold(current, first);
    Assoc([node], kids, Remaining(rest, first + Size(v)));
    Assoc(before, [node], kids + Remaining(rest, first + Size(v)));
  }

  lemma ListingUnfold(p: PendingView, first: nat)
    ensures ListingOf(p, first)
         == [Node(Name(first), p.parent, p.childIndex, p.depth, |p.view.subviews|)]
            + ListKids(Name(first), LabelledFrom(p.view, 0, first + 1), 0, p.depth + 1)
  {
    LabelledLength(p.view, 0, first + 1);
  }

  method Capture(window: View) returns (nodes: seq<Node>)
    ensures nodes == Listing(Labelled(window, 0), None, None, 0)
  {
    hide Listing, Labelled, Pushed, Weight, Remaining, Name;
    nodes := [];
    var pending := [PendingView(window, None, None, 0)];
    StartRemains(window);
    while pending != []
      invariant nodes + Remaining(pending, |nodes|) == Listing(Labelled(window, 0), None, None, 0)
      decreases Weight(pending)
    {
      var current := pending[|pending| - 1];
      assert pending == pending[..|pending| - 1] + [current];
      OneRound(pending[..|pending| - 1], current, nodes);
      pending := pending[..|pending| - 1];
      var localId := Name(|nodes|);
      nodes := nodes + [Node(localId, current.parent, current.childIndex, current.depth, |current.view.subviews|)];
      pending := PushSubviews(pending, current.view, localId, current.depth + 1);
    }
    NothingRemains(|nodes|);
    assert nodes + [] == nodes;
  }

  lemma StartRemains(window: View)
    ensures [] + Remaining([PendingView(window, None, None, 0)], 0) == Listing(Labelled(window, 0), None, None, 0)
  {
    hide Listing, Labelled;
    var p := PendingView(window, None, None, 0);
    assert [] + [p] == [p];
    RemainingTop([], p, 0);
    assert Remaining([], Size(window)) == [];
  }

  lemma NothingRemains(first: nat)
    ensures Remaining([], first) == []
  {
  }

  /** Pushes the subviews last to first, so that the first is popped first. */
  method PushSubviews(rest: seq<PendingView>, v: View, parent: string, depth: nat) returns (pending: seq<PendingView>)
    ensures pending == rest + Pushed(v, 0, parent, depth)
  {
    pending := rest;
    var k := |v.subviews|;
    assert rest + [] == rest;
    while k > 0
      invariant 0 <= k <= |v.subviews|
      invariant pending == rest + Pushed(v, k, parent, depth)
    {
      k := k - 1;
      var child := PendingView(v.subviews[k], Some(parent), Some(k), depth);
      Assoc(rest, Pushed(v, k + 1, parent, depth), [child]);
      pending := pending + [child];
    }
  }

  // ---- Whatever is captured is accepted --------------------------------

  /** The names of a listing are consecutive. */
  predicate Numbered(nodes: seq<Node>, first: nat) {
    forall i :: 0 <= i < |nodes| ==> nodes[i].id == Name(first + i)
  }

  lemma {:induction false} LabelledNames(v: View, first: nat, parent: Option<string>, childIndex: Option<int>,
                                         depth: nat)
    ensures var nodes := Listing(Labelled(v, first), parent, childIndex, depth);
            |nodes| == Size(v) && Numbered(nodes, first)
    decreases v, |v.subviews|, 1
  {
    var kids := ListKids(Name(first), LabelledFrom(v, 0, first + 1), 0, depth + 1);
    KidsNames(v, 0, first + 1, Name(first), depth + 1);
    var nodes := Listing(Labelled(v, first), parent, childIndex, depth);
    forall i | 0 < i < |nodes| ensures nodes[i].id == Name(first + i) {
      assert nodes[i] == kids[i - 1];
    }
  }

  lemma {:induction false} KidsNames(v: View, k: nat, first: nat, parent: string, depth: nat)
    requires k <= |v.subviews|
    ensures var nodes := ListKids(parent, LabelledFrom(v, k, first), k, depth);
            |nodes| == SizeFrom(v, k) && Numbered(nodes, first)
    decreases v, |v.subviews| - k, 0
  {
    if k < |v.subviews| {
      var size := Size(v.subviews[k]);
      LabelledNames(v.subviews[k], first, Some(parent), Some(k), depth);
      KidsNames(v, k + 1, first + size, parent, depth);
      var a := Listing(Labelled(v.subviews[k], first), Some(parent), Some(k), depth);
      var b := ListKids(parent, LabelledFrom(v, k + 1, first + size), k + 1, depth);
      var nodes := ListKids(parent, LabelledFrom(v, k, first), k, depth);
      assert nodes == a + b;
      forall i | size <= i < |nodes| ensures nodes[i].id == Name(first + i) {
        assert nodes[i] == b[i - size];
      }
    }
  }

  /** The check accepts the structure of every captured view hierarchy. */
  lemma CaptureIsAccepted(window: View)
    ensures Accepted(Listing(Labelled(window, 0), None, None, 0))
  {
    var nodes := Listing(Labelled(window, 0), None, None, 0);
    LabelledNames(window, 0, None, None, 0);
    forall i, j | 0 <= i < j < |nodes| ensures nodes[i].id != nodes[j].id {
      if Name(i) == Name(j) {
        NameIsInjective(i, j);
      }
    }
    TreeIsAccepted(Labelled(window, 0));
  }
}
