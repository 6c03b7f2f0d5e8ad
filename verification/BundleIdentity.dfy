/** What the canonical stream identifies: an accepted directory tree, up to the
    order in which its directories are enumerated. */
module BundleIdentity {
  import opened Common
  import opened AppTree

  // ---- Trees as a file system has them ---------------------------------

  /** No name in a directory contains a slash. */
  predicate PlainNames(d: Disk)
    decreases d
  {
    d.Folder? ==> forall i :: 0 <= i < |d.children| ==>
                    SLASH !in d.children[i].name && PlainNames(d.children[i].disk)
  }

  /** Entries that are accepted as far as this matters: no path twice, none empty,
      nothing special. */
  predicate Clean(entries: seq<Entry>) {
    && (forall i, j :: 0 <= i < j < |entries| ==> entries[i].path != entries[j].path)
    && (forall i :: 0 <= i < |entries| ==> entries[i].path != [] && !entries[i].kind.Other?)
  }

  lemma CleanParts(a: seq<Entry>, b: seq<Entry>)
    requires Clean(a + b)
    ensures Clean(a) && Clean(b)
    ensures forall x, y :: x in a && y in b ==> x.path != y.path
  {
    var all := a + b;
    forall i, j | 0 <= i < j < |b| ensures b[i].path != b[j].path {
      assert all[|a| + i] == b[i] && all[|a| + j] == b[j];
    }
    forall i | 0 <= i < |b| ensures b[i].path != [] && !b[i].kind.Other? {
      assert all[|a| + i] == b[i];
    }
    forall i, j | 0 <= i < j < |a| ensures a[i].path != a[j].path {
      assert all[i] == a[i] && all[j] == a[j];
    }
    forall i | 0 <= i < |a| ensures a[i].path != [] && !a[i].kind.Other? {
      assert all[i] == a[i];
    }
    forall x, y | x in a && y in b ensures x.path != y.path {
      var i :| 0 <= i < |a| && a[i] == x;
      var j :| 0 <= j < |b| && b[j] == y;
      assert all[i] == x && all[|a| + j] == y;
    }
  }

  /** Two entries of a list are in two places of any reordering of it. */
  lemma TwoPlaces(s: seq<Entry>, t: seq<Entry>, i: nat, j: nat) returns (a: nat, b: nat)
    requires multiset(s) == multiset(t) && i < j < |s|
    ensures a < |t| && b < |t| && a != b && t[a] == s[i] && t[b] == s[j]
  {
    assert s[i] in multiset(t);
    a :| a < |t| && t[a] == s[i];
    OneOut(s, i);
    OneOut(t, a);
    var rest, others := s[..i] + s[i + 1..], t[..a] + t[a + 1..];
    assert rest[j - 1] == s[j];
    assert s[j] in multiset(others);
    var k :| 0 <= k < |others| && others[k] == s[j];
    b := if k < a then k else k + 1;
  }

  lemma PathsDiffer(sorted: seq<Entry>, a: nat, b: nat)
    requires StrictlyAscending(sorted) && a < |sorted| && b < |sorted| && a != b
    ensures sorted[a].path != sorted[b].path
  {
    hide Less;
    LessIsTotal(sorted[a].path, sorted[b].path);
    LessIsTotal(sorted[a].path, sorted[a].path);
  }

  lemma AcceptedIsClean(found: seq<Entry>)
    requires Prepared(found).Some?
    ensures Clean(found)
  {
    hide Components, Less, TopologyValid, Sort, StrictlyAscending;
    var sorted := Prepared(found).value;
    SortSorts(found);
    forall i, j | 0 <= i < j < |found| ensures found[i].path != found[j].path {
      var a, b := TwoPlaces(found, sorted, i, j);
      PathsDiffer(sorted, a, b);
    }
    forall i | 0 <= i < |found| ensures found[i].path != [] && !found[i].kind.Other? {
      assert EntryAllowed(found[i]);
    }
  }

  // ---- Whose entry it is -----------------------------------------------

  function Head(c: Child, path: Path): Entry {
    EntryOf(Join(path, c.name), c.disk)
  }

  /** What lies below one child. */
  function Inside(c: Child, path: Path): seq<Entry> {
    if c.disk.Folder? then Below(c.disk, 0, Join(path, c.name)) else []
  }

  lemma ItemIs(c: Child, path: Path)
    ensures Item(c, path) == [Head(c, path)] + Inside(c, path)
  {
  }

  predicate Under(x: Entry, dir: Path) {
    |x.path| > |dir| && x.path[..|dir| + 1] == dir + [SLASH]
  }

  /** An entry of a folder is one of its children, or lies below one. */
  predicate Owns(c: Child, path: Path, x: Entry) {
    x == Head(c, path) || x in Inside(c, path)
  }

  lemma {:induction false} OwnerOf(d: Disk, k: nat, path: Path, x: Entry) returns (j: nat)
    requires d.Folder? && k <= |d.children| && x in Below(d, k, path)
    ensures k <= j < |d.children| && Owns(d.children[j], path, x)
    decreases |d.children| - k
  {
    hide Inside, Head;
    ItemIs(d.children[k], path);
    if Owns(d.children[k], path, x) {
      j := k;
    } else {
      j := OwnerOf(d, k + 1, path, x);
    }
  }

  lemma {:induction false} OwnedIsListed(d: Disk, k: nat, path: Path, j: nat, x: Entry)
    requires d.Folder? && k <= j < |d.children| && Owns(d.children[j], path, x)
    ensures x in Below(d, k, path)
    decreases j - k
  {
    hide Inside, Head;
    ItemIs(d.children[k], path);
    if k < j {
      OwnedIsListed(d, k + 1, path, j, x);
    }
  }

  lemma {:induction false} BelowIsUnder(d: Disk, k: nat, path: Path, x: Entry)
    requires d.Folder? && k <= |d.children| && path != [] && x in Below(d, k, path)
    ensures Under(x, path)
    decreases d, |d.children| - k
  {
    hide Item;
    var c := d.children[k];
    var own := Join(path, c.name);
    ItemIs(c, path);
    if x == Head(c, path) {
    } else if x in Inside(c, path) {
      BelowIsUnder(c.disk, 0, own, x);
      assert x.path[..|path| + 1] == x.path[..|own| + 1][..|path| + 1];
    } else {
      BelowIsUnder(d, k + 1, path, x);
    }
  }

  lemma {:induction false} CleanChild(d: Disk, k: nat, path: Path, j: nat)
    requires d.Folder? && k <= j < |d.children| && Clean(Below(d, k, path))
    ensures Clean(Item(d.children[j], path)) && Clean(Inside(d.children[j], path))
    ensures Join(path, d.children[j].name) != [] && !d.children[j].disk.Special?
    decreases j - k
  {
    hide Clean, Item;
    CleanParts(Item(d.children[k], path), Below(d, k + 1, path));
    if k < j {
      CleanChild(d, k + 1, path, j);
    } else {
      ItemIs(d.children[j], path);
      CleanParts([Head(d.children[j], path)], Inside(d.children[j], path));
      HeadIsClean(d.children[j], path);
    }
  }

  lemma HeadIsClean(c: Child, path: Path)
    requires Clean([Head(c, path)])
    ensures Join(path, c.name) != [] && !c.disk.Special?
  {
    assert [Head(c, path)][0] == Head(c, path);
  }

  lemma {:induction false} NamesDiffer(d: Disk, k: nat, path: Path, i: nat, j: nat)
    requires d.Folder? && k <= i < j < |d.children| && Clean(Below(d, k, path))
    ensures d.children[i].name != d.children[j].name
    decreases i - k
  {
    hide Clean, Inside;
    CleanParts(Item(d.children[k], path), Below(d, k + 1, path));
    if k < i {
      NamesDiffer(d, k + 1, path, i, j);
    } else {
      ItemIs(d.children[i], path);
      OwnedIsListed(d, k + 1, path, j, Head(d.children[j], path));
      assert Head(d.children[i], path) in Item(d.children[i], path);
    }
  }

  /** The path goes through `dir`, or ends there. */
  predicate Through(p: Path, dir: Path) {
    |p| >= |dir| && p[..|dir|] == dir && (|p| == |dir| || p[|dir|] == SLASH)
  }

  lemma PathAt(p: Path, base: Path, name: Path, k: nat)
    requires Through(p, base + name) && k < |name|
    ensures p[|base| + k] == name[k]
  {
    assert p[|base| + k] == p[..|base + name|][|base| + k];
  }

  lemma NotShorter(p: Path, base: Path, a: Path, b: Path)
    requires Through(p, base + a) && Through(p, base + b) && SLASH !in b
    ensures |a| >= |b|
  {
    if |a| < |b| {
      PathAt(p, base, b, |a|);
    }
  }

  lemma SameName(p: Path, base: Path, a: Path, b: Path)
    requires Through(p, base + a) && Through(p, base + b) && SLASH !in a && SLASH !in b
    ensures a == b
  {
    NotShorter(p, base, a, b);
    NotShorter(p, base, b, a);
    assert p[..|base + a|][|base|..] == a && p[..|base + b|][|base|..] == b;
  }

  function Base(path: Path): Path {
    if path == [] then [] else path + [SLASH]
  }

  lemma JoinIs(path: Path, name: Path)
    ensures Join(path, name) == Base(path) + name
  {
  }

  lemma OwnedGoesThrough(path: Path, x: Entry, c: Child)
    requires Join(path, c.name) != [] && Owns(c, path, x)
    ensures Through(x.path, Join(path, c.name))
    ensures x.path == Join(path, c.name) <==> x == Head(c, path)
  {
    if x in Inside(c, path) {
      BelowIsUnder(c.disk, 0, Join(path, c.name), x);
      UnderGoesThrough(x, Join(path, c.name));
    }
  }

  lemma UnderGoesThrough(x: Entry, dir: Path)
    requires Under(x, dir)
    ensures Through(x.path, dir) && x.path != dir
  {
    assert x.path[..|dir|] == x.path[..|dir| + 1][..|dir|];
    assert x.path[|dir|] == x.path[..|dir| + 1][|dir|];
  }

  /** What the path of an entry goes through tells which child it belongs to. */
  lemma NameFromPath(path: Path, x: Entry, c: Child, n: Path)
    requires SLASH !in c.name && SLASH !in n && Join(path, c.name) != [] && Owns(c, path, x)
    requires Through(x.path, Join(path, n))
    ensures n == c.name
  {
    hide Join, Through, Owns;
    OwnedGoesThrough(path, x, c);
    JoinIs(path, c.name);
    JoinIs(path, n);
    SameName(x.path, Base(path), c.name, n);
  }

  // ---- Two trees with the same entries ---------------------------------

  predicate Tidy(d: Disk, path: Path) {
    d.Folder? && PlainNames(d) && Clean(Below(d, 0, path))
  }

  lemma TidyChild(d: Disk, path: Path, j: nat)
    requires Tidy(d, path) && j < |d.children|
    ensures var c := d.children[j];
            && SLASH !in c.name && Join(path, c.name) != [] && !c.disk.Special?
            && (c.disk.Folder? ==> Tidy(c.disk, Join(path, c.name)))
  {
    hide Clean;
    CleanChild(d, 0, path, j);
  }

  ghost predicate SameEntries(a: seq<Entry>, b: seq<Entry>) {
    forall x :: x in a <==> x in b
  }

  /** The child of `d` that has a given entry of the other tree. */
  lemma Counterpart(d: Disk, e: Disk, path: Path, i: nat) returns (j: nat)
    requires Tidy(d, path) && Tidy(e, path) && SameEntries(Below(d, 0, path), Below(e, 0, path)) && i < |e.children|
    ensures j < |d.children| && Head(d.children[j], path) == Head(e.children[i], path)
    ensures d.children[j].name == e.children[i].name
  {
    hide Clean, PlainNames, Through;
    var c := e.children[i];
    var x := Head(c, path);
    OwnedIsListed(e, 0, path, i, x);
    j := OwnerOf(d, 0, path, x);
    TidyChild(d, path, j);
    TidyChild(e, path, i);
    OwnedGoesThrough(path, x, c);
    NameFromPath(path, x, d.children[j], c.name);
    OwnedGoesThrough(path, x, d.children[j]);
  }

  /** An entry below a child of `d` is below the child of that name of `e`. */
  lemma EntryMoves(d: Disk, e: Disk, path: Path, j: nat, i: nat, x: Entry)
    requires Tidy(d, path) && Tidy(e, path) && j < |d.children| && i < |e.children|
    requires d.children[j].name == e.children[i].name
    requires x in Inside(d.children[j], path) && x in Below(e, 0, path)
    ensures x in Inside(e.children[i], path)
  {
    hide Clean, PlainNames, Through, Inside, Head;
    TidyChild(d, path, j);
    OwnedGoesThrough(path, x, d.children[j]);
    InsideIsNoHead(d.children[j], path, x);
    var k := OwnerOf(e, 0, path, x);
    TidyChild(e, path, k);
    NameFromPath(path, x, e.children[k], e.children[i].name);
    if k < i {
      NamesDiffer(e, 0, path, k, i);
    } else if i < k {
      NamesDiffer(e, 0, path, i, k);
    }
    OwnedGoesThrough(path, x, e.children[i]);
  }

  lemma InsideIsNoHead(c: Child, path: Path, x: Entry)
    requires Join(path, c.name) != [] && x in Inside(c, path)
    ensures x.path != Join(path, c.name)
  {
    BelowIsUnder(c.disk, 0, Join(path, c.name), x);
    UnderGoesThrough(x, Join(path, c.name));
  }

  lemma InsideMoves(d: Disk, e: Disk, path: Path, j: nat, i: nat, x: Entry)
    requires Tidy(d, path) && Tidy(e, path) && SameEntries(Below(d, 0, path), Below(e, 0, path))
    requires j < |d.children| && i < |e.children| && d.children[j].name == e.children[i].name
    requires x in Inside(d.children[j], path)
    ensures x in Inside(e.children[i], path)
  {
    hide Inside, Head, Below, Clean, PlainNames;
    OwnedIsListed(d, 0, path, j, x);
    EntryMoves(d, e, path, j, i, x);
  }

  lemma SameInside(d: Disk, e: Disk, path: Path, j: nat, i: nat)
    requires Tidy(d, path) && Tidy(e, path) && SameEntries(Below(d, 0, path), Below(e, 0, path))
    requires j < |d.children| && i < |e.children| && d.children[j].name == e.children[i].name
    ensures d.Folder? && e.Folder?
    ensures SameEntries(Inside(d.children[j], path), Inside(e.children[i], path))
  {
    hide Tidy, Inside, Head, Below;
    FoldersOf(d, e, path);
    SameBoth(Below(d, 0, path), Below(e, 0, path));
    forall x ensures x in Inside(d.children[j], path) <==> x in Inside(e.children[i], path) {
      if x in Inside(d.children[j], path) {
        InsideMoves(d, e, path, j, i, x);
      }
      if x in Inside(e.children[i], path) {
        InsideMoves(e, d, path, i, j, x);
      }
    }
  }

  /** Two tidy trees with the same entries are reorderings of one another. */
  lemma {:induction false} SameEntriesAreReordered(d: Disk, e: Disk, path: Path)
    requires Tidy(d, path) && Tidy(e, path) && SameEntries(Below(d, 0, path), Below(e, 0, path))
    ensures Reordered(d, e)
    decreases d
  {
    hide Tidy, SameEntries, Below, Head, Inside;
    FoldersOf(d, e, path);
    var at: seq<nat> := [];
    while |at| < |e.children|
      invariant |at| <= |e.children|
      invariant forall i :: 0 <= i < |at| ==> Matches(d, e, at[i], i)
    {
      var i := |at|;
      var j := Counterpart(d, e, path, i);
      ChildrenReordered(d, e, path, j, i);
      at := at + [j];
    }
    TakenAreAll(d, e, path, at);
  }

  ghost predicate Matches(d: Disk, e: Disk, j: nat, i: nat) {
    && d.Folder? && e.Folder? && j < |d.children| && i < |e.children|
    && d.children[j].name == e.children[i].name && Reordered(d.children[j].disk, e.children[i].disk)
  }

  lemma {:induction false} ChildrenReordered(d: Disk, e: Disk, path: Path, j: nat, i: nat)
    requires Tidy(d, path) && Tidy(e, path) && SameEntries(Below(d, 0, path), Below(e, 0, path))
    requires j < |d.children| && i < |e.children| && d.children[j].name == e.children[i].name
    requires Head(d.children[j], path) == Head(e.children[i], path)
    ensures Matches(d, e, j, i)
    decreases d, 0
  {
    hide Clean, SameEntries, Join;
    TidyChild(d, path, j);
    TidyChild(e, path, i);
    SameInside(d, e, path, j, i);
    var c := d.children[j];
    if c.disk.Folder? {
      SameEntriesAreReordered(c.disk, e.children[i].disk, Join(path, c.name));
    }
  }

  predicate Distinct<T(==)>(s: seq<T>) {
    forall i, j :: 0 <= i < j < |s| ==> s[i] != s[j]
  }

  lemma {:induction false} CountsOnce<T>(s: seq<T>, x: T)
    requires Distinct(s)
    ensures multiset(s)[x] == if x in s then 1 else 0
    decreases |s|
  {
    if s != [] {
      assert s == [s[0]] + s[1..];
      CountsOnce(s[1..], x);
    }
  }

  lemma SameBag<T>(s: seq<T>, t: seq<T>)
    requires Distinct(s) && Distinct(t) && forall x :: x in s <==> x in t
    ensures multiset(s) == multiset(t)
  {
    forall x: T ensures multiset(s)[x] == multiset(t)[x] {
      CountsOnce(s, x);
      CountsOnce(t, x);
    }
  }

  lemma ChildrenAreDistinct(d: Disk, path: Path)
    requires Tidy(d, path)
    ensures Distinct(d.children)
    ensures forall i, j :: 0 <= i < j < |d.children| ==> d.children[i].name != d.children[j].name
  {
    hide Clean;
    forall i, j | 0 <= i < j < |d.children| ensures d.children[i].name != d.children[j].name {
      NamesDiffer(d, 0, path, i, j);
    }
  }

  /** The children of `d` in the order that `at` says. */
  function Taken(d: Disk, at: seq<nat>): seq<Child>
    requires d.Folder? && forall i :: 0 <= i < |at| ==> at[i] < |d.children|
  {
    seq(|at|, i requires 0 <= i < |at| => d.children[at[i]])
  }

  lemma TakenHas(d: Disk, e: Disk, path: Path, at: seq<nat>, j: nat)
    requires Tidy(d, path) && Tidy(e, path) && SameEntries(Below(d, 0, path), Below(e, 0, path))
    requires |at| == |e.children| && forall i :: 0 <= i < |at| ==> Matches(d, e, at[i], i)
    requires j < |d.children| && forall i :: 0 <= i < |at| ==> at[i] < |d.children|
    ensures d.children[j] in Taken(d, at)
  {
    hide Clean, PlainNames, Below, Reordered;
    ChildrenAreDistinct(d, path);
    SameBoth(Below(d, 0, path), Below(e, 0, path));
    var i := Counterpart(e, d, path, j);
    assert Matches(d, e, at[i], i);
    assert Taken(d, at)[i] == d.children[j];
  }

  lemma SameBoth(a: seq<Entry>, b: seq<Entry>)
    requires SameEntries(a, b)
    ensures SameEntries(b, a)
  {
  }

  lemma TakenAreAll(d: Disk, e: Disk, path: Path, at: seq<nat>)
    requires Tidy(d, path) && Tidy(e, path) && SameEntries(Below(d, 0, path), Below(e, 0, path))
    requires |at| == |e.children| && forall i :: 0 <= i < |at| ==> Matches(d, e, at[i], i)
    ensures Reordered(d, e)
  {
    hide Tidy, SameEntries, Below, Matched, Matches;
    FoldersOf(d, e, path);
    ChildrenAreDistinct(d, path);
    MatchesAre(d, e, path, at);
    var taken := Taken(d, at);
    forall x ensures x in taken <==> x in d.children {
      if x in d.children {
        var j :| 0 <= j < |d.children| && d.children[j] == x;
        TakenHas(d, e, path, at, j);
      }
    }
    SameBag(taken, d.children);
    TakenMatches(d, e, at);
  }

  lemma MatchesAre(d: Disk, e: Disk, path: Path, at: seq<nat>)
    requires Tidy(d, path) && Tidy(e, path)
    requires |at| == |e.children| && forall i :: 0 <= i < |at| ==> Matches(d, e, at[i], i)
    ensures forall i :: 0 <= i < |at| ==> at[i] < |d.children|
    ensures Distinct(Taken(d, at))
  {
    hide Tidy, Reordered;
    FoldersOf(d, e, path);
    ChildrenAreDistinct(e, path);
    forall i | 0 <= i < |at| ensures at[i] < |d.children| && d.children[at[i]].name == e.children[i].name {
      assert Matches(d, e, at[i], i);
    }
  }

  lemma TakenMatches(d: Disk, e: Disk, at: seq<nat>)
    requires d.Folder? && e.Folder? && |at| == |e.children|
    requires forall i :: 0 <= i < |at| ==> at[i] < |d.children|
    requires forall i :: 0 <= i < |at| ==> Matches(d, e, at[i], i)
    requires multiset(Taken(d, at)) == multiset(d.children)
    ensures Matched(d, Taken(d, at), e.children)
  {
    var taken := Taken(d, at);
    forall i | 0 <= i < |taken|
      ensures taken[i].name == e.children[i].name &&
              exists k: nat :: IsChild(d, k, taken[i]) && Reordered(d.children[k].disk, e.children[i].disk)
    {
      assert Matches(d, e, at[i], i);
      assert IsChild(d, at[i], taken[i]);
    }
  }

  lemma FoldersOf(d: Disk, e: Disk, path: Path)
    requires Tidy(d, path) && Tidy(e, path)
    ensures d.Folder? && e.Folder?
  {
  }

  // ---- What the stream says --------------------------------------------

  /** Two accepted bundles have the same stream exactly when they are one tree,
      enumerated in whatever order at every level. */
  lemma StreamIdentifiesTree(d: Disk, e: Disk)
    requires d.Folder? && e.Folder? && PlainNames(d) && PlainNames(e)
    requires Prepared(Listing(d)).Some? && Prepared(Listing(e)).Some?
    ensures var a, b := Prepared(Listing(d)).value, Prepared(Listing(e)).value;
            && AllWellFormed(a) && AllWellFormed(b)
            && (Stream(a) == Stream(b) <==> Reordered(d, e))
  {
    hide Prepared, Stream, Reordered, Below;
    var a, b := Prepared(Listing(d)).value, Prepared(Listing(e)).value;
    StreamIdentifiesBundle(d, e, a, b);
    if Reordered(d, e) {
      EnumerationOrderIsIrrelevant(d, e);
    }
    if a == b {
      AcceptedIsClean(Listing(d));
      AcceptedIsClean(Listing(e));
      PreparedHasAll(Listing(d));
      PreparedHasAll(Listing(e));
      SameEntriesAreReordered(d, e, []);
    }
  }

  lemma PreparedHasAll(found: seq<Entry>)
    requires Prepared(found).Some?
    ensures SameEntries(Prepared(found).value, found)
  {
    hide Sort, Allowed, StrictlyAscending, TopologyValid;
    SortSorts(found);
    forall x ensures x in Sort(found) <==> x in found {
      assert x in multiset(Sort(found)) <==> x in multiset(found);
    }
  }
}
