/** The canonical byte stream of an application bundle: entries collected from a
    directory tree, sorted by path, checked, and written out one after the other. */
module AppTree {
  import opened Common
  import Utf8

  const MAX_ENTRIES := 65_535
  const MAX_PATH_BYTES := 4_096
  const MAX_COMPONENT_BYTES := 255
  const MAX_DEPTH := 64
  const MAX_FILE_BYTES := 512 * 1024 * 1024
  const MAX_TOTAL_FILE_BYTES := 1024 * 1024 * 1024
  const COPY_BUFFER_BYTES := 64 * 1024

  const SLASH: byte := 0x2F
  const DOT: byte := 0x2E

  type Path = seq<byte>

  datatype Kind = Directory | File | Other

  datatype Entry = Entry(path: Path, kind: Kind, executable: bool, content: seq<byte>)

  /** What is on disk; directory children come in whatever order they are enumerated.
      `Special` is whatever the walk refuses to take: a link or a device, a file
      with several links or a resource fork, an object that changes meanwhile. */
  datatype Disk = Folder(children: seq<Child>) | Plain(content: seq<byte>, executable: bool) | Special
  datatype Child = Child(name: Path, disk: Disk)

  // ---- Paths -----------------------------------------------------------

  function Join(parent: Path, name: Path): Path {
    if parent == [] then name else parent + [SLASH] + name
  }

  /** The pieces between slashes. */
  function Components(path: Path): seq<Path>
    decreases |path|
  {
    if path == [] then [[]]
    else
      var rest := Components(path[1..]);
      if path[0] == SLASH then [[]] + rest
      else if rest == [] then [[path[0]]]
      else [[path[0]] + rest[0]] + rest[1..]
  }

  predicate ValidComponent(c: Path) {
    c != [] && |c| <= MAX_COMPONENT_BYTES && c != [DOT] && c != [DOT, DOT]
  }

  predicate ValidPath(path: Path) {
    && path != [] && |path| <= MAX_PATH_BYTES && 0 !in path && Utf8.Valid(path)
    && |Components(path)| <= MAX_DEPTH
    && (forall i :: 0 <= i < |Components(path)| ==> ValidComponent(Components(path)[i]))
  }

  // ---- Collecting ------------------------------------------------------

  function EntryOf(path: Path, disk: Disk): Entry {
    match disk
    case Folder(_) => Entry(path, Directory, false, [])
    case Plain(content, executable) => Entry(path, File, executable, content)
    case Special => Entry(path, Other, false, [])
  }

  /** One child and everything below it. */
  function Item(c: Child, parent: Path): seq<Entry>
    decreases c, 0, 1
  {
    var path := Join(parent, c.name);
    [EntryOf(path, c.disk)] + (if c.disk.Folder? then Below(c.disk, 0, path) else [])
  }

  /** The children of a folder from the k-th on, in enumeration order. */
  function Below(d: Disk, k: nat, path: Path): seq<Entry>
    requires d.Folder? && k <= |d.children|
    decreases d, |d.children| - k, 0
  {
    if k == |d.children| then [] else Item(d.children[k], path) + Below(d, k + 1, path)
  }

  function Listing(root: Disk): seq<Entry>
    requires root.Folder?
  {
    Below(root, 0, [])
  }

  predicate EntryAllowed(e: Entry) {
    ValidPath(e.path) && !e.kind.Other? && |e.content| <= MAX_FILE_BYTES
  }

  function Total(entries: seq<Entry>): nat {
    if entries == [] then 0 else |entries[0].content| + Total(entries[1..])
  }

  predicate Allowed(entries: seq<Entry>) {
    && (forall i :: 0 <= i < |entries| ==> EntryAllowed(entries[i]))
    && |entries| <= MAX_ENTRIES && Total(entries) <= MAX_TOTAL_FILE_BYTES
  }

  lemma {:induction false} TotalAppend(a: seq<Entry>, b: seq<Entry>)
    ensures Total(a + b) == Total(a) + Total(b)
    decreases |a|
  {
    if a == [] {
      assert a + b == b;
    } else {
      assert (a + b)[1..] == a[1..] + b;
      TotalAppend(a[1..], b);
    }
  }

  lemma AllowedPrefix(a: seq<Entry>, b: seq<Entry>)
    requires Allowed(a + b)
    ensures Allowed(a)
  {
    TotalAppend(a, b);
    forall i | 0 <= i < |a| ensures EntryAllowed(a[i]) {
      assert (a + b)[i] == a[i];
    }
  }

  lemma AllowedOne(a: seq<Entry>, e: Entry)
    requires Allowed(a)
    ensures Allowed(a + [e]) <==>
              EntryAllowed(e) && |a| < MAX_ENTRIES && Total(a) + |e.content| <= MAX_TOTAL_FILE_BYTES
  {
    TotalAppend(a, [e]);
    assert (a + [e])[|a|] == e;
    assert Total([e]) == |e.content|;
  }

  /** Walks a directory tree within the entry, path and size budgets. */
  class Collector {
    var entries: seq<Entry>
    var total: nat

    ghost predicate Valid()
      reads this
    {
      Allowed(entries) && total == Total(entries)
    }

    constructor ()
      ensures Valid() && entries == []
    {
      entries, total := [], 0;
    }

    method RequireFileBudget(size: nat) returns (ok: bool)
      modifies this`total
      ensures ok <==> size <= MAX_FILE_BYTES && old(total) + size <= MAX_TOTAL_FILE_BYTES
      ensures ok ==> total == old(total) + size
    {
      if size > MAX_FILE_BYTES {
        return false;
      }
      total := total + size;
      ok := total <= MAX_TOTAL_FILE_BYTES;
    }

    /** Rejects exactly when something in the whole listing is not allowed. */
    method CollectDirectory(d: Disk, path: Path) returns (ok: bool)
      requires d.Folder? && Valid()
      modifies this
      ensures ok <==> Allowed(old(entries) + Below(d, 0, path))
      ensures ok ==> Valid() && entries == old(entries) + Below(d, 0, path)
      decreases d
    {
      hide Allowed, EntryAllowed, ValidPath, Total;
      ghost var before := entries;
      ghost var all := before + Below(d, 0, path);
      assert before + Below(d, 0, path) == all;
      for k := 0 to |d.children|
        invariant Valid()
        invariant entries + Below(d, k, path) == all
      {
        var child := d.children[k];
        var childPath := Join(path, child.name);
        var e := EntryOf(childPath, child.disk);
        ghost var own := if child.disk.Folder? then Below(child.disk, 0, childPath) else [];
        ghost var rest := Below(d, k + 1, path);
        Regroup(entries, e, own, rest);
        AllowedOne(entries, e);
        var pushed := Push(e);
        if !pushed {
          NotAllowed(entries, e, own, rest);
          return false;
        }
        if child.disk.Folder? {
          ghost var had := entries;
          var inner := CollectDirectory(child.disk, childPath);
          if !inner {
            NotAllowedBelow(had, own, rest);
            return false;
          }
        } else {
          assert entries + [] == entries;
        }
      }
      assert Below(d, |d.children|, path) == [] && entries + [] == entries;
      ok := true;
    }

    /** The checks on one directory entry, in the order they are made. */
    method Push(e: Entry) returns (ok: bool)
      requires Valid()
      modifies this
      ensures ok <==> Allowed(old(entries) + [e])
      ensures ok ==> Valid() && entries == old(entries) + [e]
      ensures !ok ==> entries == old(entries)
    {
      hide ValidPath;
      AllowedOne(entries, e);
      TotalAppend(entries, [e]);
      assert Total([e]) == |e.content|;
      if !ValidPath(e.path) {
        return false;
      }
      if |entries| >= MAX_ENTRIES || e.kind.Other? {
        return false;
      }
      ok := RequireFileBudget(|e.content|);
      if ok {
        entries := entries + [e];
      }
    }
  }

  lemma Regroup(a: seq<Entry>, e: Entry, own: seq<Entry>, rest: seq<Entry>)
    ensures a + (([e] + own) + rest) == ((a + [e]) + own) + rest
    ensures (a + [e]) + (own + rest) == ((a + [e]) + own) + rest
  {
  }

  lemma NotAllowed(a: seq<Entry>, e: Entry, own: seq<Entry>, rest: seq<Entry>)
    requires !Allowed(a + [e])
    ensures !Allowed(((a + [e]) + own) + rest)
  {
    if Allowed(((a + [e]) + own) + rest) {
      AllowedPrefix((a + [e]) + own, rest);
      AllowedPrefix(a + [e], own);
    }
  }

  lemma NotAllowedBelow(a: seq<Entry>, own: seq<Entry>, rest: seq<Entry>)
    requires !Allowed(a + own)
    ensures !Allowed((a + own) + rest)
  {
    if Allowed((a + own) + rest) {
      AllowedPrefix(a + own, rest);
    }
  }

  // ---- Sorting and checking --------------------------------------------

  predicate Less(a: Path, b: Path)
    decreases |a|
  {
    b != [] && (a == [] || a[0] < b[0] || (a[0] == b[0] && Less(a[1..], b[1..])))
  }

  lemma {:induction false} LessIsTotal(a: Path, b: Path)
    ensures Less(a, b) || Less(b, a) || a == b
    ensures !(Less(a, b) && Less(b, a)) && !Less(a, a)
    decreases |a|
  {
    if a != [] && b != [] {
      assert a == [a[0]] + a[1..] && b == [b[0]] + b[1..];
      LessIsTotal(a[1..], b[1..]);
    }
    if a != [] {
      LessIsTotal(a[1..], a[1..]);
    }
  }

  lemma {:induction false} LessIsTransitive(a: Path, b: Path, c: Path)
    requires Less(a, b) && Less(b, c)
    ensures Less(a, c)
    decreases |a|
  {
    if a != [] && a[0] == b[0] == c[0] {
      LessIsTransitive(a[1..], b[1..], c[1..]);
    }
  }

  function Insert(e: Entry, sorted: seq<Entry>): seq<Entry> {
    if sorted == [] || !Less(sorted[0].path, e.path) then [e] + sorted
    else [sorted[0]] + Insert(e, sorted[1..])
  }

  function Sort(entries: seq<Entry>): seq<Entry> {
    if entries == [] then [] else Insert(entries[0], Sort(entries[1..]))
  }

  predicate Ascending(entries: seq<Entry>) {
    forall i, j :: 0 <= i < j < |entries| ==> !Less(entries[j].path, entries[i].path)
  }

  predicate StrictlyAscending(entries: seq<Entry>) {
    forall i, j :: 0 <= i < j < |entries| ==> Less(entries[i].path, entries[j].path)
  }

  lemma {:induction false} InsertSorts(e: Entry, sorted: seq<Entry>)
    requires Ascending(sorted)
    ensures Ascending(Insert(e, sorted)) && multiset(Insert(e, sorted)) == multiset(sorted) + multiset{e}
    decreases |sorted|
  {
    hide Less;
    if sorted == [] {
    } else if !Less(sorted[0].path, e.path) {
      InsertFirst(e, sorted);
    } else {
      InsertSorts(e, sorted[1..]);
      assert sorted == [sorted[0]] + sorted[1..];
      InsertLater(e, sorted);
    }
  }

  lemma InsertFirst(e: Entry, sorted: seq<Entry>)
    requires Ascending(sorted) && sorted != [] && !Less(sorted[0].path, e.path)
    ensures Ascending([e] + sorted)
  {
    hide Less;
    forall j | 0 <= j < |sorted| ensures !Less(sorted[j].path, e.path) {
      LessIsTotal(sorted[0].path, e.path);
      LessIsTotal(sorted[j].path, sorted[0].path);
      if Less(sorted[j].path, e.path) && Less(e.path, sorted[0].path) {
        LessIsTransitive(sorted[j].path, e.path, sorted[0].path);
      }
    }
  }

  lemma InsertLater(e: Entry, sorted: seq<Entry>)
    requires Ascending(sorted) && sorted != [] && Less(sorted[0].path, e.path)
    requires Ascending(Insert(e, sorted[1..]))
    requires multiset(Insert(e, sorted[1..])) == multiset(sorted[1..]) + multiset{e}
    ensures Ascending([sorted[0]] + Insert(e, sorted[1..]))
  {
    hide Less, Insert;
    var rest := sorted[1..];
    forall j | 0 <= j < |Insert(e, rest)| ensures !Less(Insert(e, rest)[j].path, sorted[0].path) {
      var x := Insert(e, rest)[j];
      assert x in multiset(Insert(e, rest));
      LessIsTotal(sorted[0].path, e.path);
      if x in rest {
        var k :| 0 <= k < |rest| && rest[k] == x;
        assert sorted[k + 1] == x;
      }
    }
  }

  lemma {:induction false} SortSorts(entries: seq<Entry>)
    ensures Ascending(Sort(entries)) && multiset(Sort(entries)) == multiset(entries)
    decreases |entries|
  {
    if entries != [] {
      SortSorts(entries[1..]);
      InsertSorts(entries[0], Sort(entries[1..]));
      assert entries == [entries[0]] + entries[1..];
    }
  }

  /** A list sorted without repeats is the only sorted list of its entries. */
  lemma {:induction false} SortedOnlyOne(s: seq<Entry>, t: seq<Entry>)
    requires StrictlyAscending(s) && Ascending(t) && multiset(s) == multiset(t)
    ensures s == t
    decreases |s|
  {
    hide Less;
    assert |s| == |multiset(s)| == |multiset(t)| == |t|;
    if s != [] {
      SameFirst(s, t);
      TailBag(s);
      TailBag(t);
      SortedOnlyOne(s[1..], t[1..]);
      assert s == [s[0]] + s[1..] && t == [t[0]] + t[1..];
    }
  }

  lemma SameFirst(s: seq<Entry>, t: seq<Entry>)
    requires StrictlyAscending(s) && Ascending(t) && multiset(s) == multiset(t) && s != [] && t != []
    ensures s[0] == t[0]
  {
    hide Less;
    assert s[0] in multiset(t) && t[0] in multiset(s);
    var i :| 0 <= i < |t| && t[i] == s[0];
    var j :| 0 <= j < |s| && s[j] == t[0];
    LessIsTotal(s[0].path, t[0].path);
    assert j == 0;
  }

  lemma TailBag<T>(s: seq<T>)
    requires s != []
    ensures multiset(s[1..]) == multiset(s) - multiset{s[0]}
  {
    assert s == [s[0]] + s[1..];
  }

  function LastSlash(path: Path): Option<nat>
    decreases |path|
  {
    if path == [] then None
    else if path[|path| - 1] == SLASH then Some(|path| - 1)
    else LastSlash(path[..|path| - 1])
  }

  lemma {:induction false} LastSlashIs(path: Path)
    ensures match LastSlash(path)
            case None => SLASH !in path
            case Some(k) => k < |path| && path[k] == SLASH && forall i :: k < i < |path| ==> path[i] != SLASH
    decreases |path|
  {
    if path != [] && path[|path| - 1] != SLASH {
      var front := path[..|path| - 1];
      LastSlashIs(front);
      assert path == front + [path[|path| - 1]];
    }
  }

  predicate HasDirectory(entries: seq<Entry>, path: Path) {
    exists i :: 0 <= i < |entries| && entries[i].kind.Directory? && entries[i].path == path
  }

  predicate ParentListed(entries: seq<Entry>, e: Entry) {
    LastSlashIs(e.path);
    LastSlash(e.path).Some? ==> HasDirectory(entries, e.path[..LastSlash(e.path).value])
  }

  predicate TopologyValid(entries: seq<Entry>) {
    forall i :: 0 <= i < |entries| ==> ParentListed(entries, entries[i])
  }

  /** The accepted entries of a listing, in canonical order. */
  function Prepared(found: seq<Entry>): Option<seq<Entry>> {
    var sorted := Sort(found);
    if Allowed(found) && StrictlyAscending(sorted) && TopologyValid(sorted) then Some(sorted) else None
  }

  lemma TakeOut(b: seq<Entry>, k: nat)
    requires k < |b|
    ensures Total(b) == |b[k].content| + Total(b[..k] + b[k + 1..])
    ensures multiset(b[..k] + b[k + 1..]) == multiset(b) - multiset{b[k]}
  {
    TotalAppend(b[..k], b[k + 1..]);
    TotalAppend(b[..k], b[k..]);
    assert b[k..][1..] == b[k + 1..];
    assert b == b[..k] + b[k..];
    assert b == b[..k] + [b[k]] + b[k + 1..];
  }

  lemma {:induction false} TotalPermuted(a: seq<Entry>, b: seq<Entry>)
    requires multiset(a) == multiset(b)
    ensures Total(a) == Total(b)
    decreases |a|
  {
    if a == [] {
      assert |multiset(b)| == 0;
    } else {
      assert a[0] in multiset(b);
      var k :| 0 <= k < |b| && b[k] == a[0];
      TailBag(a);
      TakeOut(b, k);
      TotalPermuted(a[1..], b[..k] + b[k + 1..]);
    }
  }

  lemma AllowedPermuted(a: seq<Entry>, b: seq<Entry>)
    requires multiset(a) == multiset(b) && Allowed(a)
    ensures Allowed(b)
  {
    TotalPermuted(a, b);
    assert |a| == |multiset(a)| == |multiset(b)| == |b|;
    forall i | 0 <= i < |b| ensures EntryAllowed(b[i]) {
      assert b[i] in multiset(a);
    }
  }

  /** What is accepted, and as what, does not depend on the order of discovery. */
  lemma PreparedPermuted(a: seq<Entry>, b: seq<Entry>)
    requires multiset(a) == multiset(b)
    ensures Prepared(a) == Prepared(b)
  {
    hide Allowed, TopologyValid;
    SortSorts(a);
    SortSorts(b);
    if Allowed(a) {
      AllowedPermuted(a, b);
    }
    if Allowed(b) {
      AllowedPermuted(b, a);
    }
    if StrictlyAscending(Sort(a)) {
      SortedOnlyOne(Sort(a), Sort(b));
    } else if StrictlyAscending(Sort(b)) {
      SortedOnlyOne(Sort(b), Sort(a));
    }
  }

  // ---- Enumeration order -----------------------------------------------

  /** The same tree with the children of every folder in any other order: the
      children of `e` are, one by one, reorderings of those of `d` taken in the
      order of `taken`. */
  ghost predicate Reordered(d: Disk, e: Disk)
    decreases d, 1
  {
    if !d.Folder? then e == d
    else
      && e.Folder?
      && exists taken: seq<Child> :: multiset(taken) == multiset(d.children) && Matched(d, taken, e.children)
  }

  ghost predicate Matched(d: Disk, taken: seq<Child>, children: seq<Child>)
    requires d.Folder? && multiset(taken) == multiset(d.children)
    decreases d, 0
  {
    && |taken| == |children|
    && forall i :: 0 <= i < |taken| ==>
         && taken[i].name == children[i].name
         && exists k: nat :: IsChild(d, k, taken[i]) && Reordered(d.children[k].disk, children[i].disk)
  }

  predicate IsChild(d: Disk, k: nat, c: Child) {
    d.Folder? && k < |d.children| && d.children[k] == c
  }

  /** The entries of some children, in no particular order. */
  function Bag(children: seq<Child>, path: Path): multiset<Entry> {
    if children == [] then multiset{} else multiset(Item(children[0], path)) + Bag(children[1..], path)
  }

  lemma {:induction false} BelowIsBag(d: Disk, k: nat, path: Path)
    requires d.Folder? && k <= |d.children|
    ensures multiset(Below(d, k, path)) == Bag(d.children[k..], path)
    decreases |d.children| - k
  {
    hide Item;
    if k < |d.children| {
      BelowIsBag(d, k + 1, path);
      assert d.children[k..][1..] == d.children[k + 1..];
    }
  }

  lemma {:induction false} BagAppend(a: seq<Child>, b: seq<Child>, path: Path)
    ensures Bag(a + b, path) == Bag(a, path) + Bag(b, path)
    decreases |a|
  {
    hide Item;
    if a == [] {
      assert a + b == b;
    } else {
      assert (a + b)[1..] == a[1..] + b;
      BagAppend(a[1..], b, path);
    }
  }

  lemma BagTail(b: seq<Child>, k: nat, path: Path)
    requires k < |b|
    ensures Bag(b[k..], path) == multiset(Item(b[k], path)) + Bag(b[k + 1..], path)
  {
    hide Item;
    assert b[k..][1..] == b[k + 1..];
  }

  lemma BagOut(b: seq<Child>, k: nat, path: Path)
    requires k < |b|
    ensures Bag(b, path) == multiset(Item(b[k], path)) + Bag(b[..k] + b[k + 1..], path)
  {
    hide Item, Bag;
    BagAppend(b[..k], b[k + 1..], path);
    BagAppend(b[..k], b[k..], path);
    BagTail(b, k, path);
    assert b[..k] + b[k..] == b;
  }

  lemma ChildOut(b: seq<Child>, k: nat, path: Path)
    requires k < |b|
    ensures Bag(b, path) == multiset(Item(b[k], path)) + Bag(b[..k] + b[k + 1..], path)
    ensures multiset(b[..k] + b[k + 1..]) == multiset(b) - multiset{b[k]}
  {
    hide Item, Bag;
    BagOut(b, k, path);
    OneOut(b, k);
  }

  lemma OneOut<T>(b: seq<T>, k: nat)
    requires k < |b|
    ensures multiset(b[..k] + b[k + 1..]) == multiset(b) - multiset{b[k]}
  {
    assert b == b[..k] + [b[k]] + b[k + 1..];
  }

  lemma {:induction false} BagPermuted(a: seq<Child>, b: seq<Child>, path: Path)
    requires multiset(a) == multiset(b)
    ensures Bag(a, path) == Bag(b, path)
    decreases |a|
  {
    hide Item;
    if a == [] {
      assert |multiset(b)| == 0;
    } else {
      assert a[0] in multiset(b);
      var k :| 0 <= k < |b| && b[k] == a[0];
      TailBag(a);
      ChildOut(b, k, path);
      BagPermuted(a[1..], b[..k] + b[k + 1..], path);
    }
  }

  /** A reordered tree has the same entries. */
  lemma {:induction false} ReorderedKeepsEntries(d: Disk, e: Disk, path: Path)
    requires d.Folder? && Reordered(d, e)
    ensures multiset(Below(d, 0, path)) == multiset(Below(e, 0, path))
    decreases d, 2, 0
  {
    hide Below, Item, Matched;
    var taken :| multiset(taken) == multiset(d.children) && Matched(d, taken, e.children);
    MatchedBags(d, taken, e.children, 0, path);
    BagPermuted(taken, d.children, path);
    BelowIsBag(d, 0, path);
    BelowIsBag(e, 0, path);
    assert d.children[0..] == d.children && e.children[0..] == e.children;
    assert taken[0..] == taken;
  }

  lemma {:induction false} MatchedBags(d: Disk, taken: seq<Child>, children: seq<Child>, k: nat, path: Path)
    requires d.Folder? && multiset(taken) == multiset(d.children) && Matched(d, taken, children) && k <= |taken|
    ensures k <= |children| && Bag(taken[k..], path) == Bag(children[k..], path)
    decreases d, 1, |taken| - k
  {
    hide Below, Item;
    if k < |taken| {
      var at: nat :| IsChild(d, at, taken[k]) && Reordered(d.children[at].disk, children[k].disk);
      assert taken[k..][1..] == taken[k + 1..] && children[k..][1..] == children[k + 1..];
      MatchedBags(d, taken, children, k + 1, path);
      SameItems(d, at, children[k], path);
    }
  }

  lemma {:induction false} SameItems(d: Disk, k: nat, c': Child, path: Path)
    requires d.Folder? && k < |d.children|
    requires d.children[k].name == c'.name && Reordered(d.children[k].disk, c'.disk)
    ensures multiset(Item(d.children[k], path)) == multiset(Item(c', path))
    decreases d, 0, 0
  {
    hide Below, Join;
    var c := d.children[k];
    if c.disk.Folder? {
      ReorderedKeepsEntries(c.disk, c'.disk, Join(path, c.name));
    }
  }

  /** However the directories of a tree are enumerated, at every level, the bundle
      is accepted or not, and as the same canonical list. */
  lemma EnumerationOrderIsIrrelevant(d: Disk, e: Disk)
    requires d.Folder? && Reordered(d, e)
    ensures e.Folder? && Prepared(Listing(d)) == Prepared(Listing(e))
  {
    hide Prepared;
    ReorderedKeepsEntries(d, e, []);
    PreparedPermuted(Listing(d), Listing(e));
  }

  /** Every directory above an accepted entry is an accepted entry itself. */
  lemma {:induction false} InnerNodesAreDirectories(entries: seq<Entry>, e: Entry, k: nat)
    requires TopologyValid(entries) && e in entries
    requires k < |e.path| && e.path[k] == SLASH
    ensures HasDirectory(entries, e.path[..k])
    decreases |e.path|
  {
    var i :| 0 <= i < |entries| && entries[i] == e;
    assert ParentListed(entries, entries[i]);
    LastSlashIs(e.path);
    var last := LastSlash(e.path).value;
    if k < last {
      var p :| 0 <= p < |entries| && entries[p].kind.Directory? && entries[p].path == e.path[..last];
      InnerNodesAreDirectories(entries, entries[p], k);
      assert e.path[..last][..k] == e.path[..k];
    }
  }

  // ---- The stream ------------------------------------------------------

  /** "APPPILOTKIT-IOS-APP-TREE", a zero and the version. */
  const MAGIC: seq<byte> := [
    0x41, 0x50, 0x50, 0x50, 0x49, 0x4C, 0x4F, 0x54, 0x4B, 0x49, 0x54, 0x2D, 0x49,
    0x4F, 0x53, 0x2D, 0x41, 0x50, 0x50, 0x2D, 0x54, 0x52, 0x45, 0x45, 0x00, 0x01]

  /** Entries as collecting makes them. */
  predicate WellFormed(e: Entry) {
    && !e.kind.Other? && |e.path| < 0x1_0000_0000 && |e.content| <= U64_MAX
    && (e.kind.Directory? ==> !e.executable && e.content == [])
  }

  predicate AllWellFormed(entries: seq<Entry>) {
    |entries| < 0x1_0000_0000 && forall i :: 0 <= i < |entries| ==> WellFormed(entries[i])
  }

  function KindByte(kind: Kind): byte {
    if kind.Directory? then 1 else 2
  }

  function Header(e: Entry): seq<byte>
    requires WellFormed(e)
  {
    [KindByte(e.kind)] + Be32(|e.path|) + e.path + [if e.executable then 1 else 0]
    + (if e.kind.File? then Be64(|e.content|) else [])
  }

  function Record(e: Entry): seq<byte>
    requires WellFormed(e)
  {
    Header(e) + e.content
  }

  function Records(entries: seq<Entry>): seq<byte>
    requires AllWellFormed(entries)
  {
    if entries == [] then [] else Record(entries[0]) + Records(entries[1..])
  }

  function Stream(entries: seq<Entry>): seq<byte>
    requires AllWellFormed(entries)
  {
    MAGIC + Be32(|entries|) + Records(entries)
  }

  lemma CollectedAreWellFormed(found: seq<Entry>)
    requires Allowed(found)
    requires forall i :: 0 <= i < |found| && found[i].kind.Directory? ==> !found[i].executable && found[i].content == []
    ensures AllWellFormed(found)
  {
    hide Components, Utf8.Valid;
    forall i | 0 <= i < |found| ensures WellFormed(found[i]) {
      assert EntryAllowed(found[i]);
    }
  }

  /** What follows the path in a record and beyond it. */
  lemma RecordTail(e: Entry, x: seq<byte>)
    requires WellFormed(e)
    ensures var n, all := |e.path|, Record(e) + x;
            && |all| >= 6 + n && all[5 + n] == (if e.executable then 1 else 0)
            && all[6 + n..] == if e.kind.File? then Be64(|e.content|) + (e.content + x) else x
  {
    hide Be32, Be64;
    Be32Inverse(|e.path|, []);
    var front := [KindByte(e.kind)] + Be32(|e.path|) + e.path + [if e.executable then 1 else 0];
    var tail := if e.kind.File? then Be64(|e.content|) + (e.content + x) else x;
    assert |front| == 6 + |e.path|;
    assert Record(e) + x == front + tail;
    assert (front + tail)[|front|..] == tail;
  }

  /** A length and that many bytes can be told from what comes after them. */
  lemma ContentDetermines(a: seq<byte>, b: seq<byte>, x: seq<byte>, y: seq<byte>)
    requires |a| <= U64_MAX && |b| <= U64_MAX
    requires Be64(|a|) + (a + x) == Be64(|b|) + (b + y)
    ensures a == b && x == y
  {
    hide Be64;
    Be64Inverse(|a|, a + x);
    Be64Inverse(|b|, b + y);
    var all := Be64(|a|) + (a + x);
    assert all[8..] == a + x && all[8..] == b + y;
    assert (a + x)[..|a|] == a && (b + y)[..|b|] == b;
    assert (a + x)[|a|..] == x && (b + y)[|b|..] == y;
  }

  /** A record tells where it ends and what it holds. */
  lemma RecordDetermines(e: Entry, f: Entry, x: seq<byte>, y: seq<byte>)
    requires WellFormed(e) && WellFormed(f)
    requires Record(e) + x == Record(f) + y
    ensures e == f && x == y
  {
    hide Be32, Be64, Record;
    RecordPath(e, f, x, y);
    RecordTail(e, x);
    RecordTail(f, y);
    if e.kind.File? {
      ContentDetermines(e.content, f.content, x, y);
    }
  }

  lemma PathSlice(e: Entry, x: seq<byte>)
    requires WellFormed(e)
    ensures |Record(e)| >= 5 + |e.path| && (Record(e) + x)[5..5 + |e.path|] == e.path
  {
    hide Be32, Be64;
    Be32Inverse(|e.path|, []);
  }

  lemma RecordPath(e: Entry, f: Entry, x: seq<byte>, y: seq<byte>)
    requires WellFormed(e) && WellFormed(f)
    requires Record(e) + x == Record(f) + y
    ensures e.kind == f.kind && e.path == f.path
  {
    hide Be32, Be64;
    Be32Inverse(|e.path|, []);
    Be32Inverse(|f.path|, []);
    var all := Record(e) + x;
    assert all[0] == KindByte(e.kind) && all[0] == KindByte(f.kind);
    assert all[1..5] == Be32(|e.path|) && all[1..5] == Be32(|f.path|);
    assert Be32(|e.path|) + [] == Be32(|e.path|) && Be32(|f.path|) + [] == Be32(|f.path|);
    assert |e.path| == |f.path|;
    PathSlice(e, x);
    PathSlice(f, y);
  }

  lemma {:induction false} RecordsDetermine(a: seq<Entry>, b: seq<Entry>)
    requires AllWellFormed(a) && AllWellFormed(b) && |a| == |b|
    requires Records(a) == Records(b)
    ensures a == b
    decreases |a|
  {
    hide Record;
    if a != [] {
      RecordDetermines(a[0], b[0], Records(a[1..]), Records(b[1..]));
      RecordsDetermine(a[1..], b[1..]);
      assert a == [a[0]] + a[1..] && b == [b[0]] + b[1..];
    }
  }

  /** Two accepted trees with the same stream are the same tree: same paths,
      kinds, executable classes and contents. */
  lemma StreamIsInjective(a: seq<Entry>, b: seq<Entry>)
    requires AllWellFormed(a) && AllWellFormed(b)
    requires Stream(a) == Stream(b)
    ensures a == b
  {
    hide Records, Be32, MAGIC;
    var n := |MAGIC|;
    Be32Inverse(|a|, Records(a));
    Be32Inverse(|b|, Records(b));
    Assoc(MAGIC, Be32(|a|), Records(a));
    Assoc(MAGIC, Be32(|b|), Records(b));
    assert Stream(a)[n..] == Be32(|a|) + Records(a) && Stream(b)[n..] == Be32(|b|) + Records(b);
    assert Stream(a)[n..][4..] == Records(a) && Stream(b)[n..][4..] == Records(b);
    RecordsDetermine(a, b);
  }

  /** Everything that is handed to the digest, in order. */
  class Hasher {
    var emitted: seq<byte>

    constructor ()
      ensures emitted == []
    {
      emitted := [];
    }

    method Emit(bytes: seq<byte>)
      modifies this
      ensures emitted == old(emitted) + bytes
    {
      emitted := emitted + bytes;
    }

    method EmitContent(content: seq<byte>)
      modifies this
      ensures emitted == old(emitted) + content
    {
      var remaining := |content|;
      assert emitted + content[|content| - remaining..] == emitted + content;
      while remaining > 0
        invariant 0 <= remaining <= |content|
        invariant emitted + content[|content| - remaining..] == old(emitted) + content
      {
        var amount := if remaining < COPY_BUFFER_BYTES then remaining else COPY_BUFFER_BYTES;
        var from := |content| - remaining;
        ghost var before := emitted;
        Assoc(before, content[from..from + amount], content[from + amount..]);
        assert content[from..] == content[from..from + amount] + content[from + amount..];
        Emit(content[from..from + amount]);
        remaining := remaining - amount;
      }
      assert content[|content|..] == [] && emitted + [] == emitted;
    }

    method EmitRecord(e: Entry)
      requires WellFormed(e)
      modifies this
      ensures emitted == old(emitted) + Record(e)
    {
      hide Be32, Be64;
      Emit([KindByte(e.kind)]);
      Emit(Be32(|e.path|));
      Emit(e.path);
      Emit([if e.executable then 1 else 0]);
      if e.kind.File? {
        Emit(Be64(|e.content|));
      }
      assert emitted == old(emitted) + Header(e);
      Assoc(old(emitted), Header(e), e.content);
      if e.kind.File? {
        EmitContent(e.content);
      } else {
        assert emitted + [] == emitted;
      }
    }

    method HashEntries(entries: seq<Entry>)
      requires AllWellFormed(entries) && emitted == []
      modifies this
      ensures emitted == Stream(entries)
    {
      hide Be32, Record, MAGIC;
      Emit(MAGIC);
      Emit(Be32(|entries|));
      assert emitted == MAGIC + Be32(|entries|) && entries[0..] == entries;
      for i := 0 to |entries|
        invariant emitted + Records(entries[i..]) == Stream(entries)
      {
        assert entries[i..][0] == entries[i] && entries[i..][1..] == entries[i + 1..];
        Assoc(emitted, Record(entries[i]), Records(entries[i + 1..]));
        EmitRecord(entries[i]);
      }
      assert entries[|entries|..] == [] && emitted + [] == emitted;
    }
  }

  // ---- The whole of it -------------------------------------------------

  predicate BareDirectories(entries: seq<Entry>) {
    forall i :: 0 <= i < |entries| && entries[i].kind.Directory? ==> !entries[i].executable && entries[i].content == []
  }

  lemma {:induction false} ListingIsBare(d: Disk, k: nat, path: Path)
    requires d.Folder? && k <= |d.children|
    ensures BareDirectories(Below(d, k, path))
    decreases d, |d.children| - k
  {
    if k < |d.children| {
      var c := d.children[k];
      var own := Join(path, c.name);
      if c.disk.Folder? {
        ListingIsBare(c.disk, 0, own);
      }
      ListingIsBare(d, k + 1, path);
      assert BareDirectories(Item(c, path));
    }
  }

  lemma PreparedIsWellFormed(found: seq<Entry>)
    requires Prepared(found).Some? && BareDirectories(found)
    ensures AllWellFormed(Prepared(found).value)
  {
    hide EntryAllowed, TopologyValid;
    var sorted := Prepared(found).value;
    SortSorts(found);
    AllowedPermuted(found, sorted);
    forall i | 0 <= i < |sorted| && sorted[i].kind.Directory?
      ensures !sorted[i].executable && sorted[i].content == []
    {
      assert sorted[i] in multiset(found);
      var k :| 0 <= k < |found| && found[k] == sorted[i];
    }
    CollectedAreWellFormed(sorted);
  }

  /** Two accepted bundles have the same stream exactly when they have the same
      entries, and every inner node of an accepted one is a directory of it. */
  lemma StreamIdentifiesBundle(d: Disk, e: Disk, a: seq<Entry>, b: seq<Entry>)
    requires d.Folder? && e.Folder?
    requires Prepared(Listing(d)) == Some(a) && Prepared(Listing(e)) == Some(b)
    ensures AllWellFormed(a) && AllWellFormed(b)
    ensures Stream(a) == Stream(b) <==> a == b
    ensures forall x, k: nat :: x in a && k < |x.path| && x.path[k] == SLASH ==> HasDirectory(a, x.path[..k])
  {
    hide Stream, Allowed;
    ListingIsBare(d, 0, []);
    ListingIsBare(e, 0, []);
    PreparedIsWellFormed(Listing(d));
    PreparedIsWellFormed(Listing(e));
    if Stream(a) == Stream(b) {
      StreamIsInjective(a, b);
    }
    forall x, k: nat | x in a && k < |x.path| && x.path[k] == SLASH ensures HasDirectory(a, x.path[..k]) {
      InnerNodesAreDirectories(a, x, k);
    }
  }

  method ValidateTopology(entries: seq<Entry>) returns (ok: bool)
    ensures ok <==> TopologyValid(entries)
  {
    var directories: set<Path> := {};
    for i := 0 to |entries|
      invariant forall p :: p in directories <==> HasDirectory(entries[..i], p)
    {
      assert entries[..i + 1] == entries[..i] + [entries[i]];
      ghost var before := directories;
      if entries[i].kind.Directory? {
        directories := directories + {entries[i].path};
      }
      forall p ensures p in directories <==> HasDirectory(entries[..i + 1], p) {
        MoreDirectories(entries[..i], entries[i], p);
      }
    }
    assert entries[..|entries|] == entries;
    for i := 0 to |entries|
      invariant forall k :: 0 <= k < i ==> ParentListed(entries, entries[k])
    {
      LastSlashIs(entries[i].path);
      var separator := LastSlash(entries[i].path);
      if separator.Some? && entries[i].path[..separator.value] !in directories {
        assert !ParentListed(entries, entries[i]);
        return false;
      }
    }
    ok := true;
  }

  lemma MoreDirectories(entries: seq<Entry>, e: Entry, p: Path)
    ensures HasDirectory(entries + [e], p) <==> HasDirectory(entries, p) || (e.kind.Directory? && e.path == p)
  {
    if HasDirectory(entries, p) {
      var i :| 0 <= i < |entries| && entries[i].kind.Directory? && entries[i].path == p;
      assert (entries + [e])[i] == entries[i];
    }
    if e.kind.Directory? && e.path == p {
      assert (entries + [e])[|entries|] == e;
    }
  }

  method CollectEntries(root: Disk) returns (r: Option<seq<Entry>>)
    requires root.Folder?
    ensures r == Prepared(Listing(root))
  {
    hide Allowed, TopologyValid, Less, Sort, Below;
    var collector := new Collector();
    AllowedNone();
    var ok := collector.CollectDirectory(root, []);
    assert [] + Below(root, 0, []) == Listing(root);
    if !ok {
      return None;
    }
    var sorted := Sort(collector.entries);
    SortSorts(collector.entries);
    var i := 1;
    while i < |sorted|
      invariant 1 <= i
      invariant forall k :: 0 < k < i && k < |sorted| ==> Less(sorted[k - 1].path, sorted[k].path)
    {
      if !Less(sorted[i - 1].path, sorted[i].path) {
        assert !StrictlyAscending(sorted);
        return None;
      }
      i := i + 1;
    }
    NeighboursSuffice(sorted);
    ok := ValidateTopology(sorted);
    r := if ok then Some(sorted) else None;
  }

  lemma AllowedNone()
    ensures Allowed([])
  {
  }

  lemma NeighboursSuffice(entries: seq<Entry>)
    requires forall k :: 0 < k < |entries| ==> Less(entries[k - 1].path, entries[k].path)
    ensures StrictlyAscending(entries)
  {
    forall i, j | 0 <= i < j < |entries| ensures Less(entries[i].path, entries[j].path) {
      Chain(entries, i, j);
    }
  }

  lemma {:induction false} Chain(entries: seq<Entry>, i: nat, j: nat)
    requires i < j < |entries|
    requires forall k :: 0 < k < |entries| ==> Less(entries[k - 1].path, entries[k].path)
    ensures Less(entries[i].path, entries[j].path)
    decreases j
  {
    assert Less(entries[j - 1].path, entries[j].path);
    if i < j - 1 {
      Chain(entries, i, j - 1);
      LessIsTransitive(entries[i].path, entries[j - 1].path, entries[j].path);
    }
  }
}
