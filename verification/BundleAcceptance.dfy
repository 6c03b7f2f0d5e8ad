/** Which bundles are accepted: what has to hold of every name, file and folder of
    the tree, said of the tree and not of a list of paths. */
module BundleAcceptance {
  import opened Common
  import opened AppTree
  import opened BundleIdentity
  import Utf8

  // ---- Names and paths -------------------------------------------------

  /** A name that may stand in a path: up to 255 bytes of text without a zero or a
      slash, neither of the two dots. */
  predicate Name(n: Path) {
    0 < |n| <= 255 && n != [0x2E] && n != [0x2E, 0x2E] && 0 !in n && SLASH !in n && Utf8.Valid(n)
  }

  function Depth(path: Path): nat {
    if path == [] then 0 else |Components(path)|
  }

  lemma {:induction false} OneComponent(n: Path)
    requires SLASH !in n
    ensures Components(n) == [n]
    decreases |n|
  {
    if n != [] {
      OneComponent(n[1..]);
      assert n == [n[0]] + n[1..];
    }
  }

  /** One more byte in front starts a new component, or goes on with the first. */
  function Prefixed(b: byte, components: seq<Path>): seq<Path>
    requires components != []
  {
    if b == SLASH then [[]] + components else [[b] + components[0]] + components[1..]
  }

  lemma ComponentsFirst(b: byte, s: Path)
    requires Components(s) != []
    ensures Components([b] + s) == Prefixed(b, Components(s))
  {
    assert ([b] + s)[1..] == s;
  }

  lemma PrefixedThen(b: byte, a: seq<Path>, c: seq<Path>)
    requires a != []
    ensures Prefixed(b, a + c) == Prefixed(b, a) + c
  {
  }

  lemma {:induction false} ComponentsJoin(p: Path, n: Path)
    ensures Components(p + [SLASH] + n) == Components(p) + Components(n)
    ensures Components(p) != []
    decreases |p|
  {
    if p == [] {
      assert p + [SLASH] + n == [SLASH] + n;
      HasComponents(n);
      ComponentsFirst(SLASH, n);
    } else {
      hide Components, Prefixed;
      var more := p[1..];
      ComponentsJoin(more, n);
      assert p == [p[0]] + more && p + [SLASH] + n == [p[0]] + (more + [SLASH] + n);
      ComponentsFirst(p[0], more);
      ComponentsFirst(p[0], more + [SLASH] + n);
      PrefixedThen(p[0], Components(more), Components(n));
      HasComponents(p);
    }
  }

  lemma HasComponents(p: Path)
    ensures Components(p) != []
  {
  }

  lemma ScalarStays(s: seq<byte>, x: seq<byte>)
    requires 0 < Utf8.ScalarLength(s) <= |s|
    ensures Utf8.ScalarLength(s + x) == Utf8.ScalarLength(s)
  {
  }

  lemma {:induction false} TextThen(a: seq<byte>, x: seq<byte>)
    requires Utf8.Valid(a)
    ensures Utf8.Valid(a + x) <==> Utf8.Valid(x)
    decreases |a|
  {
    hide Utf8.ScalarLength;
    if a == [] {
      assert a + x == x;
    } else {
      var n := Utf8.ScalarLength(a);
      ScalarStays(a, x);
      assert (a + x)[n..] == a[n..] + x;
      TextThen(a[n..], x);
    }
  }

  lemma SlashIsText(x: seq<byte>)
    ensures Utf8.Valid([SLASH] + x) <==> Utf8.Valid(x)
  {
    TextThen([SLASH], x);
  }

  predicate AllValid(components: seq<Path>) {
    forall i :: 0 <= i < |components| ==> ValidComponent(components[i])
  }

  lemma AllValidJoin(a: seq<Path>, n: Path)
    ensures AllValid(a + [n]) <==> AllValid(a) && ValidComponent(n)
  {
    var all := a + [n];
    assert all[|a|] == n;
    assert forall i :: 0 <= i < |a| ==> all[i] == a[i];
  }

  lemma JoinedBytes(path: Path, name: Path)
    requires path != []
    ensures Join(path, name) == path + ([SLASH] + name)
    ensures 0 in Join(path, name) <==> 0 in path || 0 in name
  {
    Assoc(path, [SLASH], name);
    assert 0 in [SLASH] + name <==> 0 in [SLASH] || 0 in name;
    assert 0 in path + ([SLASH] + name) <==> 0 in path || 0 in [SLASH] + name;
  }

  /** A name makes a valid path below a valid one exactly if it is a name, and the path
      does not get too deep or too long. */
  lemma PathExactly(path: Path, name: Path)
    requires (path == [] || ValidPath(path)) && SLASH !in name
    ensures ValidPath(Join(path, name)) <==>
            Name(name) && Depth(path) < 64 && |Join(path, name)| <= 4096
    ensures Depth(Join(path, name)) == if path == [] && name == [] then 0 else Depth(path) + 1
  {
    hide Utf8.Valid, Components;
    OneComponent(name);
    if path != [] {
      ComponentsJoin(path, name);
      JoinedBytes(path, name);
      TextThen(path, [SLASH] + name);
      SlashIsText(name);
      AllValidJoin(Components(path), name);
      assert AllValid(Components(path));
    }
    AllValidJoin([], name);
    assert [] + [name] == [name];
    ValidPathIs(Join(path, name));
    if path != [] {
      ValidPathIs(path);
    }
  }

  lemma ValidPathIs(path: Path)
    ensures ValidPath(path) <==>
            && path != [] && |path| <= 4096 && 0 !in path && Utf8.Valid(path) && |Components(path)| <= 64
            && AllValid(Components(path))
  {
    hide Utf8.Valid, Components;
  }

  // ---- Entries that are allowed ----------------------------------------

  /** Every name is one, no path too deep or too long, no file too large, and nothing
      special. */
  predicate Sound(d: Disk, path: Path)
    decreases d
  {
    match d
    case Special => false
    case Plain(content, _) => |content| <= 0x2000_0000
    case Folder(children) =>
      forall i :: 0 <= i < |children| ==>
        && Name(children[i].name) && Depth(path) < 64 && |Join(path, children[i].name)| <= 4096
        && Sound(children[i].disk, Join(path, children[i].name))
  }

  predicate SoundChild(c: Child, path: Path) {
    Name(c.name) && Depth(path) < 64 && |Join(path, c.name)| <= 4096 && Sound(c.disk, Join(path, c.name))
  }

  predicate EachAllowed(entries: seq<Entry>) {
    forall i :: 0 <= i < |entries| ==> EntryAllowed(entries[i])
  }

  lemma EachParts(a: seq<Entry>, b: seq<Entry>)
    ensures EachAllowed(a + b) <==> EachAllowed(a) && EachAllowed(b)
  {
    hide EntryAllowed;
    var all := a + b;
    assert forall i :: 0 <= i < |a| ==> all[i] == a[i];
    assert forall i :: 0 <= i < |b| ==> all[|a| + i] == b[i];
    assert forall i :: |a| <= i < |all| ==> all[i] == b[i - |a|];
  }

  lemma HeadAllowed(c: Child, path: Path)
    ensures EachAllowed([Head(c, path)]) <==>
            ValidPath(Join(path, c.name)) && !c.disk.Special? && (c.disk.Plain? ==> |c.disk.content| <= 0x2000_0000)
  {
    hide ValidPath;
    assert [Head(c, path)][0] == Head(c, path);
  }

  /** The entries below a folder are allowed exactly if everything in it is sound. */
  lemma {:induction false} BelowExactly(d: Disk, k: nat, path: Path)
    requires d.Folder? && PlainNames(d) && k <= |d.children| && (path == [] || ValidPath(path))
    ensures EachAllowed(Below(d, k, path)) <==>
            forall j :: k <= j < |d.children| ==> SoundChild(d.children[j], path)
    decreases d, |d.children| - k
  {
    hide EntryAllowed, EachAllowed, SoundChild, ValidPath;
    if k == |d.children| {
      assert EachAllowed([]) by {
        NothingAllowed();
      }
    } else {
      var c := d.children[k];
      ItemIs(c, path);
      EachParts(Item(c, path), Below(d, k + 1, path));
      EachParts([Head(c, path)], Inside(c, path));
      HeadAllowed(c, path);
      PathExactly(path, c.name);
      ChildExactly(c, path);
      if c.disk.Folder? && ValidPath(Join(path, c.name)) {
        BelowExactly(c.disk, 0, Join(path, c.name));
      } else if !c.disk.Folder? {
        NothingAllowed();
      }
      BelowExactly(d, k + 1, path);
    }
  }

  lemma NothingAllowed()
    ensures EachAllowed([])
  {
  }

  lemma ChildExactly(c: Child, path: Path)
    ensures SoundChild(c, path) <==>
            && Name(c.name) && Depth(path) < 64 && |Join(path, c.name)| <= 4096 && !c.disk.Special?
            && (c.disk.Plain? ==> |c.disk.content| <= 0x2000_0000)
            && (c.disk.Folder? ==>
                  forall j :: 0 <= j < |c.disk.children| ==> SoundChild(c.disk.children[j], Join(path, c.name)))
  {
    hide Name;
  }

  // ---- Paths that differ -----------------------------------------------

  /** No two children of one folder have the same name. */
  predicate Unlike(d: Disk)
    decreases d
  {
    d.Folder? ==>
      && (forall i, j :: 0 <= i < j < |d.children| ==> d.children[i].name != d.children[j].name)
      && (forall i :: 0 <= i < |d.children| ==> Unlike(d.children[i].disk))
  }

  predicate PathsDiffer(entries: seq<Entry>) {
    forall i, j :: 0 <= i < j < |entries| ==> entries[i].path != entries[j].path
  }

  predicate Apart(a: seq<Entry>, b: seq<Entry>) {
    forall x, y :: x in a && y in b ==> x.path != y.path
  }

  lemma DifferParts(a: seq<Entry>, b: seq<Entry>)
    ensures PathsDiffer(a + b) <==> PathsDiffer(a) && PathsDiffer(b) && Apart(a, b)
  {
    var all := a + b;
    if PathsDiffer(all) {
      assert forall i :: 0 <= i < |a| ==> all[i] == a[i];
      assert forall i :: 0 <= i < |b| ==> all[|a| + i] == b[i];
      forall x, y | x in a && y in b ensures x.path != y.path {
        var i :| 0 <= i < |a| && a[i] == x;
        var j :| 0 <= j < |b| && b[j] == y;
        assert all[i].path != all[|a| + j].path;
      }
    }
    if PathsDiffer(a) && PathsDiffer(b) && Apart(a, b) {
      forall i, j | 0 <= i < j < |all| ensures all[i].path != all[j].path {
        assert all[i] == if i < |a| then a[i] else b[i - |a|];
        assert all[j] == if j < |a| then a[j] else b[j - |a|];
        if i < |a| <= j {
          assert a[i] in a && b[j - |a|] in b;
        }
      }
    }
  }

  /** Entries of children with different names have different paths. */
  lemma OthersApart(d: Disk, k: nat, path: Path)
    requires d.Folder? && PlainNames(d) && k < |d.children|
    requires forall j :: k <= j < |d.children| ==> d.children[j].name != []
    requires forall j :: k < j < |d.children| ==> d.children[j].name != d.children[k].name
    ensures Apart(Item(d.children[k], path), Below(d, k + 1, path))
  {
    var c := d.children[k];
    forall x, y | x in Item(c, path) && y in Below(d, k + 1, path) ensures x.path != y.path {
      ItemIs(c, path);
      var j := OwnerOf(d, k + 1, path, y);
      JoinIs(path, c.name);
      JoinIs(path, d.children[j].name);
      OwnedGoesThrough(path, x, c);
      OwnedGoesThrough(path, y, d.children[j]);
      if x.path == y.path {
        SameName(x.path, Base(path), c.name, d.children[j].name);
      }
    }
  }

  lemma HeadApart(c: Child, path: Path)
    requires c.name != []
    ensures Apart([Head(c, path)], Inside(c, path))
  {
    forall x, y | x in [Head(c, path)] && y in Inside(c, path) ensures x.path != y.path {
      JoinIs(path, c.name);
      InsideIsNoHead(c, path, y);
    }
  }

  predicate NamedFrom(d: Disk, k: nat)
    requires d.Folder?
  {
    forall j :: k <= j < |d.children| ==> d.children[j].name != []
  }

  /** Every name in the tree is there. */
  predicate AllNamed(d: Disk)
    decreases d
  {
    d.Folder? ==> forall i :: 0 <= i < |d.children| ==> d.children[i].name != [] && AllNamed(d.children[i].disk)
  }

  /** All paths differ where siblings' names do. */
  lemma {:induction false} UnlikeDiffers(d: Disk, k: nat, path: Path)
    requires d.Folder? && PlainNames(d) && AllNamed(d) && Unlike(d) && k <= |d.children|
    ensures PathsDiffer(Below(d, k, path))
    decreases d, |d.children| - k
  {
    hide PathsDiffer, Apart;
    if k == |d.children| {
      NothingDiffers();
    } else {
      var c := d.children[k];
      ItemIs(c, path);
      UnlikeDiffers(d, k + 1, path);
      DifferParts(Item(c, path), Below(d, k + 1, path));
      DifferParts([Head(c, path)], Inside(c, path));
      OneDiffers(Head(c, path));
      OthersApart(d, k, path);
      HeadApart(c, path);
      if c.disk.Folder? {
        UnlikeDiffers(c.disk, 0, Join(path, c.name));
      } else {
        NothingDiffers();
      }
    }
  }

  lemma NothingDiffers()
    ensures PathsDiffer([])
  {
  }

  lemma OneDiffers(e: Entry)
    ensures PathsDiffer([e])
  {
  }

  /** And nowhere else. */
  lemma {:induction false} DiffersUnlike(d: Disk, path: Path)
    requires d.Folder? && Clean(Below(d, 0, path))
    ensures Unlike(d)
    decreases d
  {
    hide Clean;
    forall i, j | 0 <= i < j < |d.children| ensures d.children[i].name != d.children[j].name {
      NamesDiffer(d, 0, path, i, j);
    }
    forall i | 0 <= i < |d.children| ensures Unlike(d.children[i].disk) {
      CleanChild(d, 0, path, i);
      if d.children[i].disk.Folder? {
        DiffersUnlike(d.children[i].disk, Join(path, d.children[i].name));
      }
    }
  }

  // ---- The canonical list ----------------------------------------------

  /** With different paths the sorted list is strictly sorted. */
  lemma SortedStrictly(found: seq<Entry>)
    requires PathsDiffer(found)
    ensures StrictlyAscending(Sort(found))
  {
    var sorted := Sort(found);
    SortSorts(found);
    forall i, j | 0 <= i < j < |sorted| ensures Less(sorted[i].path, sorted[j].path) {
      var a, b := TwoPlaces(sorted, found, i, j);
      assert sorted[i].path != sorted[j].path;
      LessIsTotal(sorted[i].path, sorted[j].path);
    }
  }

  /** The folder an entry lies in is the given one, or is listed. */
  predicate ParentKnown(x: Entry, path: Path, entries: seq<Entry>) {
    match LastSlash(x.path)
    case None => true
    case Some(k) => k < |x.path| && (x.path[..k] == path || HasDirectory(entries, x.path[..k]))
  }

  lemma LastSlashAt(front: Path, name: Path)
    requires SLASH !in name
    ensures LastSlash(front + [SLASH] + name) == Some(|front|)
  {
    hide LastSlash;
    var p := front + [SLASH] + name;
    LastSlashIs(p);
    assert p[|front|] == SLASH;
    assert forall i :: |front| < i < |p| ==> p[i] == name[i - |front| - 1];
  }

  lemma NoSlashAt(name: Path)
    requires SLASH !in name
    ensures LastSlash(name).None?
  {
    LastSlashIs(name);
  }

  lemma HeadParent(c: Child, path: Path, entries: seq<Entry>)
    requires SLASH !in c.name && c.name != []
    ensures ParentKnown(Head(c, path), path, entries)
    ensures path == [] ==> LastSlash(Head(c, path).path).None?
  {
    hide LastSlash, HasDirectory;
    if path == [] {
      NoSlashAt(c.name);
    } else {
      LastSlashAt(path, c.name);
      assert (path + [SLASH] + c.name)[..|path|] == path;
    }
  }

  lemma ListedStays(entries: seq<Entry>, more: seq<Entry>, p: Path)
    requires HasDirectory(entries, p) && forall x :: x in entries ==> x in more
    ensures HasDirectory(more, p)
  {
    var i :| 0 <= i < |entries| && entries[i].kind.Directory? && entries[i].path == p;
    assert entries[i] in entries;
    var j :| 0 <= j < |more| && more[j] == entries[i];
  }

  /** Everything below a folder lies in it or in a folder below it. */
  lemma {:induction false} ParentsKnown(d: Disk, path: Path, x: Entry)
    requires d.Folder? && PlainNames(d) && AllNamed(d) && x in Below(d, 0, path)
    ensures ParentKnown(x, path, Below(d, 0, path))
    ensures path == [] && LastSlash(x.path).Some? ==>
              && LastSlash(x.path).value < |x.path|
              && HasDirectory(Below(d, 0, path), x.path[..LastSlash(x.path).value])
    decreases d
  {
    hide HasDirectory;
    var j := OwnerOf(d, 0, path, x);
    var c := d.children[j];
    if x == Head(c, path) {
      HeadParent(c, path, Below(d, 0, path));
    } else {
      var inner := Join(path, c.name);
      ParentsKnown(c.disk, inner, x);
      LastSlashIs(x.path);
      OwnedIsListed(d, 0, path, j, Head(c, path));
      forall y | y in Below(c.disk, 0, inner) ensures y in Below(d, 0, path) {
        OwnedIsListed(d, 0, path, j, y);
      }
      DirectoryIsListed(Below(d, 0, path), Head(c, path));
      if LastSlash(x.path).Some? && HasDirectory(Below(c.disk, 0, inner), x.path[..LastSlash(x.path).value]) {
        ListedStays(Below(c.disk, 0, inner), Below(d, 0, path), x.path[..LastSlash(x.path).value]);
      }
    }
  }

  lemma DirectoryIsListed(entries: seq<Entry>, e: Entry)
    requires e in entries && e.kind.Directory?
    ensures HasDirectory(entries, e.path)
  {
    var i :| 0 <= i < |entries| && entries[i] == e;
  }

  lemma ListingIsTree(d: Disk)
    requires d.Folder? && PlainNames(d) && AllNamed(d)
    ensures TopologyValid(Sort(Listing(d)))
  {
    hide HasDirectory, Sort, Below;
    var found, sorted := Listing(d), Sort(Listing(d));
    SortSorts(found);
    forall x ensures x in found <==> x in sorted {
      assert x in multiset(found) <==> x in multiset(sorted);
    }
    forall i | 0 <= i < |sorted| ensures ParentListed(sorted, sorted[i]) {
      ParentsKnown(d, [], sorted[i]);
      LastSlashIs(sorted[i].path);
      if LastSlash(sorted[i].path).Some? {
        ListedStays(found, sorted, sorted[i].path[..LastSlash(sorted[i].path).value]);
      }
    }
  }

  lemma {:induction false} SoundIsNamed(d: Disk, path: Path)
    requires Sound(d, path)
    ensures AllNamed(d)
    decreases d
  {
    if d.Folder? {
      forall i | 0 <= i < |d.children| ensures d.children[i].name != [] && AllNamed(d.children[i].disk) {
        SoundIsNamed(d.children[i].disk, Join(path, d.children[i].name));
      }
    }
  }

  /** Exactly these bundles are accepted: those whose names, paths and files are sound,
      where no two siblings have the same name, and that have no more than 65535
      entries and 1 GiB of content in all. */
  lemma AcceptedExactly(d: Disk)
    requires d.Folder? && PlainNames(d)
    ensures Prepared(Listing(d)).Some? <==>
            && Sound(d, []) && Unlike(d)
            && |Listing(d)| <= 65_535 && Total(Listing(d)) <= 0x4000_0000
  {
    hide StrictlyAscending, TopologyValid, EntryAllowed, Sound, Unlike, AllNamed;
    var found := Listing(d);
    BelowExactly(d, 0, []);
    AllowedIs(found);
    SoundIs(d);
    if Prepared(found).Some? {
      AcceptedIsClean(found);
      DiffersUnlike(d, []);
    }
    if Sound(d, []) && Unlike(d) {
      SoundIsNamed(d, []);
      UnlikeDiffers(d, 0, []);
      SortedStrictly(found);
      ListingIsTree(d);
    }
  }

  lemma AllowedIs(found: seq<Entry>)
    ensures Allowed(found) <==>
            EachAllowed(found) && |found| <= 65_535 && Total(found) <= 0x4000_0000
  {
    hide EntryAllowed;
  }

  lemma SoundIs(d: Disk)
    requires d.Folder?
    ensures Sound(d, []) <==> forall j :: 0 <= j < |d.children| ==> SoundChild(d.children[j], [])
  {
    hide Name;
  }
}
