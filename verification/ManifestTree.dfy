/** What an accepted manifest is: chunks that tile the file, and elements that
    form one tree under a manifest root. */
module ManifestTree {
  import opened Common
  import opened Manifest
  import Utf8

  // ---- Chunks ----------------------------------------------------------

  function Chunks(s: seq<byte>, cursor: nat): Option<seq<Chunk>>
    requires cursor <= |s|
    decreases |s| - cursor
  {
    if cursor == |s| then Some([])
    else
      match ReadChunk(s, cursor)
      case None => None
      case Some(c) =>
        match Chunks(s, c.end)
        case None => None
        case Some(more) => Some([c] + more)
  }

  /** One chunk after the other, from the first byte to the last. */
  predicate Tiles(chunks: seq<Chunk>, from: nat, to: nat)
    decreases |chunks|
  {
    if chunks == [] then from == to
    else chunks[0].start == from && from + 8 <= chunks[0].end && Tiles(chunks[1..], chunks[0].end, to)
  }

  lemma {:induction false} AcceptedTiles(s: seq<byte>, st: State, cursor: nat, expected: Str)
    requires cursor <= |s| && TakeAll(s, st, cursor, expected).Some?
    ensures Chunks(s, cursor).Some? && Tiles(Chunks(s, cursor).value, cursor, |s|)
    decreases |s| - cursor
  {
    hide Take;
    if cursor < |s| {
      var c := ReadChunk(s, cursor).value;
      AcceptedTiles(s, Take(s, st, c, expected).value, c.end, expected);
      assert ([c] + Chunks(s, c.end).value)[1..] == Chunks(s, c.end).value;
    }
  }

  // ---- Elements as events ----------------------------------------------

  datatype Event = Opened(element: Element) | Closed(name: u32)

  function EventOf(s: seq<byte>, c: Chunk, pool: seq<Str>, resources: seq<u32>): seq<Event> {
    if c.end > |s| then []
    else if c.kind == RES_START_ELEMENT then
      match ReadElement(s, c.start, c.end, c.headerSize, pool, resources)
      case None => []
      case Some(e) => [Opened(e)]
    else if c.kind == RES_END_ELEMENT && c.start + 24 <= |s| then [Closed(Le32(s, c.start + 20).value)]
    else []
  }

  function EventsOf(s: seq<byte>, chunks: seq<Chunk>, pool: seq<Str>, resources: seq<u32>): seq<Event> {
    if chunks == [] then [] else EventOf(s, chunks[0], pool, resources) + EventsOf(s, chunks[1..], pool, resources)
  }

  function Events(s: seq<byte>, cursor: nat, pool: seq<Str>, resources: seq<u32>): seq<Event>
    requires cursor <= |s| && Chunks(s, cursor).Some?
  {
    EventsOf(s, Chunks(s, cursor).value, pool, resources)
  }

  // ---- Trees -----------------------------------------------------------

  datatype Node = Node(element: Element, kids: Nodes)
  datatype Nodes = Nil | Cons(first: Node, others: Nodes)

  function Flat(n: Node): seq<Event>
    decreases n
  {
    [Opened(n.element)] + FlatAll(n.kids) + [Closed(n.element.nameIndex)]
  }

  function FlatAll(nodes: Nodes): seq<Event>
    decreases nodes
  {
    match nodes
    case Nil => []
    case Cons(first, others) => Flat(first) + FlatAll(others)
  }

  function Height(n: Node): nat
    decreases n
  {
    1 + HeightAll(n.kids)
  }

  function HeightAll(nodes: Nodes): nat
    decreases nodes
  {
    match nodes
    case Nil => 0
    case Cons(first, others) => if Height(first) > HeightAll(others) then Height(first) else HeightAll(others)
  }

  // ---- What a tree says ------------------------------------------------

  /** Applications that are children of a manifest element. */
  function Applications(parent: Option<Str>, n: Node): nat
    decreases n
  {
    (if n.element.name == APPLICATION && parent == Some(MANIFEST) then 1 else 0)
    + ApplicationsIn(Some(n.element.name), n.kids)
  }

  function ApplicationsIn(parent: Option<Str>, nodes: Nodes): nat
    decreases nodes
  {
    match nodes
    case Nil => 0
    case Cons(first, others) => Applications(parent, first) + ApplicationsIn(parent, others)
  }

  /** An activity of an application, named as the bootstrap activity of the package. */
  predicate IsBootstrap(e: Element, parent: Option<Str>, expected: Str) {
    && e.name == ACTIVITY && parent == Some(APPLICATION)
    && match StringAttribute(e, Some(ANDROID_NS), NAME, Some(ATTR_NAME))
       case Some(Some(name)) => NormalizeActivity(expected, name) == Some(ExpectedActivity(expected))
       case _ => false
  }

  /** All of them, in document order. */
  function Bootstraps(expected: Str, parent: Option<Str>, n: Node): seq<Element>
    decreases n
  {
    (if IsBootstrap(n.element, parent, expected) then [n.element] else [])
    + BootstrapsIn(expected, Some(n.element.name), n.kids)
  }

  function BootstrapsIn(expected: Str, parent: Option<Str>, nodes: Nodes): seq<Element>
    decreases nodes
  {
    match nodes
    case Nil => []
    case Cons(first, others) => Bootstraps(expected, parent, first) + BootstrapsIn(expected, parent, others)
  }

  /** Exported as declared, which it has to be, and enabled unless declared otherwise. */
  predicate Declares(e: Element, exported: bool, enabled: bool) {
    && BooleanAttribute(e, Some(ANDROID_NS), EXPORTED, ATTR_EXPORTED) == Some(Some(exported))
    && match BooleanAttribute(e, Some(ANDROID_NS), ENABLED, ATTR_ENABLED)
       case None => false
       case Some(declared) => enabled == (declared.None? || declared.value)
  }

  /** The facts after elements with so many applications and these bootstrap activities. */
  predicate Grown(f: Facts, g: Facts, applications: nat, bootstraps: seq<Element>) {
    && g.applications == f.applications + applications
    && g.activities == f.activities + |bootstraps|
    && (if bootstraps == [] then g.exported == f.exported && g.enabled == f.enabled
        else f.activities == 0 && |bootstraps| == 1 && Declares(bootstraps[0], g.exported, g.enabled))
  }

  lemma GrownTwice(f: Facts, g: Facts, h: Facts, m: nat, n: nat, a: seq<Element>, b: seq<Element>)
    requires Grown(f, g, m, a) && Grown(g, h, n, b)
    ensures Grown(f, h, m + n, a + b)
  {
    hide Declares;
    if a == [] {
      assert a + b == b;
    } else {
      assert b == [] && a + b == a;
    }
  }

  // ---- The stack discipline --------------------------------------------

  datatype Nest = Nest(stack: seq<u32>, facts: Facts)

  function FollowOne(pool: seq<Str>, expected: Str, w: Nest, e: Event): Option<Nest> {
    match e
    case Opened(element) =>
      if || |w.stack| >= DEPTH_LIMIT || Get(pool, element.nameIndex) != Some(element.name)
         || (w.stack != [] && Parent(pool, w.stack).None?)
      then None
      else
        (match Note(w.facts, element, Parent(pool, w.stack), expected)
         case None => None
         case Some(facts) => Some(Nest(w.stack + [element.nameIndex], facts)))
    case Closed(n) =>
      if w.stack == [] || w.stack[|w.stack| - 1] != n then None else Some(w.(stack := w.stack[..|w.stack| - 1]))
  }

  function Follow(pool: seq<Str>, expected: Str, w: Nest, events: seq<Event>): Option<Nest>
    decreases |events|
  {
    if events == [] then Some(w)
    else
      match FollowOne(pool, expected, w, events[0])
      case None => None
      case Some(next) => Follow(pool, expected, next, events[1..])
  }

  function NestOf(st: State): Nest {
    Nest(st.stack, st.facts)
  }

  /** Elements only open once there are strings and resources, the first being the root. */
  predicate Right(st: State) {
    && (st.facts.package.Some? ==> st.strings.Some? && st.resources.Some?)
    && (st.stack != [] ==> st.strings.Some? && st.facts.package.Some?)
  }

  /** What is there once stays. */
  predicate Settled(st: State, pool: seq<Str>, resources: seq<u32>) {
    && (st.strings.Some? ==> st.strings.value == pool)
    && (st.resources.Some? ==> st.resources.value == resources)
  }

  /** What noting one element means. */
  lemma NoteIs(f: Facts, e: Element, parent: Option<Str>, expected: Str)
    requires Note(f, e, parent, expected).Some?
    ensures var g := Note(f, e, parent, expected).value;
            && Grown(f, g, if e.name == APPLICATION && parent == Some(MANIFEST) then 1 else 0,
                     if IsBootstrap(e, parent, expected) then [e] else [])
            && (parent.None? ==>
                  && e.name == MANIFEST && f.package.None? && g.package == Some(expected)
                  && StringAttribute(e, None, PACKAGE, None) == Some(Some(expected)))
            && (parent.Some? ==> g.package == f.package)
  {
    hide StringAttribute, BooleanAttribute, NormalizeActivity, MANIFEST, APPLICATION, ACTIVITY;
    NamesDiffer();
  }

  lemma NamesDiffer()
    ensures MANIFEST != APPLICATION && APPLICATION != ACTIVITY && MANIFEST != ACTIVITY
  {
    assert |MANIFEST| == 8 && |APPLICATION| == 11 && MANIFEST[0] == 0x6D && ACTIVITY[0] == 0x61 && |ACTIVITY| == 8;
  }

  lemma TakeKeeps(s: seq<byte>, st: State, c: Chunk, expected: Str)
    requires c.start + 8 <= c.end <= |s| && Right(st) && Take(s, st, c, expected).Some?
    ensures var next := Take(s, st, c, expected).value;
            && Right(next)
            && (st.strings.Some? ==> next.strings == st.strings)
            && (st.resources.Some? ==> next.resources == st.resources)
  {
    hide ReadPool, ReadResourceMap, ReadElement, Note, MANIFEST, APPLICATION, ACTIVITY;
    if c.kind == RES_START_ELEMENT {
      var e := ReadElement(s, c.start, c.end, c.headerSize, st.strings.value, st.resources.value).value;
      NoteIs(st.facts, e, Parent(st.strings.value, st.stack), expected);
    }
  }

  lemma {:induction false} PoolStays(s: seq<byte>, st: State, cursor: nat, expected: Str)
    requires cursor <= |s| && Right(st) && TakeAll(s, st, cursor, expected).Some?
    ensures var end := TakeAll(s, st, cursor, expected).value;
            && Right(end)
            && (st.strings.Some? ==> end.strings == st.strings)
            && (st.resources.Some? ==> end.resources == st.resources)
    decreases |s| - cursor
  {
    hide Take, Right;
    if cursor < |s| {
      var c := ReadChunk(s, cursor).value;
      TakeKeeps(s, st, c, expected);
      PoolStays(s, Take(s, st, c, expected).value, c.end, expected);
    }
  }

  /** A chunk moves the stack and the facts exactly as its event does. */
  lemma TakeFollows(s: seq<byte>, st: State, c: Chunk, expected: Str, pool: seq<Str>, resources: seq<u32>)
    requires c.start + 8 <= c.end <= |s| && Right(st) && Take(s, st, c, expected).Some?
    requires Settled(st, pool, resources)
    ensures Follow(pool, expected, NestOf(st), EventOf(s, c, pool, resources))
         == Some(NestOf(Take(s, st, c, expected).value))
  {
    hide ReadPool, ReadResourceMap, Note, MANIFEST, APPLICATION, ReadElement, FollowOne;
    if c.kind == RES_START_ELEMENT {
      OpenFollows(s, st, c, expected, pool, resources);
      FollowSingle(pool, expected, NestOf(st), EventOf(s, c, pool, resources)[0]);
    } else if c.kind == RES_END_ELEMENT {
      CloseFollows(s, st, c, expected, pool);
      FollowSingle(pool, expected, NestOf(st), Closed(Le32(s, c.start + 20).value));
    }
  }

  lemma FollowSingle(pool: seq<Str>, expected: Str, w: Nest, e: Event)
    ensures Follow(pool, expected, w, [e]) == FollowOne(pool, expected, w, e)
  {
    hide FollowOne;
    assert [e][1..] == [];
  }

  lemma OpenFollows(s: seq<byte>, st: State, c: Chunk, expected: Str, pool: seq<Str>, resources: seq<u32>)
    requires c.start + 8 <= c.end <= |s| && Right(st) && Open(s, st, c, expected).Some?
    requires Settled(st, pool, resources)
    ensures ReadElement(s, c.start, c.end, c.headerSize, pool, resources).Some?
    ensures FollowOne(pool, expected, NestOf(st),
                      Opened(ReadElement(s, c.start, c.end, c.headerSize, pool, resources).value))
         == Some(NestOf(Open(s, st, c, expected).value))
  {
    hide Note, MANIFEST, APPLICATION, ReadAttributes;
  }

  lemma CloseFollows(s: seq<byte>, st: State, c: Chunk, expected: Str, pool: seq<Str>)
    requires c.start + 8 <= c.end <= |s| && Close(s, st, c).Some?
    ensures c.start + 24 <= |s|
    ensures FollowOne(pool, expected, NestOf(st), Closed(Le32(s, c.start + 20).value))
         == Some(NestOf(Close(s, st, c).value))
  {
  }

  lemma {:induction false} FollowAppend(pool: seq<Str>, expected: Str, w: Nest, a: seq<Event>, b: seq<Event>)
    ensures Follow(pool, expected, w, a + b) ==
            match Follow(pool, expected, w, a) case None => None case Some(v) => Follow(pool, expected, v, b)
    decreases |a|
  {
    hide FollowOne;
    if a == [] {
      assert a + b == b;
    } else {
      assert (a + b)[1..] == a[1..] + b;
      match FollowOne(pool, expected, w, a[0]) {
        case None =>
        case Some(next) => FollowAppend(pool, expected, next, a[1..], b);
      }
    }
  }

  lemma {:induction false} ParserFollows(s: seq<byte>, st: State, cursor: nat, expected: Str,
                                         pool: seq<Str>, resources: seq<u32>)
    requires cursor <= |s| && Right(st) && TakeAll(s, st, cursor, expected).Some?
    requires TakeAll(s, st, cursor, expected).value.strings == Some(pool)
    requires TakeAll(s, st, cursor, expected).value.resources == Some(resources)
    ensures Chunks(s, cursor).Some?
    ensures Follow(pool, expected, NestOf(st), Events(s, cursor, pool, resources))
         == Some(NestOf(TakeAll(s, st, cursor, expected).value))
    decreases |s| - cursor
  {
    hide Take, FollowOne, EventOf, Right;
    PoolStays(s, st, cursor, expected);
    AcceptedTiles(s, st, cursor, expected);
    if cursor < |s| {
      var c := ReadChunk(s, cursor).value;
      var next := Take(s, st, c, expected).value;
      TakeKeeps(s, st, c, expected);
      TakeFollows(s, st, c, expected, pool, resources);
      ParserFollows(s, next, c.end, expected, pool, resources);
      var more := Chunks(s, c.end).value;
      assert ([c] + more)[1..] == more;
      FollowAppend(pool, expected, NestOf(st), EventOf(s, c, pool, resources), EventsOf(s, more, pool, resources));
    }
  }

  // ---- From the stack to the tree --------------------------------------

  /** The root element and nothing beside it. */
  predicate IsRoot(nodes: Nodes, expected: Str) {
    && nodes.Cons? && nodes.others.Nil? && nodes.first.element.name == MANIFEST
    && StringAttribute(nodes.first.element, None, PACKAGE, None) == Some(Some(expected))
  }

  lemma NothingGrows(expected: Str, parent: Option<Str>, f: Facts, events: seq<Event>)
    ensures Grown(f, f, ApplicationsIn(parent, Nil), BootstrapsIn(expected, parent, Nil))
    ensures events == FlatAll(Nil) + events
  {
  }

  /** What a start element does to the stack. */
  lemma Enters(pool: seq<Str>, expected: Str, w: Nest, e: Event)
    requires e.Opened? && FollowOne(pool, expected, w, e).Some?
    ensures var next := FollowOne(pool, expected, w, e).value;
            && |w.stack| < DEPTH_LIMIT && next.stack == w.stack + [e.element.nameIndex]
            && Parent(pool, next.stack) == Some(e.element.name) && (Parent(pool, w.stack).None? <==> w.stack == [])
            && Note(w.facts, e.element, Parent(pool, w.stack), expected) == Some(next.facts)
  {
    hide Note;
  }

  /** And what an end element does. */
  lemma Leaves(pool: seq<Str>, expected: Str, stack: seq<u32>, top: u32, u: Nest, e: Event)
    requires e.Closed? && FollowOne(pool, expected, u, e).Some? && u.stack == stack + [top]
    ensures e == Closed(top) && FollowOne(pool, expected, u, e) == Some(Nest(stack, u.facts))
  {
    assert u.stack[..|u.stack| - 1] == stack;
  }

  lemma FollowFirst(pool: seq<Str>, expected: Str, w: Nest, events: seq<Event>)
    requires events != [] && Follow(pool, expected, w, events).Some?
    ensures FollowOne(pool, expected, w, events[0]).Some?
    ensures Follow(pool, expected, FollowOne(pool, expected, w, events[0]).value, events[1..])
         == Follow(pool, expected, w, events)
  {
    hide FollowOne;
  }

  /** Reads complete elements off the front of events that end with an empty stack. */
  lemma {:induction false} ReadNodes(pool: seq<Str>, expected: Str, w: Nest, events: seq<Event>, end: Nest)
    returns (nodes: Nodes, rest: seq<Event>, v: Nest)
    requires Follow(pool, expected, w, events) == Some(end) && end.stack == [] && |w.stack| <= DEPTH_LIMIT
    ensures events == FlatAll(nodes) + rest && |rest| <= |events|
    ensures rest != [] ==> rest[0].Closed?
    ensures Follow(pool, expected, v, rest) == Some(end) && v.stack == w.stack
    ensures |w.stack| + HeightAll(nodes) <= DEPTH_LIMIT
    ensures Grown(w.facts, v.facts, ApplicationsIn(Parent(pool, w.stack), nodes),
                  BootstrapsIn(expected, Parent(pool, w.stack), nodes))
    ensures w.stack != [] || nodes.Nil? ==> v.facts.package == w.facts.package
    ensures w.stack == [] && nodes.Cons? ==> w.facts.package.None? && v.facts.package.Some? && IsRoot(nodes, expected)
    decreases |events|
  {
    hide Note, MANIFEST, APPLICATION, ACTIVITY, IsBootstrap, Declares, StringAttribute, Parent, FollowOne;
    hide ApplicationsIn, BootstrapsIn, FlatAll, Grown;
    if events == [] || events[0].Closed? {
      nodes, rest, v := Nil, events, w;
      NothingGrows(expected, Parent(pool, w.stack), w.facts, events);
    } else {
      var element, more := events[0].element, events[1..];
      var parent := Parent(pool, w.stack);
      FollowFirst(pool, expected, w, events);
      Enters(pool, expected, w, events[0]);
      NoteIs(w.facts, element, parent, expected);
      var next := FollowOne(pool, expected, w, events[0]).value;
      var own, after, u := ReadNodes(pool, expected, next, more, end);
      assert after != [];
      FollowFirst(pool, expected, u, after);
      Leaves(pool, expected, w.stack, element.nameIndex, u, after[0]);
      var back := FollowOne(pool, expected, u, after[0]).value;
      var siblings;
      siblings, rest, v := ReadNodes(pool, expected, back, after[1..], end);
      nodes := Cons(Node(element, own), siblings);
      Assemble(events, element, more, own, after, siblings, rest);
      FactsAdd(expected, parent, Node(element, own), siblings, w.facts, next.facts, u.facts, v.facts);
    }
  }

  lemma FactsAdd(expected: Str, parent: Option<Str>, n: Node, others: Nodes, f: Facts, g: Facts, h: Facts, k: Facts)
    requires Grown(f, g, if n.element.name == APPLICATION && parent == Some(MANIFEST) then 1 else 0,
                   if IsBootstrap(n.element, parent, expected) then [n.element] else [])
    requires Grown(g, h, ApplicationsIn(Some(n.element.name), n.kids),
                   BootstrapsIn(expected, Some(n.element.name), n.kids))
    requires Grown(h, k, ApplicationsIn(parent, others), BootstrapsIn(expected, parent, others))
    ensures Grown(f, k, ApplicationsIn(parent, Cons(n, others)), BootstrapsIn(expected, parent, Cons(n, others)))
  {
    hide Grown, MANIFEST, APPLICATION, IsBootstrap;
    var own := if IsBootstrap(n.element, parent, expected) then [n.element] else [];
    var one := if n.element.name == APPLICATION && parent == Some(MANIFEST) then 1 else 0;
    GrownTwice(f, g, h, one, ApplicationsIn(Some(n.element.name), n.kids), own,
               BootstrapsIn(expected, Some(n.element.name), n.kids));
    GrownTwice(f, h, k, Applications(parent, n), ApplicationsIn(parent, others), Bootstraps(expected, parent, n),
               BootstrapsIn(expected, parent, others));
  }

  lemma Assemble(events: seq<Event>, element: Element, more: seq<Event>, own: Nodes, after: seq<Event>, siblings: Nodes,
                 rest: seq<Event>)
    requires events != [] && events[0] == Opened(element) && events[1..] == more
    requires more == FlatAll(own) + after && after != [] && after[0] == Closed(element.nameIndex)
    requires after[1..] == FlatAll(siblings) + rest
    ensures events == FlatAll(Cons(Node(element, own), siblings)) + rest
  {
    var a, b := FlatAll(own), FlatAll(siblings);
    var first, last := [Opened(element)], [Closed(element.nameIndex)];
    assert events == first + more && after == last + after[1..];
    Assoc(first, a, last + (b + rest));
    Assoc(first + a, last, b + rest);
    Assoc(first + a + last, b, rest);
  }

  /** The shape of an accepted manifest. */
  predicate ShapeOf(t: Node, s: seq<byte>, st: State) {
    && |s| >= 8 && Chunks(s, 8).Some? && st.strings.Some? && st.resources.Some?
    && Events(s, 8, st.strings.value, st.resources.value) == Flat(t)
    && Height(t) <= DEPTH_LIMIT && t.element.name == MANIFEST
  }

  /** And what its facts say of it. */
  predicate FactsOf(t: Node, expected: Str, f: Facts) {
    && StringAttribute(t.element, None, PACKAGE, None) == Some(Some(expected)) && f.package == Some(expected)
    && f.applications == Applications(None, t)
    && var bootstraps := Bootstraps(expected, None, t);
       && f.activities == |bootstraps| <= 1
       && (if bootstraps == [] then !f.exported && !f.enabled else Declares(bootstraps[0], f.exported, f.enabled))
  }

  /** Every accepted manifest: its chunks tile the file after the header, its
      elements are one tree of at most 256 levels with a manifest root of the
      expected package, and the facts are those of the tree: its applications, its
      one bootstrap activity if there is any, and whether that is exported and enabled. */
  lemma AcceptedIsOneTree(s: seq<byte>, expected: Str)
    requires ReadManifest(s, expected).Some?
    ensures Chunks(s, 8).Some? && Tiles(Chunks(s, 8).value, 8, |s|)
    ensures exists t: Node :: ShapeOf(t, s, ReadManifest(s, expected).value)
                              && FactsOf(t, expected, ReadManifest(s, expected).value.facts)
  {
    hide TakeAll, Chunks, FollowOne, MANIFEST, APPLICATION, StringAttribute, Declares, IsBootstrap;
    var st := ReadManifest(s, expected).value;
    assert TakeAll(s, NewState(), 8, expected) == Some(st);
    AcceptedTiles(s, NewState(), 8, expected);
    PoolStays(s, NewState(), 8, expected);
    PackageIsExpected(s, NewState(), 8, expected);
    var pool, resources := st.strings.value, st.resources.value;
    ParserFollows(s, NewState(), 8, expected, pool, resources);
    var nodes, rest, v := ReadNodes(pool, expected, NestOf(NewState()), Events(s, 8, pool, resources), NestOf(st));
    RestIsEmpty(pool, expected, v, rest);
    assert rest == [] && nodes.Cons?;
    OnlyOne(expected, nodes);
    assert ShapeOf(nodes.first, s, st) && FactsOf(nodes.first, expected, st.facts);
  }

  lemma OnlyOne(expected: Str, nodes: Nodes)
    requires nodes.Cons? && nodes.others.Nil?
    ensures FlatAll(nodes) + [] == Flat(nodes.first)
    ensures ApplicationsIn(None, nodes) == Applications(None, nodes.first)
    ensures BootstrapsIn(expected, None, nodes) == Bootstraps(expected, None, nodes.first)
    ensures HeightAll(nodes) == Height(nodes.first)
  {
    hide IsBootstrap, MANIFEST, APPLICATION;
    assert FlatAll(nodes) == Flat(nodes.first) + [];
    assert BootstrapsIn(expected, None, nodes) == Bootstraps(expected, None, nodes.first) + [];
  }

  lemma RestIsEmpty(pool: seq<Str>, expected: Str, v: Nest, rest: seq<Event>)
    requires v.stack == [] && Follow(pool, expected, v, rest).Some? && (rest != [] ==> rest[0].Closed?)
    ensures rest == [] && Follow(pool, expected, v, rest) == Some(v)
  {
    hide MANIFEST, APPLICATION;
  }

  lemma {:induction false} PoolIsRead(s: seq<byte>, st: State, cursor: nat, expected: Str)
    requires cursor <= |s| && TakeAll(s, st, cursor, expected).Some?
    requires st.strings.Some? ==>
             Bytes(st.strings.value) <= DECODED_BYTES_LIMIT && |st.strings.value| <= POOL_STRINGS_LIMIT
    requires st.facts.activities <= 1
    ensures var end := TakeAll(s, st, cursor, expected).value;
            && (end.strings.Some? ==>
                  Bytes(end.strings.value) <= DECODED_BYTES_LIMIT && |end.strings.value| <= POOL_STRINGS_LIMIT)
            && end.facts.activities <= 1
    decreases |s| - cursor
  {
    hide Take, Bytes;
    if cursor < |s| {
      var c := ReadChunk(s, cursor).value;
      TakeReads(s, st, c, expected);
      PoolIsRead(s, Take(s, st, c, expected).value, c.end, expected);
    }
  }

  lemma TakeReads(s: seq<byte>, st: State, c: Chunk, expected: Str)
    requires c.start + 8 <= c.end <= |s| && Take(s, st, c, expected).Some?
    requires st.strings.Some? ==>
             Bytes(st.strings.value) <= DECODED_BYTES_LIMIT && |st.strings.value| <= POOL_STRINGS_LIMIT
    requires st.facts.activities <= 1
    ensures var next := Take(s, st, c, expected).value;
            && (next.strings.Some? ==>
                  Bytes(next.strings.value) <= DECODED_BYTES_LIMIT && |next.strings.value| <= POOL_STRINGS_LIMIT)
            && next.facts.activities <= 1
  {
    hide ReadPool, ReadResourceMap, ReadElement, Bytes, StringAttribute, BooleanAttribute, NormalizeActivity;
    hide MANIFEST, APPLICATION, ACTIVITY;
    if c.kind == RES_STRING_POOL && st.strings.None? && st.stack == [] {
      PoolWithinBudget(s[c.start..c.end]);
    }
  }

  /** And its decoded strings stay within the budget, with at most one bootstrap activity. */
  lemma AcceptedWithinBudget(s: seq<byte>, expected: Str)
    requires ReadManifest(s, expected).Some?
    ensures var st := ReadManifest(s, expected).value;
            && st.strings.Some? && Bytes(st.strings.value) <= DECODED_BYTES_LIMIT
            && |st.strings.value| <= POOL_STRINGS_LIMIT
            && st.facts.activities <= 1
            && st.facts.package == Some(expected)
  {
    hide TakeAll, Bytes;
    PoolStays(s, NewState(), 8, expected);
    PoolIsRead(s, NewState(), 8, expected);
    PackageIsExpected(s, NewState(), 8, expected);
  }

  lemma {:induction false} PackageIsExpected(s: seq<byte>, st: State, cursor: nat, expected: Str)
    requires cursor <= |s| && TakeAll(s, st, cursor, expected).Some?
    requires st.facts.package.Some? ==> st.facts.package.value == expected
    ensures var end := TakeAll(s, st, cursor, expected).value;
            end.facts.package.Some? ==> end.facts.package.value == expected
    decreases |s| - cursor
  {
    hide Take;
    if cursor < |s| {
      var c := ReadChunk(s, cursor).value;
      TakePackage(s, st, c, expected);
      PackageIsExpected(s, Take(s, st, c, expected).value, c.end, expected);
    }
  }

  lemma TakePackage(s: seq<byte>, st: State, c: Chunk, expected: Str)
    requires c.start + 8 <= c.end <= |s| && Take(s, st, c, expected).Some?
    requires st.facts.package.Some? ==> st.facts.package.value == expected
    ensures var next := Take(s, st, c, expected).value;
            next.facts.package.Some? ==> next.facts.package.value == expected
  {
    hide ReadPool, ReadResourceMap, ReadElement, StringAttribute, BooleanAttribute, NormalizeActivity;
    hide MANIFEST, APPLICATION, ACTIVITY;
  }
}
