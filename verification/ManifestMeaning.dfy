/** Which manifests are accepted: exactly the written ones whose elements are one
    good tree, with the facts of that tree.  And what the attributes and names in
    such a tree mean, said of all attributes at once instead of by a search. */
module ManifestMeaning {
  import opened Common
  import opened Manifest
  import opened ManifestText
  import opened ManifestTree
  import opened ManifestPieces

  // ---- Attributes ------------------------------------------------------

  /** Carries the name, or the identifier where one is asked for. */
  predicate Claims(a: Attribute, namespace: Option<Str>, name: Str, id: Option<u32>) {
    if id.Some? then a.name == name || a.resourceId == id else a.namespace == namespace && a.name == name
  }

  /** Carries the namespace, the name and the identifier. */
  predicate Genuine(a: Attribute, namespace: Option<Str>, name: Str, id: Option<u32>) {
    a.namespace == namespace && a.name == name && (id.None? || a.resourceId == id)
  }

  /** One attribute is genuine and no other lays claim to being it. */
  predicate Sole(e: Element, k: nat, namespace: Option<Str>, name: Str, id: Option<u32>) {
    && k < |e.attributes| && Genuine(e.attributes[k], namespace, name, id)
    && forall j :: 0 <= j < |e.attributes| && Claims(e.attributes[j], namespace, name, id) ==> j == k
  }

  predicate Unclaimed(e: Element, namespace: Option<Str>, name: Str, id: Option<u32>) {
    forall j :: 0 <= j < |e.attributes| ==> !Claims(e.attributes[j], namespace, name, id)
  }

  /** The raw text of an attribute, where there is one, agrees. */
  predicate RawAgrees(a: Attribute, text: Str) {
    a.raw.None? || a.raw.value == text
  }

  /** The element says the text, unmistakably. */
  ghost predicate SaysText(e: Element, namespace: Option<Str>, name: Str, id: Option<u32>, text: Str) {
    exists k: nat :: && k < |e.attributes| && Sole(e, k, namespace, name, id) && e.attributes[k].typed == Text(text)
                     && RawAgrees(e.attributes[k], text)
  }

  ghost predicate SaysFlag(e: Element, namespace: Option<Str>, name: Str, id: u32, flag: bool) {
    exists k: nat :: && k < |e.attributes| && Sole(e, k, namespace, name, Some(id))
                     && e.attributes[k].typed == Flag(flag)
                     && RawAgrees(e.attributes[k], if flag then TRUE else FALSE)
  }

  lemma {:induction false} MatchingNone(attributes: seq<Attribute>, namespace: Option<Str>, name: Str, id: Option<u32>)
    ensures Matching(attributes, namespace, name, id) == []
       <==> forall j :: 0 <= j < |attributes| ==> !Genuine(attributes[j], namespace, name, id)
    decreases |attributes|
  {
    if attributes != [] {
      hide Genuine;
      SameSense(attributes[0], namespace, name, id);
      MatchingNone(attributes[1..], namespace, name, id);
      assert forall j :: 0 < j < |attributes| ==> attributes[j] == attributes[1..][j - 1];
    }
  }

  lemma SameSense(a: Attribute, namespace: Option<Str>, name: Str, id: Option<u32>)
    ensures Genuine(a, namespace, name, id) <==> Matches(a, namespace, name, id)
    ensures Claims(a, namespace, name, id) <==> Matches(a, namespace, name, id) || Impostor(a, namespace, name, id)
  {
  }

  /** The matching attributes are one exactly when one place matches and no other. */
  lemma {:induction false} MatchingOne(attributes: seq<Attribute>, namespace: Option<Str>, name: Str, id: Option<u32>,
                                       k: nat)
    requires k < |attributes| && Genuine(attributes[k], namespace, name, id)
    requires forall j :: 0 <= j < |attributes| && Genuine(attributes[j], namespace, name, id) ==> j == k
    ensures Matching(attributes, namespace, name, id) == [attributes[k]]
    decreases |attributes|
  {
    hide Genuine;
    SameSense(attributes[0], namespace, name, id);
    var more := attributes[1..];
    assert forall j :: 0 <= j < |more| ==> more[j] == attributes[j + 1];
    if k == 0 {
      MatchingNone(more, namespace, name, id);
    } else {
      MatchingOne(more, namespace, name, id, k - 1);
    }
  }

  lemma {:induction false} MatchingIs(attributes: seq<Attribute>, namespace: Option<Str>, name: Str, id: Option<u32>)
    returns (k: nat)
    requires |Matching(attributes, namespace, name, id)| == 1
    ensures k < |attributes| && Genuine(attributes[k], namespace, name, id)
    ensures Matching(attributes, namespace, name, id) == [attributes[k]]
    ensures forall j :: 0 <= j < |attributes| && Genuine(attributes[j], namespace, name, id) ==> j == k
    decreases |attributes|
  {
    hide Genuine;
    SameSense(attributes[0], namespace, name, id);
    var more := attributes[1..];
    assert forall j :: 0 < j < |attributes| ==> attributes[j] == more[j - 1];
    if Matches(attributes[0], namespace, name, id) {
      k := 0;
      MatchingNone(more, namespace, name, id);
    } else {
      var i := MatchingIs(more, namespace, name, id);
      k := i + 1;
    }
  }

  predicate NoImpostor(e: Element, namespace: Option<Str>, name: Str, id: Option<u32>) {
    forall a :: a in e.attributes ==> !Impostor(a, namespace, name, id)
  }

  lemma ImpostorPlaces(e: Element, namespace: Option<Str>, name: Str, id: Option<u32>)
    ensures NoImpostor(e, namespace, name, id)
       <==> forall j :: 0 <= j < |e.attributes| ==> !Impostor(e.attributes[j], namespace, name, id)
  {
    hide Impostor;
    if forall j :: 0 <= j < |e.attributes| ==> !Impostor(e.attributes[j], namespace, name, id) {
      forall a | a in e.attributes ensures !Impostor(a, namespace, name, id) {
        var j :| 0 <= j < |e.attributes| && e.attributes[j] == a;
      }
    }
  }

  /** The search finds the sole attribute. */
  lemma SoleIsFound(e: Element, k: nat, namespace: Option<Str>, name: Str, id: Option<u32>)
    requires Sole(e, k, namespace, name, id)
    ensures Identity(e, namespace, name, id) == Some(Some(e.attributes[k]))
  {
    hide Genuine, Impostor, Claims, Matches;
    forall j | 0 <= j < |e.attributes|
      ensures Genuine(e.attributes[j], namespace, name, id) ==> j == k
      ensures !Impostor(e.attributes[j], namespace, name, id)
    {
      SameSense(e.attributes[j], namespace, name, id);
      NotBoth(e.attributes[j], namespace, name, id);
    }
    MatchingOne(e.attributes, namespace, name, id, k);
    ImpostorPlaces(e, namespace, name, id);
  }

  lemma NotBoth(a: Attribute, namespace: Option<Str>, name: Str, id: Option<u32>)
    ensures !(Matches(a, namespace, name, id) && Impostor(a, namespace, name, id))
  {
  }

  lemma FoundIsSole(e: Element, namespace: Option<Str>, name: Str, id: Option<u32>) returns (k: nat)
    requires Identity(e, namespace, name, id).Some? && Identity(e, namespace, name, id).value.Some?
    ensures Sole(e, k, namespace, name, id) && Identity(e, namespace, name, id) == Some(Some(e.attributes[k]))
  {
    hide Genuine, Impostor, Claims, Matches;
    k := MatchingIs(e.attributes, namespace, name, id);
    ImpostorPlaces(e, namespace, name, id);
    forall j | 0 <= j < |e.attributes| && Claims(e.attributes[j], namespace, name, id) ensures j == k {
      SameSense(e.attributes[j], namespace, name, id);
    }
  }

  lemma UnclaimedExactly(e: Element, namespace: Option<Str>, name: Str, id: Option<u32>)
    ensures Identity(e, namespace, name, id) == Some(None) <==> Unclaimed(e, namespace, name, id)
  {
    hide Genuine, Impostor, Claims, Matches;
    MatchingNone(e.attributes, namespace, name, id);
    ImpostorPlaces(e, namespace, name, id);
    forall j | 0 <= j < |e.attributes|
      ensures Claims(e.attributes[j], namespace, name, id)
         <==> Genuine(e.attributes[j], namespace, name, id) || Impostor(e.attributes[j], namespace, name, id)
    {
      SameSense(e.attributes[j], namespace, name, id);
    }
  }

  /** A text attribute is found exactly when the element says it. */
  lemma TextExactly(e: Element, namespace: Option<Str>, name: Str, id: Option<u32>, text: Str)
    ensures StringAttribute(e, namespace, name, id) == Some(Some(text)) <==> SaysText(e, namespace, name, id, text)
    ensures StringAttribute(e, namespace, name, id) == Some(None) <==> Unclaimed(e, namespace, name, id)
  {
    hide Identity, Sole, Unclaimed;
    UnclaimedExactly(e, namespace, name, id);
    if Identity(e, namespace, name, id).Some? && Identity(e, namespace, name, id).value.Some? {
      var k := FoundIsSole(e, namespace, name, id);
      SoleIsInRange(e, k, namespace, name, id);
    }
    if k: nat :| && k < |e.attributes| && Sole(e, k, namespace, name, id) && e.attributes[k].typed == Text(text)
                 && RawAgrees(e.attributes[k], text) {
      SoleIsFound(e, k, namespace, name, id);
    }
  }

  /** And so is a boolean one. */
  lemma FlagExactly(e: Element, namespace: Option<Str>, name: Str, id: u32, flag: bool)
    ensures BooleanAttribute(e, namespace, name, id) == Some(Some(flag)) <==> SaysFlag(e, namespace, name, id, flag)
    ensures BooleanAttribute(e, namespace, name, id) == Some(None) <==> Unclaimed(e, namespace, name, Some(id))
  {
    hide Identity, Sole, Unclaimed, TRUE, FALSE;
    UnclaimedExactly(e, namespace, name, Some(id));
    if Identity(e, namespace, name, Some(id)).Some? && Identity(e, namespace, name, Some(id)).value.Some? {
      var k := FoundIsSole(e, namespace, name, Some(id));
      SoleIsInRange(e, k, namespace, name, Some(id));
    }
    if k: nat :| && k < |e.attributes| && Sole(e, k, namespace, name, Some(id)) && e.attributes[k].typed == Flag(flag)
                 && RawAgrees(e.attributes[k], if flag then TRUE else FALSE) {
      SoleIsFound(e, k, namespace, name, Some(id));
    }
  }

  lemma SoleIsInRange(e: Element, k: nat, namespace: Option<Str>, name: Str, id: Option<u32>)
    requires Sole(e, k, namespace, name, id)
    ensures k < |e.attributes|
  {
  }

  // ---- The name of the bootstrap activity ------------------------------

  predicate AllGraphic(name: Str) {
    forall b :: b in name ==> Graphic(b)
  }

  /** The three ways to name the bootstrap activity of a package: with a leading
      dot, without any, and in full unless the package starts with a dot itself. */
  predicate NamesBootstrap(name: Str, expected: Str) {
    || name == [DOT] + BOOTSTRAP_CLASS
    || name == BOOTSTRAP_CLASS
    || (name == expected + [DOT] + BOOTSTRAP_CLASS && expected != [] && expected[0] != DOT && AllGraphic(expected))
  }

  lemma ClassIsPlain()
    ensures AllGraphic(BOOTSTRAP_CLASS) && DOT !in BOOTSTRAP_CLASS && BOOTSTRAP_CLASS != []
  {
  }

  lemma GraphicParts(a: Str, b: Str)
    ensures AllGraphic(a + b) <==> AllGraphic(a) && AllGraphic(b)
  {
    hide Graphic;
    assert forall x :: x in a + b <==> x in a || x in b;
  }

  lemma SameFront(a: Str, b: Str, c: Str)
    ensures a + b == a + c <==> b == c
  {
    if a + b == a + c {
      assert b == (a + b)[|a|..] == (a + c)[|a|..] == c;
    }
  }

  lemma NameExactly(name: Str, expected: Str)
    ensures NormalizeActivity(expected, name).Some? <==> name != [] && AllGraphic(name)
    ensures NormalizeActivity(expected, name) == Some(ExpectedActivity(expected)) <==> NamesBootstrap(name, expected)
  {
    hide Graphic, BOOTSTRAP_CLASS;
    ClassIsPlain();
    DotIsGraphic();
    GraphicParts([DOT], BOOTSTRAP_CLASS);
    GraphicParts(expected + [DOT], BOOTSTRAP_CLASS);
    GraphicParts(expected, [DOT]);
    assert expected + [DOT] + BOOTSTRAP_CLASS == expected + ([DOT] + BOOTSTRAP_CLASS);
    SameFront(expected, name, [DOT] + BOOTSTRAP_CLASS);
    SameFront(expected + [DOT], name, BOOTSTRAP_CLASS);
    assert DOT in [DOT] + BOOTSTRAP_CLASS && DOT in expected + [DOT] + BOOTSTRAP_CLASS;
    assert BOOTSTRAP_CLASS[0] in BOOTSTRAP_CLASS;
    if expected != [] {
      assert (expected + [DOT] + BOOTSTRAP_CLASS)[0] == expected[0];
    }
  }

  lemma DotIsGraphic()
    ensures AllGraphic([DOT])
  {
  }

  /** The element says a text for its name that is one of the bootstrap activity's. */
  ghost predicate SaysBootstrap(e: Element, expected: Str) {
    exists name: Str :: SaysText(e, Some(ANDROID_NS), NAME, Some(ATTR_NAME), name) && NamesBootstrap(name, expected)
  }

  /** An element is the bootstrap activity exactly when it is an activity of an
      application and says so by its name. */
  lemma BootstrapExactly(e: Element, parent: Option<Str>, expected: Str)
    ensures IsBootstrap(e, parent, expected)
       <==> e.name == ACTIVITY && parent == Some(APPLICATION) && SaysBootstrap(e, expected)
  {
    hide StringAttribute, SaysText, NormalizeActivity, NamesBootstrap, ACTIVITY, APPLICATION, NAME, ANDROID_NS;
    var found := StringAttribute(e, Some(ANDROID_NS), NAME, Some(ATTR_NAME));
    if found.Some? && found.value.Some? {
      TextExactly(e, Some(ANDROID_NS), NAME, Some(ATTR_NAME), found.value.value);
      NameExactly(found.value.value, expected);
    }
    if name: Str :| SaysText(e, Some(ANDROID_NS), NAME, Some(ATTR_NAME), name) && NamesBootstrap(name, expected) {
      TextExactly(e, Some(ANDROID_NS), NAME, Some(ATTR_NAME), name);
    }
  }

  /** It declares whether it is exported, and is enabled unless it says it is not. */
  lemma DeclaresExactly(e: Element, exported: bool, enabled: bool)
    ensures Declares(e, exported, enabled)
       <==> && SaysFlag(e, Some(ANDROID_NS), EXPORTED, ATTR_EXPORTED, exported)
            && (|| SaysFlag(e, Some(ANDROID_NS), ENABLED, ATTR_ENABLED, enabled)
                || (enabled && Unclaimed(e, Some(ANDROID_NS), ENABLED, Some(ATTR_ENABLED))))
  {
    hide BooleanAttribute, SaysFlag, Unclaimed, EXPORTED, ENABLED, ANDROID_NS;
    FlagExactly(e, Some(ANDROID_NS), EXPORTED, ATTR_EXPORTED, exported);
    FlagExactly(e, Some(ANDROID_NS), ENABLED, ATTR_ENABLED, enabled);
  }

  // ---- Good trees ------------------------------------------------------

  predicate Declarable(e: Element) {
    exists exported: bool, enabled: bool :: Declares(e, exported, enabled)
  }

  /** An activity of an application has a plain name or none, and says what it has
      to say when that name is the bootstrap activity's. */
  predicate Fine(e: Element, parent: Option<Str>, expected: Str) {
    e.name == ACTIVITY && parent == Some(APPLICATION) ==>
      match StringAttribute(e, Some(ANDROID_NS), NAME, Some(ATTR_NAME))
      case None => false
      case Some(None) => true
      case Some(Some(name)) =>
        NormalizeActivity(expected, name).Some? && (IsBootstrap(e, parent, expected) ==> Declarable(e))
  }

  predicate FineNode(expected: Str, parent: Option<Str>, n: Node)
    decreases n
  {
    Fine(n.element, parent, expected) && FineNodes(expected, Some(n.element.name), n.kids)
  }

  predicate FineNodes(expected: Str, parent: Option<Str>, nodes: Nodes)
    decreases nodes
  {
    match nodes
    case Nil => true
    case Cons(first, others) => FineNode(expected, parent, first) && FineNodes(expected, parent, others)
  }

  /** A manifest of the expected package, not too deep, whose activities can be read
      and include one bootstrap activity at most. */
  predicate GoodTree(t: Node, expected: Str) {
    && Height(t) <= DEPTH_LIMIT && t.element.name == MANIFEST
    && StringAttribute(t.element, None, PACKAGE, None) == Some(Some(expected))
    && FineNodes(expected, Some(MANIFEST), t.kids)
    && |Bootstraps(expected, None, t)| <= 1
  }

  /** The elements are named as the strings of the pool say. */
  predicate Named(events: seq<Event>, pool: seq<Str>) {
    forall e :: e in events && e.Opened? ==> Get(pool, e.element.nameIndex) == Some(e.element.name)
  }

  /** An element below the root is noted exactly when it is fine and not a second
      bootstrap activity. */
  lemma NoteWorks(f: Facts, e: Element, parent: Option<Str>, expected: Str)
    requires parent.Some?
    ensures Note(f, e, parent, expected).Some?
       <==> Fine(e, parent, expected) && (IsBootstrap(e, parent, expected) ==> f.activities == 0)
  {
    hide StringAttribute, BooleanAttribute, NormalizeActivity, MANIFEST, APPLICATION, ACTIVITY;
    NamesDiffer();
    DeclarableExactly(e);
  }

  lemma DeclarableExactly(e: Element)
    ensures Declarable(e)
       <==> && BooleanAttribute(e, Some(ANDROID_NS), EXPORTED, ATTR_EXPORTED).Some?
            && BooleanAttribute(e, Some(ANDROID_NS), EXPORTED, ATTR_EXPORTED).value.Some?
            && BooleanAttribute(e, Some(ANDROID_NS), ENABLED, ATTR_ENABLED).Some?
  {
    hide BooleanAttribute, EXPORTED, ENABLED, ANDROID_NS;
    var exported := BooleanAttribute(e, Some(ANDROID_NS), EXPORTED, ATTR_EXPORTED);
    var enabled := BooleanAttribute(e, Some(ANDROID_NS), ENABLED, ATTR_ENABLED);
    if exported.Some? && exported.value.Some? && enabled.Some? {
      assert Declares(e, exported.value.value, enabled.value.None? || enabled.value.value);
    }
  }

  /** Room on the stack, elements that are fine, and not two bootstrap activities. */
  predicate Passable(depth: nat, activities: nat, height: nat, fine: bool, bootstraps: nat) {
    depth + height <= DEPTH_LIMIT && fine && (bootstraps == 0 || activities + bootstraps <= 1)
  }

  /** Where elements leave a nest of elements. */
  predicate Leads(w: Nest, v: Nest, applications: nat, bootstraps: seq<Element>) {
    v.stack == w.stack && v.facts.package == w.facts.package && Grown(w.facts, v.facts, applications, bootstraps)
  }

  lemma NamedParts(a: seq<Event>, b: seq<Event>, pool: seq<Str>)
    ensures Named(a + b, pool) <==> Named(a, pool) && Named(b, pool)
  {
    assert forall e :: e in a + b <==> e in a || e in b;
  }

  lemma FollowAfter(pool: seq<Str>, expected: Str, w: Nest, a: seq<Event>, v: Nest, b: seq<Event>)
    requires Follow(pool, expected, w, a) == Some(v)
    ensures Follow(pool, expected, w, a + b) == Follow(pool, expected, v, b)
  {
    hide Follow;
    FollowAppend(pool, expected, w, a, b);
  }

  /** A start element below the root. */
  lemma Descends(pool: seq<Str>, expected: Str, w: Nest, element: Element, parent: Option<Str>)
    requires w.stack != [] && Parent(pool, w.stack) == parent && parent.Some?
    requires Get(pool, element.nameIndex) == Some(element.name)
    ensures var bootstrap := IsBootstrap(element, parent, expected);
            FollowOne(pool, expected, w, Opened(element)).Some?
            <==> |w.stack| < DEPTH_LIMIT && Fine(element, parent, expected) && (bootstrap ==> w.facts.activities == 0)
  {
    hide Note, Fine, IsBootstrap;
    NoteWorks(w.facts, element, parent, expected);
  }

  function One(e: Element, parent: Option<Str>): nat {
    if e.name == APPLICATION && parent == Some(MANIFEST) then 1 else 0
  }

  function Own(e: Element, parent: Option<Str>, expected: Str): seq<Element> {
    if IsBootstrap(e, parent, expected) then [e] else []
  }

  /** What a start element below the root leads to. */
  lemma Descent(pool: seq<Str>, expected: Str, w: Nest, element: Element, parent: Option<Str>)
    requires w.stack != [] && Parent(pool, w.stack) == parent && parent.Some?
    requires FollowOne(pool, expected, w, Opened(element)).Some?
    ensures var v := FollowOne(pool, expected, w, Opened(element)).value;
            && v.stack == w.stack + [element.nameIndex] && Parent(pool, v.stack) == Some(element.name)
            && v.facts.package == w.facts.package
            && Grown(w.facts, v.facts, One(element, parent), Own(element, parent, expected))
  {
    hide Note, IsBootstrap, FollowOne, Grown, MANIFEST, APPLICATION;
    Enters(pool, expected, w, Opened(element));
    NoteIs(w.facts, element, parent, expected);
  }

  lemma Ascends(pool: seq<Str>, expected: Str, stack: seq<u32>, top: u32, u: Nest)
    requires u.stack == stack + [top]
    ensures FollowOne(pool, expected, u, Closed(top)) == Some(Nest(stack, u.facts))
  {
    assert u.stack[..|u.stack| - 1] == stack;
  }

  lemma PassThen(depth: nat, activities: nat, h: nat, fine: bool, a: nat, k: nat, more: bool, b: nat)
    requires Passable(depth, activities, h, fine, a)
    ensures Passable(depth, activities + a, k, more, b)
       <==> Passable(depth, activities, if h > k then h else k, fine && more, a + b)
  {
  }

  lemma PassFirst(depth: nat, activities: nat, h: nat, fine: bool, a: nat, k: nat, more: bool, b: nat)
    requires Passable(depth, activities, if h > k then h else k, fine && more, a + b)
    ensures Passable(depth, activities, h, fine, a)
  {
  }

  lemma PassInto(depth: nat, activities: nat, fine: bool, a: nat, k: nat, more: bool, b: nat)
    requires depth < DEPTH_LIMIT && fine && a <= 1 && (a == 1 ==> activities == 0)
    ensures Passable(depth + 1, activities + a, k, more, b)
       <==> Passable(depth, activities, 1 + k, fine && more, a + b)
  {
  }

  /** A node goes through exactly when there is room, it is fine throughout, and it
      brings no second bootstrap activity; and then it adds what it says. */
  lemma {:induction false} NodeFollows(pool: seq<Str>, expected: Str, w: Nest, parent: Str, n: Node)
    requires w.stack != [] && Parent(pool, w.stack) == Some(parent) && Named(Flat(n), pool)
    ensures var after := Follow(pool, expected, w, Flat(n));
            var bootstraps := Bootstraps(expected, Some(parent), n);
            && (after.Some? <==> Passable(|w.stack|, w.facts.activities, Height(n),
                                          FineNode(expected, Some(parent), n), |bootstraps|))
            && (after.Some? ==> Leads(w, after.value, Applications(Some(parent), n), bootstraps))
    decreases n, 1
  {
    hide FollowOne, Follow, Named, Parent, Fine, IsBootstrap, MANIFEST, APPLICATION, Passable, Grown, FlatAll;
    hide HeightAll, FineNodes, ApplicationsIn, BootstrapsIn;
    var e, top := n.element, [Closed(n.element.nameIndex)];
    var own := Own(e, Some(parent), expected);
    NamedParts([Opened(e)] + FlatAll(n.kids), top, pool);
    NamedParts([Opened(e)], FlatAll(n.kids), pool);
    NamedFirst(e, pool);
    Descends(pool, expected, w, e, Some(parent));
    FollowAppend(pool, expected, w, [Opened(e)] + FlatAll(n.kids), top);
    FollowAppend(pool, expected, w, [Opened(e)], FlatAll(n.kids));
    FollowSingle(pool, expected, w, Opened(e));
    var next := FollowOne(pool, expected, w, Opened(e));
    var bootstraps := BootstrapsIn(expected, Some(e.name), n.kids);
    if next.Some? {
      var v := next.value;
      Descent(pool, expected, w, e, Some(parent));
      NodesFollow(pool, expected, v, e.name, n.kids);
      GrownActivities(w.facts, v.facts, One(e, Some(parent)), own);
      PassInto(|w.stack|, w.facts.activities, Fine(e, Some(parent), expected), |own|, HeightAll(n.kids),
               FineNodes(expected, Some(e.name), n.kids), |bootstraps|);
      var inside := Follow(pool, expected, v, FlatAll(n.kids));
      if inside.Some? {
        Ascends(pool, expected, w.stack, e.nameIndex, inside.value);
        FollowSingle(pool, expected, inside.value, Closed(e.nameIndex));
        GrownTwice(w.facts, v.facts, inside.value.facts, One(e, Some(parent)),
                   ApplicationsIn(Some(e.name), n.kids), own, bootstraps);
      }
    } else {
      StoppedFirst(|w.stack|, w.facts.activities, Fine(e, Some(parent), expected), |own|, HeightAll(n.kids),
                   FineNodes(expected, Some(e.name), n.kids), |bootstraps|);
    }
  }

  lemma StoppedFirst(depth: nat, activities: nat, fine: bool, a: nat, k: nat, more: bool, b: nat)
    requires a <= 1 && !(depth < DEPTH_LIMIT && fine && (a == 1 ==> activities == 0))
    ensures !Passable(depth, activities, 1 + k, fine && more, a + b)
  {
  }

  lemma GrownActivities(f: Facts, g: Facts, m: nat, a: seq<Element>)
    requires Grown(f, g, m, a)
    ensures g.activities == f.activities + |a|
  {
    hide Declares;
  }

  lemma NamedFirst(e: Element, pool: seq<Str>)
    requires Named([Opened(e)], pool)
    ensures Get(pool, e.nameIndex) == Some(e.name)
  {
    assert Opened(e) in [Opened(e)];
  }

  /** And so do nodes in a row. */
  lemma {:induction false} NodesFollow(pool: seq<Str>, expected: Str, w: Nest, parent: Str, nodes: Nodes)
    requires 0 < |w.stack| <= DEPTH_LIMIT && Parent(pool, w.stack) == Some(parent) && Named(FlatAll(nodes), pool)
    ensures var after := Follow(pool, expected, w, FlatAll(nodes));
            var bootstraps := BootstrapsIn(expected, Some(parent), nodes);
            && (after.Some? <==> Passable(|w.stack|, w.facts.activities, HeightAll(nodes),
                                          FineNodes(expected, Some(parent), nodes), |bootstraps|))
            && (after.Some? ==> Leads(w, after.value, ApplicationsIn(Some(parent), nodes), bootstraps))
    decreases nodes, 0
  {
    hide FollowOne, Follow, Named, Parent, Fine, IsBootstrap, MANIFEST, APPLICATION, Passable, Grown, Flat;
    hide Height, FineNode, Applications, Bootstraps;
    match nodes {
      case Nil =>
        NothingFollows(pool, expected, w, parent);
      case Cons(first, others) =>
        NamedParts(Flat(first), FlatAll(others), pool);
        NodeFollows(pool, expected, w, parent, first);
        FollowAppend(pool, expected, w, Flat(first), FlatAll(others));
        var after := Follow(pool, expected, w, Flat(first));
        var a, b := Bootstraps(expected, Some(parent), first), BootstrapsIn(expected, Some(parent), others);
        var fine, more := FineNode(expected, Some(parent), first), FineNodes(expected, Some(parent), others);
        if after.Some? {
          var v := after.value;
          NodesFollow(pool, expected, v, parent, others);
          GrownActivities(w.facts, v.facts, Applications(Some(parent), first), a);
          PassThen(|w.stack|, w.facts.activities, Height(first), fine, |a|, HeightAll(others), more, |b|);
          var end := Follow(pool, expected, v, FlatAll(others));
          if end.Some? {
            GrownTwice(w.facts, v.facts, end.value.facts, Applications(Some(parent), first),
                       ApplicationsIn(Some(parent), others), a, b);
          }
        } else if Passable(|w.stack|, w.facts.activities, HeightAll(nodes), fine && more, |a + b|) {
          PassFirst(|w.stack|, w.facts.activities, Height(first), fine, |a|, HeightAll(others), more, |b|);
        }
    }
  }

  lemma NothingFollows(pool: seq<Str>, expected: Str, w: Nest, parent: Str)
    requires |w.stack| <= DEPTH_LIMIT
    ensures Follow(pool, expected, w, FlatAll(Nil)) == Some(w)
    ensures Passable(|w.stack|, w.facts.activities, HeightAll(Nil), FineNodes(expected, Some(parent), Nil),
                     |BootstrapsIn(expected, Some(parent), Nil)|)
    ensures Leads(w, w, ApplicationsIn(Some(parent), Nil), BootstrapsIn(expected, Some(parent), Nil))
  {
  }

  /** What a start element at the very front does: only the manifest of the expected
      package goes in. */
  lemma RootEnters(pool: seq<Str>, expected: Str, e: Element)
    requires Get(pool, e.nameIndex) == Some(e.name)
    ensures var after := FollowOne(pool, expected, NestOf(NewState()), Opened(e));
            && (after.Some? <==> e.name == MANIFEST && StringAttribute(e, None, PACKAGE, None) == Some(Some(expected)))
            && (after.Some? ==> after.value == Nest([e.nameIndex], NewState().facts.(package := Some(expected))))
  {
    hide StringAttribute, MANIFEST, APPLICATION, ACTIVITY, NoteActivity;
    NamesDiffer();
  }

  lemma RootIsPlain(t: Node, expected: Str)
    ensures Bootstraps(expected, None, t) == BootstrapsIn(expected, Some(t.element.name), t.kids)
    ensures Applications(None, t) == ApplicationsIn(Some(t.element.name), t.kids)
  {
    hide StringAttribute, ACTIVITY, APPLICATION, MANIFEST;
    assert [] + BootstrapsIn(expected, Some(t.element.name), t.kids)
        == BootstrapsIn(expected, Some(t.element.name), t.kids);
  }

  /** The facts a tree tells, from nothing. */
  lemma GrownIsFactsOf(t: Node, expected: Str, g: Facts)
    requires StringAttribute(t.element, None, PACKAGE, None) == Some(Some(expected)) && g.package == Some(expected)
    requires |Bootstraps(expected, None, t)| <= 1
    ensures Grown(NewState().facts.(package := Some(expected)), g, Applications(None, t), Bootstraps(expected, None, t))
       <==> FactsOf(t, expected, g)
  {
    hide StringAttribute, Declares, Applications, Bootstraps, PACKAGE;
  }

  /** The events of one tree go through from the start exactly when the tree is good,
      and then the facts are those the tree tells. */
  lemma TreeFollows(pool: seq<Str>, expected: Str, t: Node)
    requires Named(Flat(t), pool)
    ensures var after := Follow(pool, expected, NestOf(NewState()), Flat(t));
            && (after.Some? <==> GoodTree(t, expected))
            && (after.Some? ==> after.value.stack == [] && FactsOf(t, expected, after.value.facts))
  {
    hide FollowOne, Follow, Named, Parent, Fine, IsBootstrap, MANIFEST, APPLICATION, Grown, FlatAll, StringAttribute;
    hide HeightAll, FineNodes, ApplicationsIn, BootstrapsIn, Applications, Bootstraps, FactsOf, PACKAGE, FineNode;
    var e, top := t.element, [Closed(t.element.nameIndex)];
    var w := NestOf(NewState());
    NamedParts([Opened(e)] + FlatAll(t.kids), top, pool);
    NamedParts([Opened(e)], FlatAll(t.kids), pool);
    NamedFirst(e, pool);
    FollowAppend(pool, expected, w, [Opened(e)] + FlatAll(t.kids), top);
    FollowAppend(pool, expected, w, [Opened(e)], FlatAll(t.kids));
    FollowSingle(pool, expected, w, Opened(e));
    RootEnters(pool, expected, e);
    RootIsPlain(t, expected);
    var next := FollowOne(pool, expected, w, Opened(e));
    if next.Some? {
      var v := next.value;
      RootParent(pool, e);
      NodesFollow(pool, expected, v, e.name, t.kids);
      var inside := Follow(pool, expected, v, FlatAll(t.kids));
      if inside.Some? {
        Ascends(pool, expected, [], e.nameIndex, inside.value);
        FollowSingle(pool, expected, inside.value, Closed(e.nameIndex));
        GrownIsFactsOf(t, expected, inside.value.facts);
      }
    }
  }

  lemma RootParent(pool: seq<Str>, e: Element)
    requires Get(pool, e.nameIndex) == Some(e.name)
    ensures Parent(pool, [e.nameIndex]) == Some(e.name)
  {
  }

  // ---- Accepted manifests ----------------------------------------------

  /** The events of good pieces carry the names of the pool. */
  lemma {:induction false} PiecesAreNamed(pieces: seq<Piece>, pool: seq<Str>, resources: seq<u32>)
    requires GoodPieces(pieces, pool)
    ensures Named(EventsOfPieces(pieces, pool, resources), pool)
    decreases |pieces|
  {
    if pieces != [] {
      hide Named, EventsOfPiece;
      PieceIsNamed(pieces[0], pool, resources);
      PiecesAreNamed(pieces[1..], pool, resources);
      NamedParts(EventsOfPiece(pieces[0], pool, resources), EventsOfPieces(pieces[1..], pool, resources), pool);
    }
  }

  lemma PieceIsNamed(p: Piece, pool: seq<Str>, resources: seq<u32>)
    requires GoodPiece(p, pool)
    ensures Named(EventsOfPiece(p, pool, resources), pool)
  {
    hide AttributesOf, GoodAttributes;
  }

  /** A manifest as it is written: a pool with these strings, a resource map, and the
      elements of a good tree in document order, namespaces between them. */
  predicate Writes(s: seq<byte>, expected: Str, d: Document, t: Node, strings: seq<Str>) {
    && GoodDocument(d, strings) && Prints(s, d, strings)
    && EventsOfPieces(d.body, strings, d.resources) == Flat(t)
    && GoodTree(t, expected)
  }

  /** Every written manifest is accepted with the strings, the resources and the
      facts that are written. */
  lemma WrittenIsAccepted(s: seq<byte>, expected: Str, d: Document, t: Node, strings: seq<Str>)
    requires Writes(s, expected, d, t, strings)
    ensures ReadManifest(s, expected).Some?
    ensures var st := ReadManifest(s, expected).value;
            && st.strings == Some(strings) && st.resources == Some(d.resources) && st.stack == []
            && FactsOf(t, expected, st.facts)
  {
    hide GoodDocument, Prints, GoodTree, Follow, TakeAll, EventsOfPieces, Flat, StringAttribute, Declares;
    hide Applications, Bootstraps;
    DocumentTakes(s, d, strings, expected);
    GoodBody(d, strings);
    PiecesAreNamed(d.body, strings, d.resources);
    TreeFollows(strings, expected, t);
  }

  lemma GoodBody(d: Document, strings: seq<Str>)
    requires GoodDocument(d, strings)
    ensures GoodPieces(d.body, strings)
  {
  }

  /** And whatever is accepted is a written manifest. */
  lemma AcceptedIsWritten(s: seq<byte>, expected: Str) returns (d: Document, t: Node, strings: seq<Str>)
    requires ReadManifest(s, expected).Some?
    ensures Writes(s, expected, d, t, strings)
  {
    hide GoodDocument, Prints, Follow, TakeAll, EventsOfPieces, FlatAll, StringAttribute, Declares, FollowOne;
    hide Applications, Bootstraps, GoodTree, MANIFEST, Grown, ApplicationsIn, BootstrapsIn, Height, HeightAll;
    d, strings := DocumentIs(s, expected);
    DocumentTakes(s, d, strings, expected);
    GoodBody(d, strings);
    PiecesAreNamed(d.body, strings, d.resources);
    var events, w := EventsOfPieces(d.body, strings, d.resources), NestOf(NewState());
    var end := Follow(strings, expected, w, events).value;
    var nodes, rest, v := ReadNodes(strings, expected, w, events, end);
    RestIsEmpty(strings, expected, v, rest);
    OnlyOne(expected, nodes);
    t := nodes.first;
    TreeFollows(strings, expected, t);
  }

  /** Accepted exactly when written: a manifest is read as these strings, resources
      and facts if and only if it is the writing of a good tree that tells them. */
  lemma AcceptedExactlyWritten(s: seq<byte>, expected: Str)
    ensures ReadManifest(s, expected).Some?
       <==> exists d: Document, t: Node, strings: seq<Str> :: Writes(s, expected, d, t, strings)
  {
    hide Writes;
    if ReadManifest(s, expected).Some? {
      var d, t, strings := AcceptedIsWritten(s, expected);
      assert Writes(s, expected, d, t, strings);
    }
    if d: Document, t: Node, strings: seq<Str> :| Writes(s, expected, d, t, strings) {
      WrittenIsAccepted(s, expected, d, t, strings);
    }
  }

  /** A manifest with one application and one bootstrap activity, exported and enabled. */
  ghost predicate Proper(t: Node, expected: Str) {
    && Applications(None, t) == 1
    && |Bootstraps(expected, None, t)| == 1
    && Declares(Bootstraps(expected, None, t)[0], true, true)
  }

  lemma DeclaresOnce(e: Element, exported: bool, enabled: bool, a: bool, b: bool)
    requires Declares(e, exported, enabled) && Declares(e, a, b)
    ensures exported == a && enabled == b
  {
    hide BooleanAttribute;
  }

  lemma FactsAreProper(t: Node, expected: Str, f: Facts)
    requires FactsOf(t, expected, f)
    ensures Proper(t, expected) <==> f.applications == 1 && f.activities == 1 && f.exported && f.enabled
  {
    hide StringAttribute, Declares, Applications, Bootstraps;
    if Proper(t, expected) {
      DeclaresOnce(Bootstraps(expected, None, t)[0], f.exported, f.enabled, true, true);
    }
  }

  /** A manifest is valid for a package if and only if it is the writing of a good tree
      with one application and one bootstrap activity, exported and enabled. */
  lemma ValidExactly(s: seq<byte>, expected: Str)
    ensures Validate(s, expected) <==>
            exists d: Document, t: Node, strings: seq<Str> :: Writes(s, expected, d, t, strings) && Proper(t, expected)
  {
    hide Writes, Proper, ReadManifest, FactsOf;
    if Validate(s, expected) {
      var d, t, strings := AcceptedIsWritten(s, expected);
      WrittenIsAccepted(s, expected, d, t, strings);
      FactsAreProper(t, expected, ReadManifest(s, expected).value.facts);
      assert Writes(s, expected, d, t, strings) && Proper(t, expected);
    }
    if d: Document, t: Node, strings: seq<Str> :| Writes(s, expected, d, t, strings) && Proper(t, expected) {
      WrittenIsAccepted(s, expected, d, t, strings);
      FactsAreProper(t, expected, ReadManifest(s, expected).value.facts);
      FactsHavePackage(t, expected, ReadManifest(s, expected).value.facts);
    }
  }

  lemma FactsHavePackage(t: Node, expected: Str, f: Facts)
    requires FactsOf(t, expected, f)
    ensures f.package == Some(expected)
  {
    hide StringAttribute, Declares, Applications, Bootstraps;
  }
}
