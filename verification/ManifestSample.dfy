/** A manifest of any package with one application and its bootstrap activity,
    written down and accepted. */
module ManifestSample {
  import opened Common
  import opened Manifest
  import opened ManifestText
  import opened ManifestTree
  import opened ManifestPieces
  import opened ManifestPools
  import opened ManifestMeaning
  import opened ManifestStrings

  // ---- Its strings -----------------------------------------------------

  predicate Plain(s: Str) {
    forall i :: 0 <= i < |s| ==> s[i] < 0x80
  }

  /** ASCII is its own text. */
  lemma {:induction false} PlainText(s: Str)
    requires Plain(s)
    ensures Scalars(s) && Utf8Of(s) == s && UnitsIn(s) == |s|
    decreases |s|
  {
    if s != [] {
      PlainText(s[1..]);
      assert s == [s[0]] + s[1..];
    }
  }

  lemma AsciiIsShort(s: string)
    requires forall i :: 0 <= i < |s| ==> s[i] < '\U{80}'
    requires |s| < 0x8000
    ensures Short(Ascii(s)) && Utf8Of(Ascii(s)) == Ascii(s) && |Ascii(s)| == |s|
  {
    PlainText(Ascii(s));
  }

  function Texts(package: seq<nat>): seq<seq<nat>> {
    [NAME, EXPORTED, MANIFEST, PACKAGE, APPLICATION, ACTIVITY, ANDROID_NS, BOOTSTRAP_CLASS, package]
  }

  function Strings(package: Str): seq<Str> {
    [NAME, EXPORTED, MANIFEST, PACKAGE, APPLICATION, ACTIVITY, ANDROID_NS, BOOTSTRAP_CLASS, package]
  }

  lemma ConstantsAreShort()
    ensures Short(NAME) && Utf8Of(NAME) == NAME && |NAME| == 4
    ensures Short(EXPORTED) && Utf8Of(EXPORTED) == EXPORTED && |EXPORTED| == 8
    ensures Short(MANIFEST) && Utf8Of(MANIFEST) == MANIFEST && Short(PACKAGE) && Utf8Of(PACKAGE) == PACKAGE
    ensures Short(APPLICATION) && Utf8Of(APPLICATION) == APPLICATION
    ensures Short(ACTIVITY) && Utf8Of(ACTIVITY) == ACTIVITY
    ensures Short(ANDROID_NS) && Utf8Of(ANDROID_NS) == ANDROID_NS
    ensures Short(BOOTSTRAP_CLASS) && Utf8Of(BOOTSTRAP_CLASS) == BOOTSTRAP_CLASS
  {
    hide Ascii, Short, Utf8Of;
    AsciiIsShort("name");
    AsciiIsShort("exported");
    AsciiIsShort("manifest");
    AsciiIsShort("package");
    AsciiIsShort("application");
    AsciiIsShort("activity");
    AsciiIsShort("http://schemas.android.com/apk/res/android");
    AsciiIsShort("AppPilotKitBootstrapActivity");
  }

  lemma EntrySize(x: seq<nat>, utf8: bool)
    requires Short(x)
    ensures |Entry(x, utf8)| <= 0x1_0008 && |Utf8Of(x)| < 0x8000
  {
  }

  lemma {:induction false} SizesBounded(texts: seq<seq<nat>>, utf8: bool)
    requires AllShort(texts)
    ensures |Entries(texts, utf8)| <= 0x1_0008 * |texts| && Bytes(StringsOf(texts)) <= 0x8000 * |texts|
    decreases |texts|
  {
    hide Entry, Utf8Of, Short;
    if texts != [] {
      EntrySize(texts[0], utf8);
      SizesBounded(texts[1..], utf8);
      assert StringsOf(texts)[1..] == StringsOf(texts[1..]);
    }
  }

  lemma TextsAreWritable(package: seq<nat>, utf8: bool)
    requires Short(package)
    ensures Writable(Texts(package), utf8) && StringsOf(Texts(package)) == Strings(Utf8Of(package))
  {
    hide Short, Entries, Utf8Of, Bytes, NAME, EXPORTED, MANIFEST, PACKAGE, APPLICATION, ACTIVITY, ANDROID_NS;
    hide BOOTSTRAP_CLASS;
    ConstantsAreShort();
    assert AllShort(Texts(package));
    SizesBounded(Texts(package), utf8);
  }

  // ---- Its elements ----------------------------------------------------

  const RESOURCES: seq<u32> := [ATTR_NAME, ATTR_EXPORTED]
  const ZERO4: seq<byte> := [0, 0, 0, 0]
  const FREE6: seq<byte> := [0, 0, 0, 0, 0, 0]
  const FREE12: seq<byte> := ZERO4 + ZERO4 + ZERO4
  const FREE16: seq<byte> := FREE12 + ZERO4

  const PACKAGE_WRITTEN := WrittenAttribute(None, 3, Some(8), WrittenText(8))
  const NAME_WRITTEN := WrittenAttribute(Some(6), 0, None, WrittenText(7))

  /** Exported as any number says: zero is no. */
  function ExportedWritten(data: u32): WrittenAttribute {
    WrittenAttribute(Some(6), 1, None, WrittenFlag(data))
  }

  const ROOT_TAG := Start(FREE12, 2, FREE6, [PACKAGE_WRITTEN])
  const APPLICATION_TAG := Start(FREE12, 4, FREE6, [])

  function ActivityTag(data: u32): Start {
    Start(FREE12, 5, FREE6, [NAME_WRITTEN, ExportedWritten(data)])
  }

  /** The ends of the activity, the application, the manifest and the namespace. */
  function Ends(): seq<Piece> {
    [Finish(FREE12, 5)] + ([Finish(FREE12, 4)] + ([Finish(FREE12, 2)] + ([Space(false, FREE16)] + [])))
  }

  function Body(data: u32): seq<Piece> {
    [Space(true, FREE16)] + ([Begin(ROOT_TAG)] + ([Begin(APPLICATION_TAG)] + ([Begin(ActivityTag(data))] + Ends())))
  }

  function SampleDocument(package: seq<nat>, utf8: bool, data: u32): Document
    requires Writable(Texts(package), utf8)
  {
    Document(PrintPool(Texts(package), utf8), [], RESOURCES, Body(data))
  }

  function Root(package: Str): Element {
    Element(2, MANIFEST, [Attribute(None, PACKAGE, None, Some(package), Text(package))])
  }

  const INNER: Element := Element(4, APPLICATION, [])

  function Activity(exported: bool): Element {
    Element(5, ACTIVITY,
            [Attribute(Some(ANDROID_NS), NAME, Some(ATTR_NAME), None, Text(BOOTSTRAP_CLASS)),
             Attribute(Some(ANDROID_NS), EXPORTED, Some(ATTR_EXPORTED), None, Flag(exported))])
  }

  function SampleTree(package: Str, exported: bool): Node {
    Node(Root(package), Cons(Node(INNER, Cons(Node(Activity(exported), Nil), Nil)), Nil))
  }

  lemma TagsAreGood(package: Str, data: u32)
    ensures GoodStart(ROOT_TAG, Strings(package))
    ensures ElementOf(ROOT_TAG, Strings(package), RESOURCES) == Root(package)
    ensures GoodStart(APPLICATION_TAG, Strings(package))
    ensures ElementOf(APPLICATION_TAG, Strings(package), RESOURCES) == INNER
    ensures GoodStart(ActivityTag(data), Strings(package))
    ensures ElementOf(ActivityTag(data), Strings(package), RESOURCES) == Activity(data != 0)
  {
    hide NAME, EXPORTED, MANIFEST, PACKAGE, APPLICATION, ACTIVITY, ANDROID_NS, BOOTSTRAP_CLASS;
  }

  lemma OneMore(p: Piece, more: seq<Piece>, strings: seq<Str>, events: seq<Event>)
    requires GoodPieces(more, strings) && EventsOfPieces(more, strings, RESOURCES) == events && GoodPiece(p, strings)
    ensures GoodPieces([p] + more, strings)
    ensures EventsOfPieces([p] + more, strings, RESOURCES) == EventsOfPiece(p, strings, RESOURCES) + events
  {
    hide EventsOfPiece, GoodPiece, RESOURCES;
    PrintCons(p, more, strings, RESOURCES);
  }

  lemma FinishIsGood(n: u32, strings: seq<Str>)
    requires n < |strings|
    ensures GoodPiece(Finish(FREE12, n), strings) && EventsOfPiece(Finish(FREE12, n), strings, RESOURCES) == [Closed(n)]
  {
  }

  lemma SpaceIsGood(opens: bool, strings: seq<Str>)
    ensures GoodPiece(Space(opens, FREE16), strings)
    ensures EventsOfPiece(Space(opens, FREE16), strings, RESOURCES) == []
  {
  }

  lemma BeginIsGood(e: Start, strings: seq<Str>)
    requires GoodStart(e, strings)
    ensures GoodPiece(Begin(e), strings)
    ensures EventsOfPiece(Begin(e), strings, RESOURCES) == [Opened(ElementOf(e, strings, RESOURCES))]
  {
    hide GoodAttributes, AttributesOf;
  }

  lemma NothingYet(strings: seq<Str>)
    ensures GoodPieces([], strings) && EventsOfPieces([], strings, RESOURCES) == []
  {
  }

  function EndEvents(): seq<Event> {
    [Closed(5)] + ([Closed(4)] + ([Closed(2)] + ([] + [])))
  }

  lemma EndsSay(strings: seq<Str>)
    requires |strings| == 9
    ensures GoodPieces(Ends(), strings) && EventsOfPieces(Ends(), strings, RESOURCES) == EndEvents()
  {
    hide RESOURCES, FREE12, FREE16, GoodPieces, GoodPiece, EventsOfPieces, EventsOfPiece;
    FinishIsGood(5, strings);
    FinishIsGood(4, strings);
    FinishIsGood(2, strings);
    SpaceIsGood(false, strings);
    NothingYet(strings);
    OneMore(Space(false, FREE16), [], strings, []);
    OneMore(Finish(FREE12, 2), [Space(false, FREE16)] + [], strings, [] + []);
    OneMore(Finish(FREE12, 4), [Finish(FREE12, 2)] + ([Space(false, FREE16)] + []), strings, [Closed(2)] + ([] + []));
    OneMore(Finish(FREE12, 5), [Finish(FREE12, 4)] + ([Finish(FREE12, 2)] + ([Space(false, FREE16)] + [])), strings,
            [Closed(4)] + ([Closed(2)] + ([] + [])));
  }

  function BodyEvents(package: Str, exported: bool): seq<Event> {
    [] + ([Opened(Root(package))] + ([Opened(INNER)] + ([Opened(Activity(exported))] + EndEvents())))
  }

  lemma BodySays(package: Str, data: u32)
    ensures GoodPieces(Body(data), Strings(package))
    ensures EventsOfPieces(Body(data), Strings(package), RESOURCES) == BodyEvents(package, data != 0)
  {
    hide Strings, GoodStart, ElementOf, Root, INNER, Activity, RESOURCES, FREE16, ROOT_TAG, APPLICATION_TAG;
    hide ActivityTag, GoodPieces, EventsOfPieces, GoodPiece, EventsOfPiece, Ends, EndEvents;
    var strings := Strings(package);
    NineStrings(package);
    TagsAreGood(package, data);
    EndsSay(strings);
    SpaceIsGood(true, strings);
    BeginIsGood(ROOT_TAG, strings);
    BeginIsGood(APPLICATION_TAG, strings);
    BeginIsGood(ActivityTag(data), strings);
    var inner := [Begin(ActivityTag(data))] + Ends();
    var events := [Opened(Activity(data != 0))] + EndEvents();
    OneMore(Begin(ActivityTag(data)), Ends(), strings, EndEvents());
    OneMore(Begin(APPLICATION_TAG), inner, strings, events);
    OneMore(Begin(ROOT_TAG), [Begin(APPLICATION_TAG)] + inner, strings, [Opened(INNER)] + events);
    OneMore(Space(true, FREE16), [Begin(ROOT_TAG)] + ([Begin(APPLICATION_TAG)] + inner), strings,
            [Opened(Root(package))] + ([Opened(INNER)] + events));
  }

  lemma NineStrings(package: Str)
    ensures |Strings(package)| == 9
  {
  }

  lemma TreeIs(package: Str, exported: bool)
    ensures Flat(SampleTree(package, exported)) == BodyEvents(package, exported)
  {
    hide Root, Activity;
    var act := Node(Activity(exported), Nil);
    assert Flat(act) == [Opened(Activity(exported)), Closed(5)] by {
      ActivityIndex(exported);
    }
    var inner := Node(INNER, Cons(act, Nil));
    assert FlatAll(Cons(act, Nil)) == Flat(act) + [];
    assert Flat(inner) == [Opened(INNER)] + Flat(act) + [Closed(4)];
    assert FlatAll(Cons(inner, Nil)) == Flat(inner) + [];
    RootIndex(package);
  }

  lemma ActivityIndex(exported: bool)
    ensures Activity(exported).nameIndex == 5
  {
  }

  lemma RootIndex(package: Str)
    ensures Root(package).nameIndex == 2
  {
  }

  // ---- What it says ----------------------------------------------------

  lemma RootSays(package: Str)
    ensures StringAttribute(Root(package), None, PACKAGE, None) == Some(Some(package))
  {
    hide StringAttribute, PACKAGE, MANIFEST;
    var e := Root(package);
    assert Sole(e, 0, None, PACKAGE, None);
    assert SaysText(e, None, PACKAGE, None, package);
    TextExactly(e, None, PACKAGE, None, package);
  }

  lemma NamesAtHand()
    ensures NAME != EXPORTED && NAME != ENABLED && EXPORTED != ENABLED
  {
    assert |NAME| == 4 && |EXPORTED| == 8 && |ENABLED| == 7;
  }

  lemma ActivityIsNamed(exported: bool)
    ensures SaysText(Activity(exported), Some(ANDROID_NS), NAME, Some(ATTR_NAME), BOOTSTRAP_CLASS)
  {
    hide NAME, EXPORTED, ENABLED, ANDROID_NS, BOOTSTRAP_CLASS, ACTIVITY;
    NamesAtHand();
    assert Sole(Activity(exported), 0, Some(ANDROID_NS), NAME, Some(ATTR_NAME));
  }

  lemma ActivityIsExported(exported: bool)
    ensures SaysFlag(Activity(exported), Some(ANDROID_NS), EXPORTED, ATTR_EXPORTED, exported)
    ensures Unclaimed(Activity(exported), Some(ANDROID_NS), ENABLED, Some(ATTR_ENABLED))
  {
    hide NAME, EXPORTED, ENABLED, ANDROID_NS, BOOTSTRAP_CLASS, ACTIVITY, TRUE, FALSE;
    NamesAtHand();
    assert Sole(Activity(exported), 1, Some(ANDROID_NS), EXPORTED, Some(ATTR_EXPORTED));
  }

  lemma ActivityName(exported: bool)
    ensures Activity(exported).name == ACTIVITY
  {
  }

  lemma ActivitySays(package: Str, exported: bool)
    ensures IsBootstrap(Activity(exported), Some(APPLICATION), package)
    ensures Declares(Activity(exported), exported, true)
    ensures Fine(Activity(exported), Some(APPLICATION), package)
  {
    hide StringAttribute, Declares, NAME, EXPORTED, ENABLED, ANDROID_NS, BOOTSTRAP_CLASS, ACTIVITY, APPLICATION;
    hide NormalizeActivity, SaysText, SaysFlag, Unclaimed, Activity, ATTR_NAME;
    var e := Activity(exported);
    ActivityName(exported);
    ActivityIsNamed(exported);
    ActivityIsExported(exported);
    TextExactly(e, Some(ANDROID_NS), NAME, Some(ATTR_NAME), BOOTSTRAP_CLASS);
    NameExactly(BOOTSTRAP_CLASS, package);
    DeclaresExactly(e, exported, true);
  }

  lemma SampleIsGood(package: Str, exported: bool)
    ensures var t := SampleTree(package, exported);
            && GoodTree(t, package) && Applications(None, t) == 1
            && Bootstraps(package, None, t) == [Activity(exported)]
  {
    hide StringAttribute, Declares, NAME, EXPORTED, ANDROID_NS, BOOTSTRAP_CLASS, ACTIVITY, APPLICATION, MANIFEST;
    hide NormalizeActivity, Activity, PACKAGE, IsBootstrap, Fine;
    NamesDiffer();
    RootSays(package);
    ActivitySays(package, exported);
    ActivityName(exported);
    var t := SampleTree(package, exported);
    RootIsPlain(t, package);
    var act := Node(Activity(exported), Nil);
    var inner := Node(INNER, Cons(act, Nil));
    NotBootstrap(package);
    assert Bootstraps(package, Some(APPLICATION), act) == [Activity(exported)] + [];
    assert BootstrapsIn(package, Some(APPLICATION), Cons(act, Nil)) == [Activity(exported)] + [];
    assert Bootstraps(package, Some(MANIFEST), inner) == [] + BootstrapsIn(package, Some(APPLICATION), Cons(act, Nil));
    assert BootstrapsIn(package, Some(MANIFEST), Cons(inner, Nil)) == [Activity(exported)] + [];
    assert Applications(Some(APPLICATION), act) == 0;
    assert ApplicationsIn(Some(APPLICATION), Cons(act, Nil)) == 0;
    assert INNER.name == APPLICATION;
    assert Applications(Some(MANIFEST), inner) == 1;
    assert ApplicationsIn(Some(MANIFEST), Cons(inner, Nil)) == 1;
    assert Height(act) == 1 && HeightAll(Cons(act, Nil)) == 1 && Height(inner) == 2;
    assert HeightAll(Cons(inner, Nil)) == 2 && Height(t) == 3;
    assert FineNode(package, Some(APPLICATION), act) && FineNodes(package, Some(APPLICATION), Cons(act, Nil));
    assert FineNode(package, Some(MANIFEST), inner) && FineNodes(package, Some(MANIFEST), Cons(inner, Nil));
    assert t.kids == Cons(inner, Nil) && t.element == Root(package);
  }

  lemma NotBootstrap(package: Str)
    ensures !IsBootstrap(INNER, Some(MANIFEST), package) && Fine(INNER, Some(MANIFEST), package)
  {
    hide StringAttribute;
    NamesDiffer();
  }

  // ---- It is accepted --------------------------------------------------

  lemma {:induction false} PiecesAreSmall(pieces: seq<Piece>, strings: seq<Str>)
    requires GoodPieces(pieces, strings)
    ensures |PrintPieces(pieces, strings)| <= 0x1_0000 * |pieces|
    decreases |pieces|
  {
    if pieces != [] {
      assert GoodPiece(pieces[0], strings);
      PiecesAreSmall(pieces[1..], strings);
    }
  }

  lemma SampleIsGoodDocument(package: seq<nat>, utf8: bool, data: u32)
    requires Short(package) && Writable(Texts(package), utf8) && GoodPieces(Body(data), Strings(Utf8Of(package)))
    ensures var d, strings := SampleDocument(package, utf8, data), Strings(Utf8Of(package));
            GoodDocument(d, strings) && 8 + |Inside(d, strings)| < 0x1_0000_0000
  {
    ShortIsText(package);
    hide Writable, Short, GoodPieces, PoolOf, PrintMap, PrintPieces, Body, PrintPool, Utf8Of;
    var strings := Strings(Utf8Of(package));
    TextsAreWritable(package, utf8);
    WrittenPoolReads(Texts(package), utf8);
    PoolIsSmall(Texts(package), utf8);
    NineStrings(Utf8Of(package));
    NothingYet(strings);
    PiecesAreSmall(Body(data), strings);
    PiecesAreSmall([], strings);
    EightPieces(data);
  }

  lemma EightPieces(data: u32)
    ensures |Body(data)| == 8
  {
  }

  /** So for every package there is a valid manifest, and the same with an activity that
      is not exported is not valid. */
  lemma ExportedIsValid(package: seq<nat>, utf8: bool, data: u32) returns (s: seq<byte>)
    requires Short(package)
    ensures Scalars(package)
    ensures ReadManifest(s, Utf8Of(package)).Some?
    ensures Validate(s, Utf8Of(package)) <==> data != 0
  {
    ShortIsText(package);
    hide ReadManifest, Short, Scalars, Utf8Of;
    s := BootstrapIsRead(package, utf8, data);
  }

  lemma ShortIsText(x: seq<nat>)
    requires Short(x)
    ensures Scalars(x)
  {
  }

  lemma PoolIsSmall(texts: seq<seq<nat>>, utf8: bool)
    requires Writable(texts, utf8)
    ensures |PrintPool(texts, utf8)| <= MANIFEST_LIMIT
  {
  }

  lemma SampleIsAccepted(d: Document, name: Str, data: u32) returns (s: seq<byte>)
    requires GoodDocument(d, Strings(name)) && 8 + |Inside(d, Strings(name))| < 0x1_0000_0000
    requires d.body == Body(data) && d.resources == RESOURCES
    ensures ReadManifest(s, name).Some?
    ensures ReadManifest(s, name).value.facts == Facts(Some(name), 1, 1, data != 0, true)
  {
    hide GoodDocument, EventsOfPieces, Flat, Body, SampleTree, Strings, GoodTree, Applications, Bootstraps, Activity;
    hide Inside, Declares, ReadManifest, Writes, FactsOf, BodyEvents, Tag, RESOURCES;
    var strings, t := Strings(name), SampleTree(name, data != 0);
    BodySays(name, data);
    TreeIs(name, data != 0);
    SampleIsGood(name, data != 0);
    ActivitySays(name, data != 0);
    s := Tag(RES_XML, 8, 8 + |Inside(d, strings)|) + Inside(d, strings);
    SampleIsWritten(s, name, d, t, strings);
    WrittenIsAccepted(s, name, d, t, strings);
    FactsAre(t, name, ReadManifest(s, name).value.facts, Activity(data != 0), data != 0);
  }

  /** Whatever the package, either encoding of the strings, and whatever number says
      exported: this manifest is accepted, and its facts are one application and one
      bootstrap activity, exported unless the number is zero, and enabled. */
  lemma BootstrapIsRead(package: seq<nat>, utf8: bool, data: u32) returns (s: seq<byte>)
    requires Short(package)
    ensures var read := ReadManifest(s, Utf8Of(package));
            && read.Some?
            && read.value.facts == Facts(Some(Utf8Of(package)), 1, 1, data != 0, true)
  {
    ShortIsText(package);
    hide Writable, Short, GoodDocument, Body, Strings, SampleDocument, Utf8Of, Inside, ReadManifest, Texts, Scalars;
    hide RESOURCES, EventsOfPieces, BodyEvents;
    var name := Utf8Of(package);
    TextsAreWritable(package, utf8);
    BodySays(name, data);
    SampleIsGoodDocument(package, utf8, data);
    DocumentBody(package, utf8, data);
    s := SampleIsAccepted(SampleDocument(package, utf8, data), name, data);
  }

  lemma SampleIsWritten(s: seq<byte>, expected: Str, d: Document, t: Node, strings: seq<Str>)
    requires GoodDocument(d, strings) && 8 + |Inside(d, strings)| < 0x1_0000_0000
    requires s == Tag(RES_XML, 8, 8 + |Inside(d, strings)|) + Inside(d, strings)
    requires EventsOfPieces(d.body, strings, d.resources) == Flat(t) && GoodTree(t, expected)
    ensures Writes(s, expected, d, t, strings)
  {
    hide GoodDocument, Inside, EventsOfPieces, Flat, GoodTree, Tag;
  }

  lemma DocumentBody(package: seq<nat>, utf8: bool, data: u32)
    requires Writable(Texts(package), utf8)
    ensures var d := SampleDocument(package, utf8, data); d.body == Body(data) && d.resources == RESOURCES
  {
  }

  lemma FactsAre(t: Node, expected: Str, f: Facts, e: Element, exported: bool)
    requires FactsOf(t, expected, f) && Applications(None, t) == 1 && Bootstraps(expected, None, t) == [e]
    requires Declares(e, exported, true)
    ensures f == Facts(Some(expected), 1, 1, exported, true)
  {
    hide BooleanAttribute, StringAttribute, Applications, Bootstraps;
  }

  // ---- Byte by byte ----------------------------------------------------

  /** The chunks of a manifest start with their kind, the size of their header, and
      their own size, the least significant byte first. */
  lemma TagBytes(size: byte)
    ensures Tag(RES_XML, 8, size) == [3, 0, 8, 0, size, 0, 0, 0]
    ensures Tag(RES_STRING_POOL, 28, size) == [1, 0, 28, 0, size, 0, 0, 0]
    ensures Tag(RES_RESOURCE_MAP, 8, size) == [0x80, 1, 8, 0, size, 0, 0, 0]
    ensures Tag(RES_START_NAMESPACE, 16, size) == [0, 1, 16, 0, size, 0, 0, 0]
    ensures Tag(RES_END_NAMESPACE, 16, size) == [1, 1, 16, 0, size, 0, 0, 0]
    ensures Tag(RES_START_ELEMENT, 16, size) == [2, 1, 16, 0, size, 0, 0, 0]
    ensures Tag(RES_END_ELEMENT, 16, size) == [3, 1, 16, 0, size, 0, 0, 0]
  {
    assert Word(size) == [size, 0, 0, 0];
  }

  /** An element with a flag that is set and a text. */
  lemma ElementBytes(free: seq<byte>, special: seq<byte>)
    requires |free| == 12 && |special| == 6
    ensures PrintStart(Start(free, 5, special, [ExportedWritten(0xFFFF_FFFF), NAME_WRITTEN]))
         == [2, 1, 16, 0, 76, 0, 0, 0] + free + [5, 0, 0, 0] + [20, 0, 20, 0, 2, 0] + special
            + ([6, 0, 0, 0] + [1, 0, 0, 0] + [0xFF, 0xFF, 0xFF, 0xFF] + [8, 0, 0, 0x12] + [0xFF, 0xFF, 0xFF, 0xFF])
            + ([6, 0, 0, 0] + [0, 0, 0, 0] + [0xFF, 0xFF, 0xFF, 0xFF] + [8, 0, 0, 3] + [7, 0, 0, 0])
  {
    hide Word, Tag, PrintAttribute;
    SmallWords();
    TagBytes(76);
    assert Tally(2) == [20, 0, 20, 0, 2, 0];
    AttributeBytes();
    var first, second := ExportedWritten(0xFFFF_FFFF), NAME_WRITTEN;
    assert [first, second][1..] == [second] && [second][1..] == [];
    assert PrintAttributes([second]) == PrintAttribute(second) + [];
  }

  lemma SmallWords()
    ensures forall n: byte :: Word(n) == [n, 0, 0, 0]
    ensures Word(0xFFFF_FFFF) == [0xFF, 0xFF, 0xFF, 0xFF]
  {
  }

  lemma AttributeBytes()
    ensures PrintAttribute(ExportedWritten(0xFFFF_FFFF))
         == [6, 0, 0, 0] + [1, 0, 0, 0] + [0xFF, 0xFF, 0xFF, 0xFF] + [8, 0, 0, 0x12] + [0xFF, 0xFF, 0xFF, 0xFF]
    ensures PrintAttribute(NAME_WRITTEN)
         == [6, 0, 0, 0] + [0, 0, 0, 0] + [0xFF, 0xFF, 0xFF, 0xFF] + [8, 0, 0, 3] + [7, 0, 0, 0]
  {
    hide Word;
    SmallWords();
  }

  /** The identifiers of the three attributes, and the flag of a UTF-8 pool. */
  lemma IdentifierBytes()
    ensures Word(ATTR_NAME) == [3, 0, 1, 1] && Word(ATTR_ENABLED) == [0x0E, 0, 1, 1]
    ensures Word(ATTR_EXPORTED) == [0x10, 0, 1, 1] && Word(POOL_UTF8) == [0, 1, 0, 0]
  {
  }
}
