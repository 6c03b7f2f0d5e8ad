/** How the elements of a binary manifest are written: the bytes of an attribute,
    of a start element and of an end element, and the proof that what is read is
    exactly what is written so. */
module ManifestText {
  import opened Common
  import opened Manifest
  import ManifestStrings

  // ---- Words -----------------------------------------------------------

  function Word(n: u32): (s: seq<byte>)
    ensures |s| == 4
  {
    [n % 0x100, n / 0x100 % 0x100, n / 0x1_0000 % 0x100, n / 0x100_0000]
  }

  function Half(n: u16): (s: seq<byte>)
    ensures |s| == 2
  {
    ManifestStrings.Unit(n)
  }

  lemma WordOfBytes(a: byte, b: byte, c: byte, d: byte)
    ensures Word(a as int + b as int * 0x100 + c as int * 0x1_0000 + d as int * 0x100_0000) == [a, b, c, d]
  {
    var n := a as int + b as int * 0x100 + c as int * 0x1_0000 + d as int * 0x100_0000;
    assert n / 0x100 == b as int + c as int * 0x100 + d as int * 0x1_0000;
    assert n / 0x1_0000 == c as int + d as int * 0x100;
  }

  lemma WordIsBytes(n: u32)
    ensures var w := Word(n);
            n == w[0] as int + w[1] as int * 0x100 + w[2] as int * 0x1_0000 + w[3] as int * 0x100_0000
  {
    assert n / 0x1_0000 == n / 0x100 / 0x100 && n / 0x100_0000 == n / 0x1_0000 / 0x100;
  }

  /** A word stands at a place exactly when it is read there. */
  lemma WordReads(s: seq<byte>, at: nat, n: u32)
    requires at + 4 <= |s|
    ensures s[at..at + 4] == Word(n) <==> Le32(s, at) == Some(n)
  {
    hide Word;
    var four := s[at..at + 4];
    assert four == [s[at], s[at + 1], s[at + 2], s[at + 3]];
    WordOfBytes(s[at], s[at + 1], s[at + 2], s[at + 3]);
    if four == Word(n) {
      WordIsBytes(n);
    }
  }

  lemma HalfReads(s: seq<byte>, at: nat, n: u16)
    requires at + 2 <= |s|
    ensures s[at..at + 2] == Half(n) <==> Le16(s, at) == Some(n)
  {
    ManifestStrings.UnitIs(s, at);
    if s[at..at + 2] == Half(n) {
      ManifestStrings.UnitReads(s, at, n);
    }
  }

  // ---- Attributes ------------------------------------------------------

  datatype Written = WrittenText(index: u32) | WrittenFlag(data: u32) | WrittenOther(kind: byte, data: u32)

  /** An attribute as it stands in the file: names are places in the string pool. */
  datatype WrittenAttribute = WrittenAttribute(namespace: Option<u32>, name: u32, raw: Option<u32>, value: Written)

  function KindOf(w: Written): byte {
    match w
    case WrittenText(_) => TYPE_STRING
    case WrittenFlag(_) => TYPE_BOOLEAN
    case WrittenOther(kind, _) => kind
  }

  function DataOf(w: Written): u32 {
    match w
    case WrittenText(index) => index
    case WrittenFlag(data) => data
    case WrittenOther(_, data) => data
  }

  /** A place in the pool, or the mark that there is none. */
  function Place(index: Option<u32>): u32 {
    if index.Some? then index.value else NO_INDEX
  }

  function PrintAttribute(a: WrittenAttribute): (s: seq<byte>)
    ensures |s| == 20
  {
    Word(Place(a.namespace))
    + (Word(a.name) + (Word(Place(a.raw)) + ([8, 0, 0, KindOf(a.value)] + Word(DataOf(a.value)))))
  }

  predicate InPool(index: Option<u32>, pool: seq<Str>) {
    index.Some? ==> index.value < |pool| && index.value != NO_INDEX
  }

  predicate GoodValue(w: Written, pool: seq<Str>) {
    match w
    case WrittenText(index) => index < |pool|
    case WrittenFlag(_) => true
    case WrittenOther(kind, _) =>
      kind <= 0x1F && !(0x09 <= kind <= 0x0F) && kind != TYPE_STRING && kind != TYPE_BOOLEAN
  }

  predicate GoodAttribute(a: WrittenAttribute, pool: seq<Str>) {
    InPool(a.namespace, pool) && a.name < |pool| && InPool(a.raw, pool) && GoodValue(a.value, pool)
  }

  function StringOf(index: Option<u32>, pool: seq<Str>): Option<Str>
    requires InPool(index, pool)
  {
    if index.Some? then Some(pool[index.value]) else None
  }

  /** A number stands for true unless it is zero. */
  function ValueOf(w: Written, pool: seq<Str>): Typed
    requires GoodValue(w, pool)
  {
    match w
    case WrittenText(index) => Text(pool[index])
    case WrittenFlag(data) => Flag(data > 0)
    case WrittenOther(_, _) => OtherType
  }

  /** The resource of a name: zero is none, and so is a name beyond the map. */
  function ResourceOf(name: u32, resources: seq<u32>): Option<u32> {
    if name >= |resources| || resources[name] == 0 then None else Some(resources[name])
  }

  function AttributeOf(a: WrittenAttribute, pool: seq<Str>, resources: seq<u32>): Attribute
    requires GoodAttribute(a, pool)
  {
    Attribute(StringOf(a.namespace, pool), pool[a.name], ResourceOf(a.name, resources), StringOf(a.raw, pool),
              ValueOf(a.value, pool))
  }

  /** An attribute written at a place, and what it says. */
  predicate Holds(s: seq<byte>, at: nat, w: WrittenAttribute, a: Attribute, pool: seq<Str>, resources: seq<u32>) {
    && at + 20 <= |s| && s[at..at + 20] == PrintAttribute(w)
    && GoodAttribute(w, pool) && a == AttributeOf(w, pool, resources)
  }

  lemma Split20(s: seq<byte>, at: nat, a: seq<byte>, b: seq<byte>, c: seq<byte>, d: seq<byte>, e: seq<byte>)
    requires at + 20 <= |s| && |a| == 4 && |b| == 4 && |c| == 4 && |d| == 4 && |e| == 4
    ensures s[at..at + 20] == a + (b + (c + (d + e)))
       <==> && s[at..at + 4] == a && s[at + 4..at + 8] == b && s[at + 8..at + 12] == c && s[at + 12..at + 16] == d
            && s[at + 16..at + 20] == e
  {
    var t, u := s[at..at + 20], a + (b + (c + (d + e)));
    assert t == s[at..at + 4]
                + (s[at + 4..at + 8] + (s[at + 8..at + 12] + (s[at + 12..at + 16] + s[at + 16..at + 20])));
    if t == u {
      assert s[at..at + 4] == t[..4] == u[..4] == a;
      assert s[at + 4..at + 8] == t[4..8] == u[4..8] == b;
      assert s[at + 8..at + 12] == t[8..12] == u[8..12] == c;
      assert s[at + 12..at + 16] == t[12..16] == u[12..16] == d;
      assert s[at + 16..at + 20] == t[16..20] == u[16..20] == e;
    }
  }

  /** The bytes of an attribute, field by field. */
  lemma FieldsOf(s: seq<byte>, at: nat, w: WrittenAttribute)
    requires at + 20 <= |s|
    ensures s[at..at + 20] == PrintAttribute(w)
       <==> && Le32(s, at) == Some(Place(w.namespace)) && Le32(s, at + 4) == Some(w.name)
            && Le32(s, at + 8) == Some(Place(w.raw)) && Le16(s, at + 12) == Some(8) && s[at + 14] == 0
            && s[at + 15] == KindOf(w.value) && Le32(s, at + 16) == Some(DataOf(w.value))
  {
    hide Word, Le32, Place, KindOf, DataOf;
    Split20(s, at, Word(Place(w.namespace)), Word(w.name), Word(Place(w.raw)), [8, 0, 0, KindOf(w.value)],
            Word(DataOf(w.value)));
    WordReads(s, at, Place(w.namespace));
    WordReads(s, at + 4, w.name);
    WordReads(s, at + 8, Place(w.raw));
    WordReads(s, at + 16, DataOf(w.value));
    assert s[at + 12..at + 16] == [s[at + 12], s[at + 13], s[at + 14], s[at + 15]];
  }

  lemma ReferenceIs(pool: seq<Str>, index: Option<u32>)
    requires InPool(index, pool)
    ensures Reference(pool, Place(index)) == Some(StringOf(index, pool))
  {
  }

  lemma ValueIs(pool: seq<Str>, w: Written)
    requires GoodValue(w, pool)
    ensures ReadTyped(pool, KindOf(w), DataOf(w)) == Some(ValueOf(w, pool))
  {
  }

  /** What is written as an attribute is read as what it says. */
  lemma AttributeReads(s: seq<byte>, at: nat, w: WrittenAttribute, a: Attribute, pool: seq<Str>, resources: seq<u32>)
    requires Holds(s, at, w, a, pool, resources)
    ensures ReadAttribute(s, at, pool, resources) == Some(a)
  {
    hide PrintAttribute, Le32, Place, StringOf, KindOf, DataOf, GoodValue, ReadTyped, Reference, InPool, ValueOf;
    FieldsOf(s, at, w);
    ReferenceIs(pool, w.namespace);
    ReferenceIs(pool, w.raw);
    ValueIs(pool, w.value);
  }

  function WrittenOf(kind: byte, data: u32): Written {
    if kind == TYPE_STRING then WrittenText(data)
    else if kind == TYPE_BOOLEAN then WrittenFlag(data) else WrittenOther(kind, data)
  }

  /** And nothing else is read as an attribute. */
  lemma AttributeIs(s: seq<byte>, at: nat, pool: seq<Str>, resources: seq<u32>) returns (w: WrittenAttribute)
    requires ReadAttribute(s, at, pool, resources).Some?
    ensures Holds(s, at, w, ReadAttribute(s, at, pool, resources).value, pool, resources)
  {
    hide PrintAttribute, Le32;
    LongEnough(s, at, pool, resources);
    IsLe32(s, at);
    IsLe32(s, at + 4);
    IsLe32(s, at + 8);
    IsLe32(s, at + 16);
    var namespace, raw := Le32(s, at).value, Le32(s, at + 8).value;
    w := WrittenAttribute(
      if namespace == NO_INDEX then None else Some(namespace), Le32(s, at + 4).value,
      if raw == NO_INDEX then None else Some(raw), WrittenOf(s[at + 15], Le32(s, at + 16).value));
    FieldsOf(s, at, w);
    assert GoodAttribute(w, pool);
    AttributeReads(s, at, w, AttributeOf(w, pool, resources), pool, resources);
  }

  lemma LongEnough(s: seq<byte>, at: nat, pool: seq<Str>, resources: seq<u32>)
    requires ReadAttribute(s, at, pool, resources).Some?
    ensures at + 20 <= |s|
  {
  }

  lemma IsLe32(s: seq<byte>, at: nat)
    requires at + 4 <= |s|
    ensures Le32(s, at).Some?
  {
  }

  // ---- Attribute lists -------------------------------------------------

  function PrintAttributes(attributes: seq<WrittenAttribute>): (s: seq<byte>)
    ensures |s| == 20 * |attributes|
  {
    if attributes == [] then [] else PrintAttribute(attributes[0]) + PrintAttributes(attributes[1..])
  }

  predicate GoodAttributes(attributes: seq<WrittenAttribute>, pool: seq<Str>) {
    forall i :: 0 <= i < |attributes| ==> GoodAttribute(attributes[i], pool)
  }

  function AttributesOf(attributes: seq<WrittenAttribute>, pool: seq<Str>, resources: seq<u32>): seq<Attribute>
    requires GoodAttributes(attributes, pool)
  {
    seq(|attributes|, i requires 0 <= i < |attributes| => AttributeOf(attributes[i], pool, resources))
  }

  predicate HoldAll(s: seq<byte>, at: nat, ws: seq<WrittenAttribute>, a: seq<Attribute>, pool: seq<Str>,
                    resources: seq<u32>) {
    && at + 20 * |ws| <= |s| && s[at..at + 20 * |ws|] == PrintAttributes(ws)
    && GoodAttributes(ws, pool) && a == AttributesOf(ws, pool, resources)
  }

  lemma GoodFirst(w: WrittenAttribute, ws: seq<WrittenAttribute>, pool: seq<Str>)
    ensures GoodAttributes([w] + ws, pool) <==> GoodAttribute(w, pool) && GoodAttributes(ws, pool)
  {
    hide GoodAttribute;
    var all := [w] + ws;
    assert all[0] == w && all[1..] == ws;
    assert forall i :: 0 <= i < |ws| ==> ws[i] == all[i + 1];
    assert forall i :: 0 < i < |all| ==> all[i] == ws[i - 1];
  }

  lemma MeansFirst(w: WrittenAttribute, ws: seq<WrittenAttribute>, pool: seq<Str>, resources: seq<u32>)
    requires GoodAttributes([w] + ws, pool) && GoodAttribute(w, pool) && GoodAttributes(ws, pool)
    ensures AttributesOf([w] + ws, pool, resources)
         == [AttributeOf(w, pool, resources)] + AttributesOf(ws, pool, resources)
  {
    hide GoodAttribute, AttributeOf;
  }

  lemma PrintsFirst(s: seq<byte>, at: nat, w: WrittenAttribute, ws: seq<WrittenAttribute>)
    requires at + 20 + 20 * |ws| <= |s|
    ensures s[at..at + 20 + 20 * |ws|] == PrintAttributes([w] + ws)
       <==> s[at..at + 20] == PrintAttribute(w) && s[at + 20..at + 20 + 20 * |ws|] == PrintAttributes(ws)
  {
    hide PrintAttribute;
    assert ([w] + ws)[1..] == ws;
    Front(s, at, PrintAttribute(w), PrintAttributes(ws));
  }

  lemma HoldFirst(s: seq<byte>, at: nat, w: WrittenAttribute, a: Attribute, ws: seq<WrittenAttribute>,
                  more: seq<Attribute>, pool: seq<Str>, resources: seq<u32>)
    ensures Holds(s, at, w, a, pool, resources) && HoldAll(s, at + 20, ws, more, pool, resources)
       <==> HoldAll(s, at, [w] + ws, [a] + more, pool, resources)
  {
    hide PrintAttribute, PrintAttributes, GoodAttribute, GoodAttributes, AttributeOf, AttributesOf;
    GoodFirst(w, ws, pool);
    if at + 20 + 20 * |ws| <= |s| {
      PrintsFirst(s, at, w, ws);
    }
    if GoodAttribute(w, pool) && GoodAttributes(ws, pool) {
      MeansFirst(w, ws, pool, resources);
      Parts([a], more, [AttributeOf(w, pool, resources)], AttributesOf(ws, pool, resources));
    }
  }

  lemma Front(s: seq<byte>, at: nat, a: seq<byte>, b: seq<byte>)
    requires at + |a| + |b| <= |s|
    ensures s[at..at + |a| + |b|] == a + b
       <==> s[at..at + |a|] == a && s[at + |a|..at + |a| + |b|] == b
  {
    assert s[at..at + |a| + |b|] == s[at..at + |a|] + s[at + |a|..at + |a| + |b|];
    Parts(s[at..at + |a|], s[at + |a|..at + |a| + |b|], a, b);
  }

  lemma Parts<T>(a: seq<T>, b: seq<T>, c: seq<T>, d: seq<T>)
    requires |a| == |c|
    ensures a + b == c + d <==> a == c && b == d
  {
    if a + b == c + d {
      assert a == (a + b)[..|a|] && b == (a + b)[|a|..];
      assert c == (c + d)[..|a|] && d == (c + d)[|a|..];
    }
  }

  lemma HoldLengths(s: seq<byte>, at: nat, ws: seq<WrittenAttribute>, a: seq<Attribute>, pool: seq<Str>,
                    resources: seq<u32>)
    requires HoldAll(s, at, ws, a, pool, resources)
    ensures |a| == |ws|
  {
    hide PrintAttributes, GoodAttributes;
  }

  lemma {:induction false} AttributesRead(s: seq<byte>, at: nat, ws: seq<WrittenAttribute>, a: seq<Attribute>,
                                          pool: seq<Str>, resources: seq<u32>)
    requires HoldAll(s, at, ws, a, pool, resources)
    ensures ReadAttributes(s, at, |ws|, pool, resources) == Some(a)
    decreases |ws|
  {
    if ws != [] {
      hide ReadAttribute, HoldAll, Holds;
      HoldLengths(s, at, ws, a, pool, resources);
      assert ws == [ws[0]] + ws[1..] && a == [a[0]] + a[1..];
      HoldFirst(s, at, ws[0], a[0], ws[1..], a[1..], pool, resources);
      AttributeReads(s, at, ws[0], a[0], pool, resources);
      AttributesRead(s, at + 20, ws[1..], a[1..], pool, resources);
    }
  }

  lemma {:induction false} AttributesAre(s: seq<byte>, at: nat, count: nat, pool: seq<Str>, resources: seq<u32>)
    returns (ws: seq<WrittenAttribute>)
    requires at <= |s| && ReadAttributes(s, at, count, pool, resources).Some?
    ensures |ws| == count
    ensures HoldAll(s, at, ws, ReadAttributes(s, at, count, pool, resources).value, pool, resources)
    decreases count
  {
    if count == 0 {
      ws := [];
    } else {
      hide ReadAttribute, HoldAll, Holds;
      LongEnough(s, at, pool, resources);
      var w := AttributeIs(s, at, pool, resources);
      var more := AttributesAre(s, at + 20, count - 1, pool, resources);
      ws := [w] + more;
      HoldFirst(s, at, w, ReadAttribute(s, at, pool, resources).value, more,
                ReadAttributes(s, at + 20, count - 1, pool, resources).value, pool, resources);
    }
  }

  // ---- Tags ------------------------------------------------------------

  /** The first eight bytes of a chunk. */
  function Tag(kind: u16, headerSize: u16, size: u32): (s: seq<byte>)
    ensures |s| == 8
  {
    Half(kind) + (Half(headerSize) + Word(size))
  }

  lemma TagReads(s: seq<byte>, at: nat, kind: u16, headerSize: u16, size: u32)
    requires at + 8 <= |s|
    ensures s[at..at + 8] == Tag(kind, headerSize, size)
       <==> Le16(s, at) == Some(kind) && Le16(s, at + 2) == Some(headerSize) && Le32(s, at + 4) == Some(size)
  {
    hide Half, Word, Le16, Le32;
    Front(s, at, Half(kind), Half(headerSize) + Word(size));
    Front(s, at + 2, Half(headerSize), Word(size));
    HalfReads(s, at, kind);
    HalfReads(s, at + 2, headerSize);
    WordReads(s, at + 4, size);
  }

  // ---- Elements --------------------------------------------------------

  const START_SIZE := 36

  /** A start element.  Its line, comment and namespace, and the places of its
      special attributes, are bytes that nothing depends on. */
  datatype Start = Start(free: seq<byte>, name: u32, special: seq<byte>, attributes: seq<WrittenAttribute>)

  predicate Sized(e: Start) {
    |e.free| == 12 && |e.special| == 6 && |e.attributes| <= ATTRIBUTE_LIMIT
  }

  predicate GoodStart(e: Start, pool: seq<Str>) {
    Sized(e) && e.name < |pool| && GoodAttributes(e.attributes, pool)
  }

  function PrintStart(e: Start): (s: seq<byte>)
    requires Sized(e)
    ensures |s| == START_SIZE + 20 * |e.attributes|
  {
    Tag(RES_START_ELEMENT, 16, START_SIZE + 20 * |e.attributes|)
    + (e.free + (Word(e.name) + (Tally(|e.attributes|) + (e.special + PrintAttributes(e.attributes)))))
  }

  /** Where attributes start, how long one is, and how many there are. */
  function Tally(count: u16): (s: seq<byte>)
    ensures |s| == 6
  {
    Half(20) + (Half(20) + Half(count))
  }

  function ElementOf(e: Start, pool: seq<Str>, resources: seq<u32>): Element
    requires GoodStart(e, pool)
  {
    Element(e.name, pool[e.name], AttributesOf(e.attributes, pool, resources))
  }

  lemma TallyReads(s: seq<byte>, at: nat, count: u16)
    requires at + 6 <= |s|
    ensures s[at..at + 6] == Tally(count)
       <==> Le16(s, at) == Some(20) && Le16(s, at + 2) == Some(20) && Le16(s, at + 4) == Some(count)
  {
    hide Half, Le16;
    Front(s, at, Half(20), Half(20) + Half(count));
    Front(s, at + 2, Half(20), Half(count));
    HalfReads(s, at, 20);
    HalfReads(s, at + 2, 20);
    HalfReads(s, at + 4, count);
  }

  lemma TailFields(s: seq<byte>, at: nat, count: u16, special: seq<byte>, attributes: seq<byte>)
    requires |special| == 6 && at + 12 + |attributes| <= |s|
    ensures s[at..at + 12 + |attributes|] == Tally(count) + (special + attributes)
       <==> && Le16(s, at) == Some(20) && Le16(s, at + 2) == Some(20) && Le16(s, at + 4) == Some(count)
            && s[at + 6..at + 12] == special && s[at + 12..at + 12 + |attributes|] == attributes
  {
    hide Tally, Le16;
    Front(s, at, Tally(count), special + attributes);
    Front(s, at + 6, special, attributes);
    TallyReads(s, at, count);
  }

  /** The bytes of a start element, field by field. */
  lemma StartFields(s: seq<byte>, at: nat, e: Start)
    requires Sized(e) && at + START_SIZE + 20 * |e.attributes| <= |s|
    ensures var n := |e.attributes|;
            s[at..at + START_SIZE + 20 * n] == PrintStart(e)
            <==>
            && s[at..at + 8] == Tag(RES_START_ELEMENT, 16, START_SIZE + 20 * n)
            && s[at + 8..at + 20] == e.free && Le32(s, at + 20) == Some(e.name) && Le16(s, at + 24) == Some(20)
            && Le16(s, at + 26) == Some(20) && Le16(s, at + 28) == Some(n) && s[at + 30..at + 36] == e.special
            && s[at + 36..at + 36 + 20 * n] == PrintAttributes(e.attributes)
  {
    hide Tag, Tally, Word, PrintAttributes, Le16, Le32;
    var n := |e.attributes|;
    var attributes := PrintAttributes(e.attributes);
    var tail := Tally(n) + (e.special + attributes);
    assert |tail| == 12 + 20 * n;
    Front(s, at, Tag(RES_START_ELEMENT, 16, START_SIZE + 20 * n), e.free + (Word(e.name) + tail));
    Front(s, at + 8, e.free, Word(e.name) + tail);
    Front(s, at + 20, Word(e.name), tail);
    WordReads(s, at + 20, e.name);
    TailFields(s, at + 24, n, e.special, attributes);
  }

  /** A start element written at a place, and what it says. */
  predicate Starts(s: seq<byte>, at: nat, end: nat, e: Start, element: Element, pool: seq<Str>, resources: seq<u32>) {
    && GoodStart(e, pool) && end == at + START_SIZE + 20 * |e.attributes| && end <= |s|
    && s[at..end] == PrintStart(e) && element == ElementOf(e, pool, resources)
  }

  /** What is written as a start element is read as what it says. */
  lemma StartReads(s: seq<byte>, at: nat, end: nat, e: Start, element: Element, pool: seq<Str>, resources: seq<u32>)
    requires Starts(s, at, end, e, element, pool, resources)
    ensures ReadElement(s, at, end, 16, pool, resources) == Some(element)
  {
    hide PrintStart, PrintAttributes, GoodAttributes, AttributesOf, ReadAttributes, Le16, Le32, Tag;
    StartFields(s, at, e);
    AttributesRead(s, at + 36, e.attributes, element.attributes, pool, resources);
  }

  /** And nothing else is read as a start element. */
  lemma StartIs(s: seq<byte>, at: nat, end: nat, headerSize: nat, pool: seq<Str>, resources: seq<u32>)
    returns (e: Start)
    requires at <= end <= |s| && ReadElement(s, at, end, headerSize, pool, resources).Some?
    requires Le16(s, at) == Some(RES_START_ELEMENT) && Le16(s, at + 2) == Some(headerSize)
    requires Le32(s, at + 4) == Some(end - at)
    ensures Starts(s, at, end, e, ReadElement(s, at, end, headerSize, pool, resources).value, pool, resources)
  {
    hide PrintStart, PrintAttributes, GoodAttributes, AttributesOf, ReadAttributes, Le16, Le32, Tag;
    IsLe32(s, at + 20);
    IsLe16(s, at + 28);
    var count := Le16(s, at + 28).value;
    var ws := AttributesAre(s, at + 36, count, pool, resources);
    e := Start(s[at + 8..at + 20], Le32(s, at + 20).value, s[at + 30..at + 36], ws);
    TagReads(s, at, RES_START_ELEMENT, 16, START_SIZE + 20 * count);
    StartFields(s, at, e);
  }

  lemma IsLe16(s: seq<byte>, at: nat)
    requires at + 2 <= |s|
    ensures Le16(s, at).Some?
  {
  }
}
