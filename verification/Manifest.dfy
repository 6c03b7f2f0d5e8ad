/** The binary Android manifest: chunks, the string pool, elements and the
    facts gathered from them.  Strings are UTF-8 bytes. */
module Manifest {
  import opened Common
  import Utf8

  const MANIFEST_LIMIT := 2 * 1024 * 1024
  const POOL_STRINGS_LIMIT := 65_536
  const DECODED_BYTES_LIMIT := 2 * 1024 * 1024
  const DEPTH_LIMIT := 256
  const ATTRIBUTE_LIMIT := 1024
  const NO_INDEX: u32 := 0xFFFF_FFFF

  const RES_XML: u16 := 0x0003
  const RES_STRING_POOL: u16 := 0x0001
  const RES_START_NAMESPACE: u16 := 0x0100
  const RES_END_NAMESPACE: u16 := 0x0101
  const RES_START_ELEMENT: u16 := 0x0102
  const RES_END_ELEMENT: u16 := 0x0103
  const RES_RESOURCE_MAP: u16 := 0x0180
  const POOL_UTF8: u32 := 0x0000_0100
  const TYPE_STRING: byte := 0x03
  const TYPE_BOOLEAN: byte := 0x12
  const ATTR_NAME: u32 := 0x0101_0003
  const ATTR_ENABLED: u32 := 0x0101_000E
  const ATTR_EXPORTED: u32 := 0x0101_0010

  type Str = seq<byte>

  /** ASCII text as bytes. */
  function Ascii(s: string): Str
    requires forall i :: 0 <= i < |s| ==> s[i] < '\U{80}'
  {
    seq(|s|, i requires 0 <= i < |s| => s[i] as int)
  }

  const MANIFEST: Str := Ascii("manifest")
  const APPLICATION: Str := Ascii("application")
  const ACTIVITY: Str := Ascii("activity")
  const PACKAGE: Str := Ascii("package")
  const NAME: Str := Ascii("name")
  const EXPORTED: Str := Ascii("exported")
  const ENABLED: Str := Ascii("enabled")
  const TRUE: Str := Ascii("true")
  const FALSE: Str := Ascii("false")
  const ANDROID_NS: Str := Ascii("http://schemas.android.com/apk/res/android")
  const BOOTSTRAP_CLASS: Str := Ascii("AppPilotKitBootstrapActivity")
  const DOT: byte := 0x2E

  // ---- Little-endian integers ------------------------------------------

  function Le16(s: seq<byte>, at: nat): Option<u16> {
    if at + 2 <= |s| then Some(s[at] as int + s[at + 1] as int * 0x100) else None
  }

  function Le32(s: seq<byte>, at: nat): Option<u32> {
    if at + 4 <= |s| then
      Some(s[at] as int + s[at + 1] as int * 0x100 + s[at + 2] as int * 0x1_0000 + s[at + 3] as int * 0x100_0000)
    else None
  }

  // ---- The string pool -------------------------------------------------

  datatype Length = Length(value: nat, next: nat)

  function Length8(s: seq<byte>, at: nat): Option<Length> {
    if at >= |s| then None
    else if s[at] < 0x80 then Some(Length(s[at], at + 1))
    else if at + 1 >= |s| then None
    else Some(Length((s[at] as int - 0x80) * 0x100 + s[at + 1] as int, at + 2))
  }

  function Length16(s: seq<byte>, at: nat): Option<Length> {
    match Le16(s, at)
    case None => None
    case Some(first) =>
      if first < 0x8000 then Some(Length(first, at + 2))
      else
        match Le16(s, at + 2)
        case None => None
        case Some(second) => Some(Length((first - 0x8000) * 0x1_0000 + second, at + 4))
  }

  /** UTF-16 code units of a well-formed UTF-8 string. */
  function UnitCount(s: Str): nat
    decreases |s|
  {
    var n := Utf8.ScalarLength(s);
    if n == 0 || n > |s| then 0 else (if n == 4 then 2 else 1) + UnitCount(s[n..])
  }

  datatype Decoded = Decoded(text: Str, remaining: nat)

  /** Takes the decoded bytes of one more string from what is left of the budget. */
  function Claim(text: Str, remaining: nat): Option<Decoded> {
    if |text| <= remaining then Some(Decoded(text, remaining - |text|)) else None
  }

  function DecodeUtf8(s: seq<byte>, at: nat, remaining: nat): Option<Decoded> {
    match Length8(s, at)
    case None => None
    case Some(units) =>
      match Length8(s, units.next)
      case None => None
      case Some(bytes) =>
        var end := bytes.next + bytes.value;
        if bytes.value > DECODED_BYTES_LIMIT || end >= |s| || s[end] != 0 then None
        else
          var text := s[bytes.next..end];
          if !Utf8.Valid(text) || UnitCount(text) != units.value then None else Claim(text, remaining)
  }

  function EncodeScalar(n: nat): Str
    requires n < 0x11_0000
  {
    if n < 0x80 then [n]
    else if n < 0x800 then [0xC0 + n / 0x40, 0x80 + n % 0x40]
    else if n < 0x1_0000 then [0xE0 + n / 0x1000, 0x80 + n / 0x40 % 0x40, 0x80 + n % 0x40]
    else [0xF0 + n / 0x4_0000, 0x80 + n / 0x1000 % 0x40, 0x80 + n / 0x40 % 0x40, 0x80 + n % 0x40]
  }

  /** `units` code units from `at` on as UTF-8, unless a surrogate stands alone. */
  function Utf16ToUtf8(s: seq<byte>, at: nat, units: nat): Option<Str>
    requires at + 2 * units <= |s|
    decreases units
  {
    if units == 0 then Some([])
    else
      var u := Le16(s, at).value;
      if 0xDC00 <= u < 0xE000 then None
      else if 0xD800 <= u < 0xDC00 then
        if units < 2 then None
        else
          var v := Le16(s, at + 2).value;
          if !(0xDC00 <= v < 0xE000) then None
          else
            match Utf16ToUtf8(s, at + 4, units - 2)
            case None => None
            case Some(more) => Some(EncodeScalar(0x1_0000 + (u - 0xD800) * 0x400 + (v - 0xDC00)) + more)
      else
        match Utf16ToUtf8(s, at + 2, units - 1)
        case None => None
        case Some(more) => Some(EncodeScalar(u) + more)
  }

  function DecodeUtf16(s: seq<byte>, at: nat, remaining: nat): Option<Decoded> {
    match Length16(s, at)
    case None => None
    case Some(units) =>
      var end := units.next + 2 * units.value;
      if end + 2 > |s| || Le16(s, end) != Some(0) then None
      else
        match Utf16ToUtf8(s, units.next, units.value)
        case None => None
        case Some(text) => Claim(text, remaining)
  }

  datatype PoolHeader = PoolHeader(count: nat, utf8: bool, stringsStart: nat)

  const POOL_HEADER := 28

  function ReadPoolHeader(s: seq<byte>): Option<PoolHeader> {
    if |s| < POOL_HEADER || |s| > MANIFEST_LIMIT || Le16(s, 0) != Some(RES_STRING_POOL) then None
    else
      var count, styles, flags := Le32(s, 8).value, Le32(s, 12).value, Le32(s, 16).value;
      var stringsStart, stylesStart := Le32(s, 20).value, Le32(s, 24).value;
      if || Le16(s, 2) != Some(POOL_HEADER) || count > POOL_STRINGS_LIMIT || styles != 0 || stylesStart != 0
         || (flags != 0 && flags != POOL_UTF8)
         || stringsStart < POOL_HEADER + count * 4 || stringsStart > |s|
      then None
      else Some(PoolHeader(count, flags == POOL_UTF8, stringsStart))
  }

  function DecodeString(s: seq<byte>, h: PoolHeader, index: nat, remaining: nat): Option<Decoded> {
    match Le32(s, POOL_HEADER + index * 4)
    case None => None
    case Some(relative) =>
      if h.utf8 then DecodeUtf8(s, h.stringsStart + relative, remaining)
      else DecodeUtf16(s, h.stringsStart + relative, remaining)
  }

  /** The strings from `index` on. */
  function DecodeStrings(s: seq<byte>, h: PoolHeader, index: nat, remaining: nat): Option<seq<Str>>
    requires index <= h.count
    decreases h.count - index
  {
    if index == h.count then Some([])
    else
      match DecodeString(s, h, index, remaining)
      case None => None
      case Some(d) =>
        match DecodeStrings(s, h, index + 1, d.remaining)
        case None => None
        case Some(more) => Some([d.text] + more)
  }

  function ReadPool(s: seq<byte>): Option<seq<Str>> {
    match ReadPoolHeader(s)
    case None => None
    case Some(h) => DecodeStrings(s, h, 0, DECODED_BYTES_LIMIT)
  }

  function Bytes(strings: seq<Str>): nat {
    if strings == [] then 0 else |strings[0]| + Bytes(strings[1..])
  }

  /** Accepted strings never exceed the decoded budget together, nor the count. */
  lemma {:induction false} StringsWithinBudget(s: seq<byte>, h: PoolHeader, index: nat, remaining: nat)
    requires index <= h.count && DecodeStrings(s, h, index, remaining).Some?
    ensures Bytes(DecodeStrings(s, h, index, remaining).value) <= remaining
    ensures |DecodeStrings(s, h, index, remaining).value| == h.count - index
    decreases h.count - index
  {
    hide Utf8.Valid, UnitCount, Utf16ToUtf8, Length8, Length16;
    if index < h.count {
      var d := DecodeString(s, h, index, remaining).value;
      assert |d.text| + d.remaining == remaining;
      StringsWithinBudget(s, h, index + 1, d.remaining);
      var more := DecodeStrings(s, h, index + 1, d.remaining).value;
      assert ([d.text] + more)[1..] == more;
    }
  }

  lemma PoolWithinBudget(s: seq<byte>)
    requires ReadPool(s).Some?
    ensures Bytes(ReadPool(s).value) <= DECODED_BYTES_LIMIT && |ReadPool(s).value| <= POOL_STRINGS_LIMIT
  {
    hide DecodeStrings;
    StringsWithinBudget(s, ReadPoolHeader(s).value, 0, DECODED_BYTES_LIMIT);
  }

  // ---- The resource map ------------------------------------------------

  function ReadResourceMap(s: seq<byte>, stringCount: nat): Option<seq<u32>> {
    if |s| < 8 || Le16(s, 0) != Some(RES_RESOURCE_MAP) || Le16(s, 2) != Some(8) || Le32(s, 4) != Some(|s|)
       || (|s| - 8) % 4 != 0
    then None
    else
      var count := (|s| - 8) / 4;
      if count == 0 || count > stringCount then None
      else Some(seq(count, i requires 0 <= i < count => Le32(s, 8 + i * 4).value))
  }

  // ---- Elements --------------------------------------------------------

  function Get(pool: seq<Str>, index: u32): Option<Str> {
    if index < |pool| then Some(pool[index]) else None
  }

  datatype Typed = Text(text: Str) | Flag(value: bool) | OtherType

  datatype Attribute = Attribute(
    namespace: Option<Str>, name: Str, resourceId: Option<u32>, raw: Option<Str>, typed: Typed)

  datatype Element = Element(nameIndex: u32, name: Str, attributes: seq<Attribute>)

  /** A reference that may be absent; None when it points nowhere. */
  function Reference(pool: seq<Str>, index: u32): Option<Option<Str>> {
    if index == NO_INDEX then Some(None)
    else
      match Get(pool, index)
      case None => None
      case Some(text) => Some(Some(text))
  }

  function ReadTyped(pool: seq<Str>, dataType: byte, data: u32): Option<Typed> {
    if dataType == TYPE_STRING then
      (match Get(pool, data) case None => None case Some(text) => Some(Text(text)))
    else if dataType == TYPE_BOOLEAN then Some(Flag(data != 0))
    else if dataType <= 0x08 || 0x10 <= dataType <= 0x1F then Some(OtherType)
    else None
  }

  function ResourceId(resources: seq<u32>, index: u32): Option<u32> {
    if index < |resources| && resources[index] != 0 then Some(resources[index]) else None
  }

  function ReadAttribute(s: seq<byte>, at: nat, pool: seq<Str>, resources: seq<u32>): Option<Attribute> {
    if at + 20 > |s| then None
    else
      var nameIndex := Le32(s, at + 4).value;
      var namespace := Reference(pool, Le32(s, at).value);
      var name := Get(pool, nameIndex);
      var raw := Reference(pool, Le32(s, at + 8).value);
      var typed := ReadTyped(pool, s[at + 15], Le32(s, at + 16).value);
      if namespace.None? || name.None? || Le16(s, at + 12) != Some(8) || s[at + 14] != 0 || raw.None? || typed.None?
      then None
      else Some(Attribute(namespace.value, name.value, ResourceId(resources, nameIndex), raw.value, typed.value))
  }

  function ReadAttributes(s: seq<byte>, at: nat, count: nat, pool: seq<Str>, resources: seq<u32>):
      Option<seq<Attribute>>
    decreases count
  {
    if count == 0 then Some([])
    else
      match ReadAttribute(s, at, pool, resources)
      case None => None
      case Some(first) =>
        match ReadAttributes(s, at + 20, count - 1, pool, resources)
        case None => None
        case Some(more) => Some([first] + more)
  }

  function ReadElement(s: seq<byte>, cursor: nat, end: nat, headerSize: nat, pool: seq<Str>, resources: seq<u32>):
      Option<Element>
    requires end <= |s|
  {
    if headerSize != 16 || end < cursor + 36 then None
    else
      var nameIndex := Le32(s, cursor + 20).value;
      var count := Le16(s, cursor + 28).value;
      match Get(pool, nameIndex)
      case None => None
      case Some(name) =>
        if Le16(s, cursor + 24) != Some(20) || Le16(s, cursor + 26) != Some(20) || count > ATTRIBUTE_LIMIT
           || cursor + 36 + count * 20 != end
        then None
        else
          match ReadAttributes(s, cursor + 36, count, pool, resources)
          case None => None
          case Some(attributes) => Some(Element(nameIndex, name, attributes))
  }

  predicate Matches(a: Attribute, namespace: Option<Str>, name: Str, id: Option<u32>) {
    a.namespace == namespace && a.name == name && (id.Some? ==> a.resourceId == id)
  }

  /** Claims the name or the identifier without being the attribute meant. */
  predicate Impostor(a: Attribute, namespace: Option<Str>, name: Str, id: Option<u32>) {
    id.Some? && (a.name == name || a.resourceId == id) && !Matches(a, namespace, name, id)
  }

  function Matching(attributes: seq<Attribute>, namespace: Option<Str>, name: Str, id: Option<u32>): seq<Attribute> {
    if attributes == [] then []
    else
      (if Matches(attributes[0], namespace, name, id) then [attributes[0]] else [])
      + Matching(attributes[1..], namespace, name, id)
  }

  /** The one attribute meant, if any; None when it is not unmistakable. */
  function Identity(e: Element, namespace: Option<Str>, name: Str, id: Option<u32>): Option<Option<Attribute>> {
    var found := Matching(e.attributes, namespace, name, id);
    if (exists a :: a in e.attributes && Impostor(a, namespace, name, id)) || |found| > 1 then None
    else Some(if found == [] then None else Some(found[0]))
  }

  function StringAttribute(e: Element, namespace: Option<Str>, name: Str, id: Option<u32>): Option<Option<Str>> {
    match Identity(e, namespace, name, id)
    case None => None
    case Some(None) => Some(None)
    case Some(Some(a)) =>
      if !a.typed.Text? || (a.raw.Some? && a.raw.value != a.typed.text) then None else Some(Some(a.typed.text))
  }

  function BooleanAttribute(e: Element, namespace: Option<Str>, name: Str, id: u32): Option<Option<bool>> {
    match Identity(e, namespace, name, Some(id))
    case None => None
    case Some(None) => Some(None)
    case Some(Some(a)) =>
      if !a.typed.Flag? || (a.raw.Some? && a.raw.value != if a.typed.value then TRUE else FALSE) then None
      else Some(Some(a.typed.value))
  }

  predicate Graphic(b: byte) {
    0x21 <= b <= 0x7E
  }

  function NormalizeActivity(package: Str, value: Str): Option<Str> {
    if value == [] || exists b :: b in value && !Graphic(b) then None
    else if value[0] == DOT then Some(package + value)
    else if DOT in value then Some(value)
    else Some(package + [DOT] + value)
  }

  // ---- The document ----------------------------------------------------

  datatype Facts = Facts(package: Option<Str>, applications: nat, activities: nat, exported: bool, enabled: bool)

  datatype State = State(strings: Option<seq<Str>>, resources: Option<seq<u32>>, stack: seq<u32>, facts: Facts)

  datatype Chunk = Chunk(kind: u16, headerSize: nat, start: nat, end: nat)

  /** A chunk header with sizes that make sense. */
  function ReadChunk(s: seq<byte>, cursor: nat): (c: Option<Chunk>)
    ensures c.Some? ==> c.value.start == cursor && cursor + 8 <= c.value.end <= |s|
  {
    if cursor + 8 > |s| then None
    else
      var headerSize, size := Le16(s, cursor + 2).value, Le32(s, cursor + 4).value;
      if headerSize < 8 || size < headerSize || cursor + size > |s| then None
      else Some(Chunk(Le16(s, cursor).value, headerSize, cursor, cursor + size))
  }

  function Parent(pool: seq<Str>, stack: seq<u32>): Option<Str> {
    if stack == [] then None else Get(pool, stack[|stack| - 1])
  }

  function ExpectedActivity(package: Str): Str {
    package + [DOT] + BOOTSTRAP_CLASS
  }

  /** What an element adds to the facts; None rejects the document. */
  function Note(f: Facts, e: Element, parent: Option<Str>, expected: Str): Option<Facts> {
    if e.name == MANIFEST && parent.None? && f.package.None? then
      match StringAttribute(e, None, PACKAGE, None)
      case Some(Some(value)) => if value == expected then Some(f.(package := Some(value))) else None
      case _ => None
    else if e.name == APPLICATION && parent == Some(MANIFEST) then Some(f.(applications := f.applications + 1))
    else if e.name == ACTIVITY && parent == Some(APPLICATION) then NoteActivity(f, e, expected)
    else if parent.None? then None
    else Some(f)
  }

  function NoteActivity(f: Facts, e: Element, expected: Str): Option<Facts> {
    match StringAttribute(e, Some(ANDROID_NS), NAME, Some(ATTR_NAME))
    case None => None
    case Some(None) => Some(f)
    case Some(Some(name)) =>
      match NormalizeActivity(expected, name)
      case None => None
      case Some(full) =>
        if full != ExpectedActivity(expected) then Some(f)
        else if f.activities != 0 then None
        else
          match BooleanAttribute(e, Some(ANDROID_NS), EXPORTED, ATTR_EXPORTED)
          case Some(Some(exported)) =>
            (match BooleanAttribute(e, Some(ANDROID_NS), ENABLED, ATTR_ENABLED)
             case None => None
             case Some(enabled) =>
               Some(f.(activities := 1, exported := exported, enabled := enabled.None? || enabled.value)))
          case _ => None
  }

  /** One chunk. */
  function Take(s: seq<byte>, st: State, c: Chunk, expected: Str): Option<State>
    requires c.start + 8 <= c.end <= |s|
  {
    if c.kind == RES_STRING_POOL && st.strings.None? && st.stack == [] then
      match ReadPool(s[c.start..c.end])
      case None => None
      case Some(pool) => Some(st.(strings := Some(pool)))
    else if c.kind == RES_RESOURCE_MAP && st.strings.Some? && st.resources.None? && st.stack == [] then
      match ReadResourceMap(s[c.start..c.end], |st.strings.value|)
      case None => None
      case Some(resources) => Some(st.(resources := Some(resources)))
    else if c.kind == RES_START_NAMESPACE || c.kind == RES_END_NAMESPACE then
      if st.strings.None? || c.headerSize != 16 || c.end - c.start != 24 then None else Some(st)
    else if c.kind == RES_START_ELEMENT then Open(s, st, c, expected)
    else if c.kind == RES_END_ELEMENT then Close(s, st, c)
    else None
  }

  function Open(s: seq<byte>, st: State, c: Chunk, expected: Str): Option<State>
    requires c.start + 8 <= c.end <= |s|
  {
    if |st.stack| >= DEPTH_LIMIT || st.strings.None? || st.resources.None? then None
    else
      var parent := Parent(st.strings.value, st.stack);
      match ReadElement(s, c.start, c.end, c.headerSize, st.strings.value, st.resources.value)
      case None => None
      case Some(e) =>
        if st.stack != [] && parent.None? then None
        else
          match Note(st.facts, e, parent, expected)
          case None => None
          case Some(facts) => Some(st.(facts := facts, stack := st.stack + [e.nameIndex]))
  }

  function Close(s: seq<byte>, st: State, c: Chunk): Option<State>
    requires c.start + 8 <= c.end <= |s|
  {
    if c.headerSize != 16 || c.end - c.start != 24 || st.strings.None? then None
    else
      var name := Le32(s, c.start + 20).value;
      if Get(st.strings.value, name).None? || st.stack == [] || st.stack[|st.stack| - 1] != name then None
      else Some(st.(stack := st.stack[..|st.stack| - 1]))
  }

  /** All chunks from the cursor on. */
  function TakeAll(s: seq<byte>, st: State, cursor: nat, expected: Str): Option<State>
    requires cursor <= |s|
    decreases |s| - cursor
  {
    if cursor == |s| then Some(st)
    else
      match ReadChunk(s, cursor)
      case None => None
      case Some(c) =>
        match Take(s, st, c, expected)
        case None => None
        case Some(next) => TakeAll(s, next, c.end, expected)
  }

  function NewState(): State {
    State(None, None, [], Facts(None, 0, 0, false, false))
  }

  predicate GoodPrefix(s: seq<byte>) {
    |s| >= 8 && Le16(s, 0) == Some(RES_XML) && Le16(s, 2) == Some(8) && Le32(s, 4) == Some(|s|)
  }

  function ReadManifest(s: seq<byte>, expected: Str): Option<State> {
    if !GoodPrefix(s) then None
    else
      match TakeAll(s, NewState(), 8, expected)
      case None => None
      case Some(st) => if st.stack == [] && st.facts.package.Some? then Some(st) else None
  }

  /** What an application package has to be: one application and one bootstrap
      activity, exported and enabled. */
  predicate Validate(s: seq<byte>, expected: Str) {
    match ReadManifest(s, expected)
    case None => false
    case Some(st) =>
      && st.facts.package == Some(expected) && st.facts.applications == 1 && st.facts.activities == 1
      && st.facts.exported && st.facts.enabled
  }
}
