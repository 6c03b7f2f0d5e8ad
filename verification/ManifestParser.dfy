/** The manifest reader as loops over a cursor, an element stack, fact counters
    and a shrinking byte budget.  Each is proved to compute what the function of
    the same step says. */
module ManifestParser {
  import opened Common
  import M = Manifest
  import Utf8

  /** What is left of the bytes decoded strings may take. */
  class DecodedStringBudget {
    var remaining: nat

    constructor ()
      ensures remaining == M.DECODED_BYTES_LIMIT
    {
      remaining := M.DECODED_BYTES_LIMIT;
    }

    method Claim(bytes: nat) returns (ok: bool)
      modifies this
      ensures ok <==> bytes <= old(remaining)
      ensures remaining == if ok then old(remaining) - bytes else old(remaining)
    {
      ok := bytes <= remaining;
      if ok {
        remaining := remaining - bytes;
      }
    }

    method DecodeUtf8String(input: seq<byte>, offset: nat) returns (text: Option<M.Str>)
      modifies this
      ensures text.Some? == M.DecodeUtf8(input, offset, old(remaining)).Some?
      ensures text.Some? ==> M.DecodeUtf8(input, offset, old(remaining)) == Some(M.Decoded(text.value, remaining))
    {
      hide Utf8.Valid, M.UnitCount;
      var units := M.Length8(input, offset);
      if units.None? {
        return None;
      }
      var bytes := M.Length8(input, units.value.next);
      if bytes.None? || bytes.value.value > M.DECODED_BYTES_LIMIT {
        return None;
      }
      var end := bytes.value.next + bytes.value.value;
      if end >= |input| || input[end] != 0 {
        return None;
      }
      var value := input[bytes.value.next..end];
      if !Utf8.Valid(value) || M.UnitCount(value) != units.value.value {
        return None;
      }
      var ok := Claim(|value|);
      text := if ok then Some(value) else None;
    }

    method DecodeUtf16String(input: seq<byte>, offset: nat) returns (text: Option<M.Str>)
      modifies this
      ensures text.Some? == M.DecodeUtf16(input, offset, old(remaining)).Some?
      ensures text.Some? ==> M.DecodeUtf16(input, offset, old(remaining)) == Some(M.Decoded(text.value, remaining))
    {
      hide M.Utf16ToUtf8;
      var units := M.Length16(input, offset);
      if units.None? {
        return None;
      }
      var terminator := units.value.next + 2 * units.value.value;
      if terminator + 2 > |input| || M.Le16(input, terminator) != Some(0) {
        return None;
      }
      var value := Transcode(input, units.value.next, units.value.value, remaining);
      if value.None? {
        return None;
      }
      var ok := Claim(|value.value|);
      text := if ok then value else None;
    }
  }

  lemma NothingBefore<T>(all: Option<seq<T>>)
    ensures all == if all.Some? then Some([] + all.value) else None
  {
    if all.Some? {
      assert [] + all.value == all.value;
    }
  }

  /** Stops at a lone surrogate, or as soon as the text is longer than allowed. */
  method Transcode(input: seq<byte>, from: nat, units: nat, most: nat) returns (text: Option<M.Str>)
    requires from + 2 * units <= |input|
    ensures var all := M.Utf16ToUtf8(input, from, units);
            text == if all.Some? && |all.value| <= most then all else None
  {
    hide M.EncodeScalar;
    var value: M.Str, at: nat, left: nat := [], from, units;
    NothingBefore(M.Utf16ToUtf8(input, from, units));
    while left > 0
      invariant at + 2 * left == from + 2 * units && |value| <= most
      invariant var all, rest := M.Utf16ToUtf8(input, from, units), M.Utf16ToUtf8(input, at, left);
                all == if rest.Some? then Some(value + rest.value) else None
      decreases left
    {
      var u: nat := M.Le16(input, at).value;
      var piece: M.Str;
      var taken: nat := 1;
      if 0xDC00 <= u < 0xE000 {
        return None;
      }
      if 0xD800 <= u < 0xDC00 {
        if left < 2 {
          return None;
        }
        var v: nat := M.Le16(input, at + 2).value;
        if v < 0xDC00 || v >= 0xE000 {
          return None;
        }
        piece, taken := M.EncodeScalar(0x1_0000 + (u - 0xD800) * 0x400 + (v - 0xDC00)), 2;
      } else {
        piece := M.EncodeScalar(u);
      }
      ghost var rest := M.Utf16ToUtf8(input, at + 2 * taken, left - taken);
      if rest.Some? {
        Assoc(value, piece, rest.value);
      }
      if |value + piece| > most {
        return None;
      }
      value, at, left := value + piece, at + 2 * taken, left - taken;
    }
    assert value + [] == value;
    text := Some(value);
  }

  method ParseStringPool(input: seq<byte>) returns (strings: Option<seq<M.Str>>)
    ensures strings == M.ReadPool(input)
  {
    hide M.DecodeUtf8, M.DecodeUtf16, M.ReadPoolHeader;
    var header := M.ReadPoolHeader(input);
    if header.None? {
      return None;
    }
    var h := header.value;
    var found: seq<M.Str> := [];
    var budget := new DecodedStringBudget();
    NothingBefore(M.DecodeStrings(input, h, 0, M.DECODED_BYTES_LIMIT));
    for index := 0 to h.count
      invariant var all, rest := M.DecodeStrings(input, h, 0, M.DECODED_BYTES_LIMIT),
                                 M.DecodeStrings(input, h, index, budget.remaining);
                all == if rest.Some? then Some(found + rest.value) else None
    {
      var relative := M.Le32(input, M.POOL_HEADER + index * 4);
      if relative.None? {
        return None;
      }
      var offset := h.stringsStart + relative.value;
      var text: Option<M.Str>;
      if h.utf8 {
        text := budget.DecodeUtf8String(input, offset);
      } else {
        text := budget.DecodeUtf16String(input, offset);
      }
      if text.None? {
        return None;
      }
      ghost var rest := M.DecodeStrings(input, h, index + 1, budget.remaining);
      if rest.Some? {
        Assoc(found, [text.value], rest.value);
      }
      found := found + [text.value];
    }
    assert found + [] == found;
    strings := Some(found);
  }

  method ParseAttributes(input: seq<byte>, first: nat, count: nat, pool: seq<M.Str>, resources: seq<u32>)
    returns (attributes: Option<seq<M.Attribute>>)
    ensures attributes == M.ReadAttributes(input, first, count, pool, resources)
  {
    hide M.ReadAttribute;
    var found: seq<M.Attribute> := [];
    NothingBefore(M.ReadAttributes(input, first, count, pool, resources));
    for index := 0 to count
      invariant var all, rest := M.ReadAttributes(input, first, count, pool, resources),
                                 M.ReadAttributes(input, first + index * 20, count - index, pool, resources);
                all == if rest.Some? then Some(found + rest.value) else None
    {
      var attribute := M.ReadAttribute(input, first + index * 20, pool, resources);
      if attribute.None? {
        return None;
      }
      ghost var rest := M.ReadAttributes(input, first + (index + 1) * 20, count - (index + 1), pool, resources);
      if rest.Some? {
        Assoc(found, [attribute.value], rest.value);
      }
      found := found + [attribute.value];
    }
    assert found + [] == found;
    attributes := Some(found);
  }

  method ParseStartElement(input: seq<byte>, c: M.Chunk, pool: seq<M.Str>, resources: seq<u32>)
    returns (element: Option<M.Element>)
    requires c.end <= |input|
    ensures element == M.ReadElement(input, c.start, c.end, c.headerSize, pool, resources)
  {
    if c.headerSize != 16 || c.end < c.start + 36 {
      return None;
    }
    var nameIndex := M.Le32(input, c.start + 20).value;
    var name := M.Get(pool, nameIndex);
    var count := M.Le16(input, c.start + 28).value;
    if name.None? || M.Le16(input, c.start + 24) != Some(20) || M.Le16(input, c.start + 26) != Some(20)
       || count > M.ATTRIBUTE_LIMIT || c.start + 36 + count * 20 != c.end
    {
      return None;
    }
    var attributes := ParseAttributes(input, c.start + 36, count, pool, resources);
    if attributes.None? {
      return None;
    }
    element := Some(M.Element(nameIndex, name.value, attributes.value));
  }

  method ParseBinaryManifest(input: seq<byte>, expectedPackage: M.Str) returns (facts: Option<M.Facts>)
    ensures match M.ReadManifest(input, expectedPackage)
            case None => facts.None?
            case Some(st) => facts == Some(st.facts)
  {
    hide M.ReadPool, M.ReadResourceMap, M.ReadElement, M.Note;
    if !M.GoodPrefix(input) {
      return None;
    }
    var strings: Option<seq<M.Str>> := None;
    var resources: Option<seq<u32>> := None;
    var stack: seq<u32> := [];
    var found := M.Facts(None, 0, 0, false, false);
    var cursor: nat := 8;
    while cursor < |input|
      invariant 8 <= cursor <= |input|
      invariant M.TakeAll(input, M.NewState(), 8, expectedPackage)
             == M.TakeAll(input, M.State(strings, resources, stack, found), cursor, expectedPackage)
      decreases |input| - cursor
    {
      var chunk := M.ReadChunk(input, cursor);
      if chunk.None? {
        return None;
      }
      var c := chunk.value;
      if c.kind == M.RES_STRING_POOL && strings.None? && stack == [] {
        strings := ParseStringPool(input[c.start..c.end]);
        if strings.None? {
          return None;
        }
      } else if c.kind == M.RES_RESOURCE_MAP && strings.Some? && resources.None? && stack == [] {
        resources := M.ReadResourceMap(input[c.start..c.end], |strings.value|);
        if resources.None? {
          return None;
        }
      } else if c.kind == M.RES_START_NAMESPACE || c.kind == M.RES_END_NAMESPACE {
        if strings.None? || c.headerSize != 16 || c.end - c.start != 24 {
          return None;
        }
      } else if c.kind == M.RES_START_ELEMENT {
        if |stack| >= M.DEPTH_LIMIT || strings.None? || resources.None? {
          return None;
        }
        var element := ParseStartElement(input, c, strings.value, resources.value);
        if element.None? {
          return None;
        }
        var parent := M.Parent(strings.value, stack);
        if stack != [] && parent.None? {
          return None;
        }
        var noted := M.Note(found, element.value, parent, expectedPackage);
        if noted.None? {
          return None;
        }
        found := noted.value;
        stack := stack + [element.value.nameIndex];
      } else if c.kind == M.RES_END_ELEMENT {
        if c.headerSize != 16 || c.end - c.start != 24 || strings.None? {
          return None;
        }
        var name := M.Le32(input, c.start + 20).value;
        if M.Get(strings.value, name).None? || stack == [] || stack[|stack| - 1] != name {
          return None;
        }
        stack := stack[..|stack| - 1];
      } else {
        return None;
      }
      cursor := c.end;
    }
    if stack != [] || found.package.None? {
      return None;
    }
    facts := Some(found);
  }

  /** The checks on the facts of a manifest that has been taken out of its archive. */
  method ValidateManifest(input: seq<byte>, expectedPackage: M.Str) returns (ok: bool)
    ensures ok <==> M.Validate(input, expectedPackage)
  {
    var facts := ParseBinaryManifest(input, expectedPackage);
    if facts.None? {
      return false;
    }
    ok := && facts.value.package == Some(expectedPackage) && facts.value.applications == 1
          && facts.value.activities == 1 && facts.value.exported && facts.value.enabled;
  }
}
