/** The subset of CBOR (RFC 8949) the transport payloads use: unsigned
    integers, byte strings, text strings and map heads.  The encoder always
    writes the shortest head; the decoder, like the library it models, also
    reads longer ones, so canonical form has to be checked by re-encoding. */
module Cbor {
  import opened Common
  import opened Terms
  import Utf8

  /** An initial byte and its argument in the shortest form (section 4.2.1). */
  function Head(major: nat, argument: u64): seq<byte>
    requires major < 8
  {
    var m := major * 32;
    if argument < 24 then [m + argument]
    else if argument < 0x100 then [m + 24, argument]
    else if argument < 0x1_0000 then [m + 25] + Be16(argument)
    else if argument < 0x1_0000_0000 then [m + 26] + Be32(argument)
    else [m + 27] + Be64(argument)
  }

  const UINT := 0
  const BYTES := 2
  const TEXT := 3
  const MAP := 5

  /** Reads a definite-length head of the wanted major type (section 3). */
  function ReadHead(major: nat, s: seq<byte>): (r: Result<(u64, seq<byte>), CloseReason>)
    ensures r.Err? ==> r.error == Malformed
  {
    if s == [] || s[0] / 32 != major then Err(Malformed)
    else
      var info := s[0] % 32;
      if info < 24 then Ok((info, s[1..]))
      else if info == 24 && |s| >= 2 then Ok((s[1], s[2..]))
      else if info == 25 && |s| >= 3 then Ok((FromBe16(s[1..]), s[3..]))
      else if info == 26 && |s| >= 5 then Ok((FromBe32(s[1..]), s[5..]))
      else if info == 27 && |s| >= 9 then Ok((FromBe64(s[1..]), s[9..]))
      else Err(Malformed)
  }

  lemma HeadReads(major: nat, argument: u64, rest: seq<byte>)
    requires major < 8
    ensures ReadHead(major, Head(major, argument) + rest) == Ok((argument, rest))
  {
    hide Be16, Be32, Be64;
    var s := Head(major, argument) + rest;
    if argument < 0x100 {
    } else if argument < 0x1_0000 {
      Be16Inverse(argument, rest);
      assert s[1..] == Be16(argument) + rest;
    } else if argument < 0x1_0000_0000 {
      Be32Inverse(argument, rest);
      assert s[1..] == Be32(argument) + rest;
    } else {
      Be64Inverse(argument, rest);
      assert s[1..] == Be64(argument) + rest;
    }
  }

  type Blob = b: seq<byte> | |b| <= U64_MAX
  type Utf8Text = t: seq<byte> | |t| <= U64_MAX && Utf8.Valid(t)

  datatype Item =
    | UInt(n: u64)
    | Bytes(bytes: Blob)
    | Text(text: Utf8Text)
    | MapOf(pairs: u64)

  function EncodeItem(item: Item): seq<byte> {
    match item
    case UInt(n) => Head(UINT, n)
    case Bytes(b) => Head(BYTES, |b|) + b
    case Text(t) => Head(TEXT, |t|) + t
    case MapOf(pairs) => Head(MAP, pairs)
  }

  /** A payload: its items one after the other. */
  function Encode(items: seq<Item>): seq<byte> {
    if items == [] then [] else EncodeItem(items[0]) + Encode(items[1..])
  }

  // The readers advance over the front of the remaining input.

  function ReadU64(s: seq<byte>): (r: Result<(u64, seq<byte>), CloseReason>)
    ensures r.Err? ==> r.error == Malformed
  {
    ReadHead(UINT, s)
  }

  function ReadU8(s: seq<byte>): (r: Result<(byte, seq<byte>), CloseReason>)
    ensures r.Err? ==> r.error == Malformed
  {
    var (n, rest) :- ReadHead(UINT, s);
    if n < 0x100 then Ok((n, rest)) else Err(Malformed)
  }

  function ReadU16(s: seq<byte>): (r: Result<(u16, seq<byte>), CloseReason>)
    ensures r.Err? ==> r.error == Malformed
  {
    var (n, rest) :- ReadHead(UINT, s);
    if n < 0x1_0000 then Ok((n, rest)) else Err(Malformed)
  }

  function ReadBytes(s: seq<byte>): (r: Result<(seq<byte>, seq<byte>), CloseReason>)
    ensures r.Err? ==> r.error == Malformed
  {
    var (n, rest) :- ReadHead(BYTES, s);
    if n <= |rest| then Ok((rest[..n], rest[n..])) else Err(Malformed)
  }

  function ReadText(s: seq<byte>): (r: Result<(seq<byte>, seq<byte>), CloseReason>)
    ensures r.Err? ==> r.error == Malformed
  {
    var (n, rest) :- ReadHead(TEXT, s);
    if n <= |rest| && Utf8.Valid(rest[..n]) then Ok((rest[..n], rest[n..])) else Err(Malformed)
  }

  /** A map head with exactly the wanted number of pairs. */
  function ExpectMap(s: seq<byte>, pairs: u64): (r: Result<seq<byte>, CloseReason>)
    ensures r.Err? ==> r.error == Malformed
  {
    var (n, rest) :- ReadHead(MAP, s);
    if n == pairs then Ok(rest) else Err(Malformed)
  }

  function ExpectU8(s: seq<byte>, value: byte): (r: Result<seq<byte>, CloseReason>)
    ensures r.Err? ==> r.error == Malformed
  {
    var (n, rest) :- ReadU8(s);
    if n == value then Ok(rest) else Err(Malformed)
  }

  function ReadFixed(s: seq<byte>, length: nat): (r: Result<(seq<byte>, seq<byte>), CloseReason>)
    ensures r.Err? ==> r.error == Malformed
  {
    var (b, rest) :- ReadBytes(s);
    if |b| == length then Ok((b, rest)) else Err(Malformed)
  }

  /** What is left of a payload after its first `k` items. */
  function After(items: seq<Item>, k: nat): seq<byte>
    requires k <= |items|
  {
    Encode(items[k..])
  }

  lemma AfterEnds(items: seq<Item>)
    ensures After(items, 0) == Encode(items)
    ensures After(items, |items|) == []
  {
    assert items[0..] == items;
  }

  /** Each reader undoes the encoder on the item at hand. */
  lemma ReadsItem(items: seq<Item>, k: nat)
    requires k < |items|
    ensures var s, rest := After(items, k), After(items, k + 1);
            match items[k]
            case UInt(n) =>
              && ReadU64(s) == Ok((n, rest))
              && (n < 0x100 ==> ReadU8(s) == Ok((n, rest)))
              && (n < 0x1_0000 ==> ReadU16(s) == Ok((n, rest)))
            case Bytes(b) => ReadBytes(s) == Ok((b, rest))
            case Text(t) => ReadText(s) == Ok((t, rest))
            case MapOf(pairs) => ExpectMap(s, pairs) == Ok(rest)
  {
    var rest := After(items, k + 1);
    assert items[k..][1..] == items[k + 1..];
    match items[k] {
      case UInt(n) => HeadReads(UINT, n, rest);
      case Bytes(b) =>
        HeadReads(BYTES, |b|, b + rest);
        Assoc(Head(BYTES, |b|), b, rest);
        assert (b + rest)[..|b|] == b && (b + rest)[|b|..] == rest;
      case Text(t) =>
        HeadReads(TEXT, |t|, t + rest);
        Assoc(Head(TEXT, |t|), t, rest);
        assert (t + rest)[..|t|] == t && (t + rest)[|t|..] == rest;
      case MapOf(pairs) => HeadReads(MAP, pairs, rest);
    }
  }
}
