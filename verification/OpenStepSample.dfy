/** A small property list, byte by byte. */
module OpenStepSample {
  import opened Common
  import opened OpenStep
  import Utf8

  /** Neither whitespace nor the start of a comment. */
  predicate Solid(b: byte) {
    b > 0x20 && b != 0x2F
  }

  lemma SolidStays(b: byte, rest: seq<byte>)
    requires Solid(b)
    ensures SkipTrivia([b] + rest) == Some([b] + rest)
  {
  }

  /** A bare name of one letter. */
  lemma LetterReads(b: byte, rest: seq<byte>, capture: bool)
    requires 0x61 <= b <= 0x7A && rest != [] && !BareByte(rest[0])
    ensures ReadString([b] + rest, capture) == Some(Read(if capture then [b] else [], rest))
  {
    var s := [b] + rest;
    SolidStays(b, rest);
    assert s[1..] == rest && BareLength(rest) == 0 && BareLength(s) == 1;
    assert s[..1] == [b] && [b][1..] == [];
    assert Utf8.ScalarLength([b]) == 1 && Utf8.Valid([]);
    assert Utf8.Valid(s[..1]);
    assert ReadBare(s, capture) == Some(Read(if capture then [b] else [], rest));
  }

  /** `<0F>` as a value. */
  lemma DataReads(depth: nat, nodes: nat, rest: seq<byte>)
    requires depth <= 128 && nodes < 65_536
    ensures ReadValue([0x3C, 0x30, 0x46, 0x3E] + rest, depth, nodes) == Some(Passed(rest, nodes + 1))
  {
    var s := [0x3C, 0x30, 0x46, 0x3E] + rest;
    SolidStays(0x3C, [0x30, 0x46, 0x3E] + rest);
    assert s == [0x3C] + ([0x30, 0x46, 0x3E] + rest);
    assert s[1..] == [0x30, 0x46, 0x3E] + rest && s[1..][1..] == [0x46, 0x3E] + rest;
    assert s[1..][1..][1..] == [0x3E] + rest && s[1..][1..][1..][1..] == rest;
    assert ReadData([0x3E] + rest, true) == Some(rest);
    assert ReadData([0x46, 0x3E] + rest, false) == Some(rest);
    assert ReadData([0x30, 0x46, 0x3E] + rest, true) == Some(rest);
  }

  /** A one-letter value. */
  lemma LetterIsValue(b: byte, rest: seq<byte>, depth: nat, nodes: nat)
    requires 0x61 <= b <= 0x7A && rest != [] && !BareByte(rest[0]) && depth <= 128 && nodes < 65_536
    ensures ReadValue([b] + rest, depth, nodes) == Some(Passed(rest, nodes + 1))
  {
    hide ReadString;
    SolidStays(b, rest);
    LetterReads(b, rest, false);
  }

  lemma LastElement(s: seq<byte>, nodes: nat, rest: seq<byte>, more: nat)
    requires ReadValue(s, 2, nodes) == Some(Passed([0x29] + rest, more))
    ensures ReadElements(s, 1, nodes) == Some(Passed(rest, more))
  {
    hide ReadValue;
    SolidStays(0x29, rest);
    assert ([0x29] + rest)[1..] == rest;
  }

  lemma NextElement(s: seq<byte>, nodes: nat, rest: seq<byte>, more: nat)
    requires ReadValue(s, 2, nodes) == Some(Passed([0x2C] + rest, more))
    ensures ReadElements(s, 1, nodes) == ReadArray(rest, 1, more)
  {
    hide ReadValue, ReadArray;
    SolidStays(0x2C, rest);
    assert ([0x2C] + rest)[1..] == rest;
  }

  lemma AnotherElement(b: byte, rest: seq<byte>, nodes: nat)
    requires Solid(b) && b != 0x29
    ensures ReadArray([b] + rest, 1, nodes) == ReadElements([b] + rest, 1, nodes)
  {
    hide ReadElements;
    SolidStays(b, rest);
  }

  /** `(d,<0F>)` as a value: three nodes. */
  lemma ArrayReads(rest: seq<byte>)
    ensures ReadValue([0x28, 0x64, 0x2C, 0x3C, 0x30, 0x46, 0x3E, 0x29] + rest, 1, 2) == Some(Passed(rest, 5))
  {
    hide ReadValue, ReadArray, ReadElements;
    var close := [0x29] + rest;
    var data := [0x3C, 0x30, 0x46, 0x3E] + close;
    var comma := [0x2C] + data;
    var letter := [0x64] + comma;
    assert [0x28, 0x64, 0x2C, 0x3C, 0x30, 0x46, 0x3E, 0x29] + rest == [0x28] + letter;
    assert data == [0x3C] + ([0x30, 0x46, 0x3E] + close);
    LetterIsValue(0x64, comma, 2, 3);
    DataReads(2, 4, close);
    LastElement(data, 4, rest, 5);
    AnotherElement(0x3C, [0x30, 0x46, 0x3E] + close, 4);
    NextElement(letter, 3, data, 4);
    AnotherElement(0x64, comma, 3);
    IsArray(letter, rest);
  }

  lemma IsArray(letter: seq<byte>, rest: seq<byte>)
    requires ReadArray(letter, 1, 3) == Some(Passed(rest, 5))
    ensures ReadValue([0x28] + letter, 1, 2) == Some(Passed(rest, 5))
  {
    hide ReadArray;
    SolidStays(0x28, letter);
    assert ([0x28] + letter)[1..] == letter;
  }

  /** `"\n"` as a key. */
  lemma NewlineReads(rest: seq<byte>)
    ensures ReadString([0x22, 0x5C, 0x6E, 0x22] + rest, true) == Some(Read([0x0A], rest))
  {
    var s := [0x22, 0x5C, 0x6E, 0x22] + rest;
    assert s == [0x22] + ([0x5C, 0x6E, 0x22] + rest);
    SolidStays(0x22, [0x5C, 0x6E, 0x22] + rest);
    assert s[1..] == [0x5C, 0x6E, 0x22] + rest && s[1..][1..] == [0x6E, 0x22] + rest;
    assert s[1..][1..][1..] == [0x22] + rest && s[1..][1..][1..][1..] == rest;
    assert ReadEscape(s[1..][1..]) == Some(Read([0x0A], [0x22] + rest));
    assert ReadQuoted([0x22] + rest, [], [0x0A], true) == Some(Read([0x0A] + [], rest));
    assert [] + [] + [0x0A] == [0x0A] && [0x0A] + [] == [0x0A];
  }

  /** `"\n"=b;` and `c=(d,<0F>);` */
  lemma FirstEntry(rest: seq<byte>)
    ensures ReadBinding([0x3D, 0x62, 0x3B] + rest, 0, 1) == Some(Passed(rest, 2))
  {
    var end := [0x3B] + rest;
    assert [0x3D, 0x62, 0x3B] + rest == [0x3D] + ([0x62] + end);
    assert ([0x3D] + ([0x62] + end))[1..] == [0x62] + end && end[1..] == rest;
    SolidStays(0x3D, [0x62] + end);
    SolidStays(0x3B, rest);
    LetterIsValue(0x62, end, 1, 1);
    hide ReadValue, SkipTrivia;
  }

  lemma SecondEntry(rest: seq<byte>)
    ensures ReadBinding([0x3D, 0x28, 0x64, 0x2C, 0x3C, 0x30, 0x46, 0x3E, 0x29, 0x3B] + rest, 0, 2)
         == Some(Passed(rest, 5))
  {
    var end := [0x3B] + rest;
    var value := [0x28, 0x64, 0x2C, 0x3C, 0x30, 0x46, 0x3E, 0x29] + end;
    var s := [0x3D, 0x28, 0x64, 0x2C, 0x3C, 0x30, 0x46, 0x3E, 0x29, 0x3B] + rest;
    assert s == [0x3D] + value && s[1..] == value && end[1..] == rest;
    SolidStays(0x3D, value);
    SolidStays(0x3B, rest);
    ArrayReads(end);
    hide ReadValue, SkipTrivia;
  }

  /** `{"\n"=b;c=(d,<0F>);}` */
  const SAMPLE: seq<byte> :=
    [0x7B] + ([0x22, 0x5C, 0x6E, 0x22] + ([0x3D, 0x62, 0x3B]
    + ([0x63] + ([0x3D, 0x28, 0x64, 0x2C, 0x3C, 0x30, 0x46, 0x3E, 0x29, 0x3B] + [0x7D]))))

  /** One entry and those after it. */
  lemma EntryThen(s: seq<byte>, nodes: nat, keys: set<Key>, key: Read, v: Passed)
    requires SkipTrivia(s) == Some(s) && s != [] && s[0] != CLOSE_BRACE && ReadString(s, true) == Some(key)
    requires key.value !in keys && ReadBinding(key.rest, 0, nodes) == Some(v)
    ensures ReadEntries(s, 0, nodes, keys) == ReadEntries(v.rest, 0, v.nodes, keys + {key.value})
  {
    hide SkipTrivia, ReadString, ReadBinding;
  }

  lemma Closes(nodes: nat, keys: set<Key>)
    ensures ReadEntries([0x7D], 0, nodes, keys) == Some(Found(keys, [], nodes))
  {
    SolidStays(0x7D, []);
    assert [0x7D] + [] == [0x7D] && [0x7D][1..] == [];
  }

  lemma RootIs(entries: seq<byte>, keys: set<Key>, nodes: nat)
    requires ReadEntries(entries, 0, 1, {}) == Some(Found(keys, [], nodes))
    ensures ReadRoot([0x7B] + entries) == Some(keys)
  {
    hide ReadEntries;
    SolidStays(0x7B, entries);
    assert ([0x7B] + entries)[1..] == entries;
  }

  /** The keys of the small list are a newline and "c". */
  lemma SampleReads()
    ensures ReadRoot(SAMPLE) == Some({[0x0A], [0x63]})
  {
    hide ReadString, ReadBinding, SkipTrivia, ReadEntries, ReadRoot;
    var close: seq<byte> := [0x7D];
    var bound := [0x3D, 0x28, 0x64, 0x2C, 0x3C, 0x30, 0x46, 0x3E, 0x29, 0x3B] + close;
    var second := [0x63] + bound;
    var more := [0x3D, 0x62, 0x3B] + second;
    var first := [0x22, 0x5C, 0x6E, 0x22] + more;
    SolidStays(0x63, bound);
    assert first == [0x22] + ([0x5C, 0x6E, 0x22] + more);
    SolidStays(0x22, [0x5C, 0x6E, 0x22] + more);
    NewlineReads(more);
    FirstEntry(second);
    EntryThen(first, 1, {}, Read([0x0A], more), Passed(second, 2));
    LetterReads(0x63, bound, true);
    SecondEntry(close);
    EntryThen(second, 2, {[0x0A]}, Read([0x63], bound), Passed(close, 5));
    assert {} + {[0x0A]} == {[0x0A]} && {[0x0A]} + {[0x63]} == {[0x0A], [0x63]};
    Closes(5, {[0x0A], [0x63]});
    RootIs(first, {[0x0A], [0x63]}, 5);
    assert SAMPLE == [0x7B] + first;
  }

  // ---- Characters ------------------------------------------------------

  /** `" \ a b f n r t v` after a backslash, and what they stand for. */
  const LETTERS: seq<byte> := [0x22, 0x5C, 0x61, 0x62, 0x66, 0x6E, 0x72, 0x74, 0x76]
  const MEANINGS: seq<byte> := [0x22, 0x5C, 0x07, 0x08, 0x0C, 0x0A, 0x0D, 0x09, 0x0B]

  lemma EscapesMean(k: nat, rest: seq<byte>)
    requires k < 9
    ensures |LETTERS| == |MEANINGS| == 9
    ensures ReadEscape([LETTERS[k]] + rest) == Some(Read([MEANINGS[k]], rest))
  {
    LettersMean(k);
    assert ([LETTERS[k]] + rest)[1..] == rest;
  }

  lemma LettersMean(k: nat)
    requires k < 9
    ensures |LETTERS| == |MEANINGS| == 9 && Named(LETTERS[k]) == Some(MEANINGS[k])
  {
  }

  /** `0123456789abcdef` and `0123456789ABCDEF` */
  const LOWER: seq<byte> := [
    0x30, 0x31, 0x32, 0x33, 0x34, 0x35, 0x36, 0x37, 0x38, 0x39, 0x61, 0x62, 0x63, 0x64, 0x65, 0x66]
  const UPPER: seq<byte> := [
    0x30, 0x31, 0x32, 0x33, 0x34, 0x35, 0x36, 0x37, 0x38, 0x39, 0x41, 0x42, 0x43, 0x44, 0x45, 0x46]

  lemma DigitsMean(k: nat)
    requires k < 16
    ensures |LOWER| == |UPPER| == 16
    ensures HexDigit(LOWER[k]) && HexValue(LOWER[k]) == k && HexDigit(UPPER[k]) && HexValue(UPPER[k]) == k
  {
  }

  /** Four digits after `\U` are one character, the most significant digit first. */
  lemma UnicodeMeans(a: nat, b: nat, c: nat, d: nat, rest: seq<byte>)
    requires a < 16 && b < 16 && c < 16 && d < 16 && |LOWER| == |UPPER| == 16
    requires 0x800 <= a * 0x1000 + b * 0x100 + c * 0x10 + d < 0xD800
    ensures ReadEscape([0x55, LOWER[a], UPPER[b], LOWER[c], UPPER[d]] + rest)
         == Some(Read([0xE0 + a, 0x80 + b * 4 + c / 4, 0x80 + c % 4 * 16 + d], rest))
  {
    hide HexDigit, HexValue, LOWER, UPPER;
    DigitsMean(a);
    DigitsMean(b);
    DigitsMean(c);
    DigitsMean(d);
    var s := [0x55, LOWER[a], UPPER[b], LOWER[c], UPPER[d]] + rest;
    var n := a * 0x1000 + b * 0x100 + c * 0x10 + d;
    FromDigits(a, b, c, d);
    assert s[1..][4..] == rest;
    assert Named(0x55).None?;
    assert s[1..][0] == LOWER[a] && s[1..][1] == UPPER[b] && s[1..][2] == LOWER[c] && s[1..][3] == UPPER[d];
  }

  lemma FromDigits(a: nat, b: nat, c: nat, d: nat)
    requires a < 16 && b < 16 && c < 16 && d < 16
    ensures var n := a * 0x1000 + b * 0x100 + c * 0x10 + d;
            n / 0x1000 == a && n / 0x40 % 0x40 == b * 4 + c / 4 && n % 0x40 == c % 4 * 16 + d
  {
    var n := a * 0x1000 + b * 0x100 + c * 0x10 + d;
    assert n / 0x40 == a * 0x40 + b * 4 + c / 4;
  }

  /** Space, tab, newline, form feed and return are passed over, and a vertical tab is not. */
  lemma BlanksArePassed(rest: seq<byte>)
    ensures SkipTrivia([0x20] + rest) == SkipTrivia([0x09] + rest) == SkipTrivia([0x0A] + rest) == SkipTrivia(rest)
    ensures SkipTrivia([0x0C] + rest) == SkipTrivia([0x0D] + rest) == SkipTrivia(rest)
    ensures SkipTrivia([0x0B] + rest) == Some([0x0B] + rest)
  {
    assert ([0x20] + rest)[1..] == ([0x09] + rest)[1..] == ([0x0A] + rest)[1..] == rest;
    assert ([0x0C] + rest)[1..] == ([0x0D] + rest)[1..] == rest;
  }

  /** `_ $ / : . - +`, and the ends of the digits and letters. */
  const BARE: seq<byte> := [0x5F, 0x24, 0x2F, 0x3A, 0x2E, 0x2D, 0x2B, 0x30, 0x39, 0x41, 0x5A, 0x61, 0x7A]
  /** Their neighbours, and what the grammar itself uses. */
  const OTHERS: seq<byte> := [
    0x20, 0x22, 0x23, 0x25, 0x28, 0x29, 0x2A, 0x2C, 0x3B, 0x3C, 0x3D, 0x3E, 0x40, 0x5B, 0x5C, 0x5E, 0x60, 0x7B, 0x7D,
    0x7F, 0x80, 0xFF]

  /** The ones may stand in a bare name, the others may not. */
  lemma BareNames(b: byte)
    ensures b in BARE ==> BareByte(b)
    ensures b in OTHERS ==> !BareByte(b)
  {
  }
}
