/** The string pool as it is written: its header, the place of every string, and
    the strings themselves in either encoding. */
module ManifestPools {
  import opened Common
  import opened Manifest
  import opened ManifestText
  import opened ManifestStrings
  import opened ManifestPieces
  import Utf8

  // ---- Counts in front of a string -------------------------------------

  /** A count up to 32767 in one byte or two. */
  predicate Count8(s: seq<byte>, at: nat, n: nat, next: nat) {
    && at <= next <= |s| && n < 0x8000
    && ((n < 0x80 && s[at..next] == [n]) || s[at..next] == [0x80 + n / 0x100, n % 0x100])
  }

  /** A count up to 31 bits in one unit or two. */
  predicate Count16(s: seq<byte>, at: nat, n: nat, next: nat) {
    && at <= next <= |s| && n < 0x8000_0000
    && ((n < 0x8000 && s[at..next] == Unit(n)) || s[at..next] == Unit(0x8000 + n / 0x1_0000) + Unit(n % 0x1_0000))
  }

  lemma Count8Exactly(s: seq<byte>, at: nat, n: nat, next: nat)
    ensures Length8(s, at) == Some(Length(n, next)) <==> Count8(s, at, n, next)
  {
    if at + 1 <= |s| {
      assert s[at..at + 1] == [s[at]];
    }
    if at + 2 <= |s| {
      assert s[at..at + 2] == [s[at], s[at + 1]];
    }
    if Count8(s, at, n, next) {
      assert |s[at..next]| == next - at;
    }
  }

  lemma Count16Exactly(s: seq<byte>, at: nat, n: nat, next: nat)
    ensures Length16(s, at) == Some(Length(n, next)) <==> Count16(s, at, n, next)
  {
    hide Unit, Le16;
    if Count16(s, at, n, next) {
      assert |s[at..next]| == next - at;
    }
    if at + 2 <= |s| {
      IsLe16(s, at);
      UnitIs(s, at);
      UnitFound(s, at);
    } else {
      NoLe16(s, at);
    }
    if at + 4 <= |s| {
      IsLe16(s, at + 2);
      UnitIs(s, at + 2);
      UnitFound(s, at + 2);
      assert s[at..at + 4] == s[at..at + 2] + s[at + 2..at + 4];
      if n < 0x8000_0000 {
        Parts(s[at..at + 2], s[at + 2..at + 4], Unit(0x8000 + n / 0x1_0000), Unit(n % 0x1_0000));
      }
    } else {
      NoLe16(s, at + 2);
    }
  }

  lemma UnitFound(s: seq<byte>, at: nat)
    requires at + 2 <= |s|
    ensures forall u: u16 :: s[at..at + 2] == Unit(u) ==> Le16(s, at) == Some(u)
  {
    hide Unit, Le16;
    forall u: u16 | s[at..at + 2] == Unit(u) ensures Le16(s, at) == Some(u) {
      UnitReads(s, at, u);
    }
  }

  lemma NoLe16(s: seq<byte>, at: nat)
    requires at + 2 > |s|
    ensures Le16(s, at).None?
  {
  }

  // ---- Strings at a place ----------------------------------------------

  /** The text in UTF-8 after the counts of its units and bytes, and a zero. */
  predicate Utf8Laid(s: seq<byte>, at: nat, x: seq<nat>, b: nat, c: nat, text: Str) {
    && Scalars(x) && text == Utf8Of(x) && Count8(s, at, UnitsIn(x), b) && Count8(s, b, |text|, c)
    && c + |text| < |s| && s[c..c + |text|] == text && s[c + |text|] == 0
  }

  /** The text in UTF-16 after the count of its units, and a zero unit. */
  predicate Utf16Laid(s: seq<byte>, at: nat, x: seq<nat>, b: nat, text: Str) {
    && Scalars(x) && text == Utf8Of(x) && Count16(s, at, UnitsIn(x), b)
    && var end := b + 2 * UnitsIn(x); end + 2 <= |s| && s[b..end] == Utf16Of(x) && s[end..end + 2] == [0, 0]
  }

  ghost predicate StringAt(s: seq<byte>, utf8: bool, at: nat, text: Str) {
    if utf8 then exists x: seq<nat>, b: nat, c: nat :: Utf8Laid(s, at, x, b, c, text)
    else exists x: seq<nat>, b: nat :: Utf16Laid(s, at, x, b, text)
  }

  lemma Utf8LaidReads(s: seq<byte>, at: nat, x: seq<nat>, b: nat, c: nat, text: Str, remaining: nat)
    requires Utf8Laid(s, at, x, b, c, text)
    ensures DecodeUtf8(s, at, remaining) == Claim(text, remaining)
  {
    hide Count8, Length8, Utf8.Valid, UnitCount, Utf8Of, UnitsIn, Claim, Scalars;
    Count8Exactly(s, at, UnitsIn(x), b);
    Count8Exactly(s, b, |text|, c);
    CountIsSmall(s, b, |text|, c);
    Utf8Reads(x);
  }

  lemma CountIsSmall(s: seq<byte>, at: nat, n: nat, next: nat)
    requires Count8(s, at, n, next)
    ensures n < 0x8000
  {
  }

  lemma Utf8ReadIsLaid(s: seq<byte>, at: nat, remaining: nat) returns (x: seq<nat>, b: nat, c: nat)
    requires DecodeUtf8(s, at, remaining).Some?
    ensures Utf8Laid(s, at, x, b, c, DecodeUtf8(s, at, remaining).value.text)
    ensures DecodeUtf8(s, at, remaining) == Claim(DecodeUtf8(s, at, remaining).value.text, remaining)
  {
    hide Count8, Length8, Utf8.Valid, UnitCount, Utf8Of, UnitsIn, Scalars;
    var units := Length8(s, at).value;
    var bytes := Length8(s, units.next).value;
    b, c := units.next, bytes.next;
    x := Utf8IsText(s[c..c + bytes.value]);
    Utf8Reads(x);
    Count8Exactly(s, at, units.value, b);
    Count8Exactly(s, b, bytes.value, c);
  }

  lemma Utf16LaidReads(s: seq<byte>, at: nat, x: seq<nat>, b: nat, text: Str, remaining: nat)
    requires Utf16Laid(s, at, x, b, text)
    ensures DecodeUtf16(s, at, remaining) == Claim(text, remaining)
  {
    hide Count16, Length16, Utf16ToUtf8, Utf8Of, UnitsIn, Claim, Scalars, Utf16Of;
    var end := b + 2 * UnitsIn(x);
    Count16Exactly(s, at, UnitsIn(x), b);
    assert s[end] == s[end..end + 2][0] && s[end + 1] == s[end..end + 2][1];
    Utf16Reads(x, s, b);
  }

  lemma Utf16ReadIsLaid(s: seq<byte>, at: nat, remaining: nat) returns (x: seq<nat>, b: nat)
    requires DecodeUtf16(s, at, remaining).Some?
    ensures Utf16Laid(s, at, x, b, DecodeUtf16(s, at, remaining).value.text)
    ensures DecodeUtf16(s, at, remaining) == Claim(DecodeUtf16(s, at, remaining).value.text, remaining)
  {
    hide Count16, Length16, Utf16ToUtf8, Utf8Of, UnitsIn, Scalars, Utf16Of;
    var units := Length16(s, at).value;
    b := units.next;
    var end := b + 2 * units.value;
    x := Utf16IsText(s, b, units.value);
    Count16Exactly(s, at, units.value, b);
    assert s[end..end + 2] == [s[end], s[end + 1]];
  }

  /** A string is decoded at a place exactly when it stands there and fits the budget. */
  lemma StringExactly(s: seq<byte>, utf8: bool, at: nat, remaining: nat, d: Decoded)
    ensures (if utf8 then DecodeUtf8(s, at, remaining) else DecodeUtf16(s, at, remaining)) == Some(d)
       <==> StringAt(s, utf8, at, d.text) && |d.text| + d.remaining == remaining
  {
    hide DecodeUtf8, DecodeUtf16, Utf8Laid, Utf16Laid;
    if utf8 {
      if DecodeUtf8(s, at, remaining).Some? {
        var x, b, c := Utf8ReadIsLaid(s, at, remaining);
      }
      if x: seq<nat>, b: nat, c: nat :| Utf8Laid(s, at, x, b, c, d.text) {
        Utf8LaidReads(s, at, x, b, c, d.text, remaining);
      }
    } else {
      if DecodeUtf16(s, at, remaining).Some? {
        var x, b := Utf16ReadIsLaid(s, at, remaining);
      }
      if x: seq<nat>, b: nat :| Utf16Laid(s, at, x, b, d.text) {
        Utf16LaidReads(s, at, x, b, d.text, remaining);
      }
    }
  }

  // ---- The whole pool --------------------------------------------------

  /** The header of a pool without styles: the number of strings, their encoding and
      where they start. */
  predicate HeaderOf(s: seq<byte>, h: PoolHeader) {
    && POOL_HEADER <= |s| <= MANIFEST_LIMIT && h.count <= POOL_STRINGS_LIMIT
    && POOL_HEADER + h.count * 4 <= h.stringsStart <= |s|
    && s[0..2] == Half(RES_STRING_POOL) && s[2..4] == Half(POOL_HEADER)
    && s[8..12] == Word(h.count) && s[12..16] == Word(0) && s[16..20] == Word(if h.utf8 then POOL_UTF8 else 0)
    && s[20..24] == Word(h.stringsStart) && s[24..28] == Word(0)
  }

  lemma HeaderExactly(s: seq<byte>, h: PoolHeader)
    ensures ReadPoolHeader(s) == Some(h) <==> HeaderOf(s, h)
  {
    hide Half, Word, Le16, Le32;
    if POOL_HEADER <= |s| <= MANIFEST_LIMIT {
      HalfReads(s, 0, RES_STRING_POOL);
      HalfReads(s, 2, POOL_HEADER);
      IsLe32(s, 8);
      IsLe32(s, 12);
      IsLe32(s, 16);
      IsLe32(s, 20);
      IsLe32(s, 24);
      WordReads(s, 12, 0);
      WordReads(s, 16, 0);
      WordReads(s, 16, POOL_UTF8);
      WordReads(s, 24, 0);
      if h.count <= POOL_STRINGS_LIMIT && h.stringsStart <= |s| {
        WordReads(s, 8, h.count);
        WordReads(s, 20, h.stringsStart);
      }
    }
  }

  /** The string of an index stands where the pool says. */
  ghost predicate Stands(s: seq<byte>, h: PoolHeader, index: nat, text: Str) {
    var relative := Le32(s, POOL_HEADER + index * 4);
    relative.Some? && StringAt(s, h.utf8, h.stringsStart + relative.value, text)
  }

  ghost predicate StandFrom(s: seq<byte>, h: PoolHeader, index: nat, strings: seq<Str>) {
    forall i :: 0 <= i < |strings| ==> Stands(s, h, index + i, strings[i])
  }

  lemma OneExactly(s: seq<byte>, h: PoolHeader, index: nat, remaining: nat, d: Decoded)
    ensures DecodeString(s, h, index, remaining) == Some(d)
       <==> Stands(s, h, index, d.text) && |d.text| + d.remaining == remaining
  {
    hide DecodeUtf8, DecodeUtf16, StringAt, Le32;
    var relative := Le32(s, POOL_HEADER + index * 4);
    if relative.Some? {
      StringExactly(s, h.utf8, h.stringsStart + relative.value, remaining, d);
    }
  }

  lemma StandCons(s: seq<byte>, h: PoolHeader, index: nat, text: Str, more: seq<Str>)
    ensures StandFrom(s, h, index, [text] + more) <==> Stands(s, h, index, text) && StandFrom(s, h, index + 1, more)
    ensures Bytes([text] + more) == |text| + Bytes(more)
  {
    hide Stands;
    var all := [text] + more;
    assert all[1..] == more;
    if StandFrom(s, h, index, all) {
      assert Stands(s, h, index + 0, all[0]);
      forall i | 0 <= i < |more| ensures Stands(s, h, index + 1 + i, more[i]) {
        assert Stands(s, h, index + (i + 1), all[i + 1]);
      }
    }
    if Stands(s, h, index, text) && StandFrom(s, h, index + 1, more) {
      forall i | 0 <= i < |all| ensures Stands(s, h, index + i, all[i]) {
        if i > 0 {
          assert Stands(s, h, index + 1 + (i - 1), more[i - 1]);
        }
      }
    }
  }

  lemma {:induction false} StringsExactly(s: seq<byte>, h: PoolHeader, index: nat, remaining: nat, strings: seq<Str>)
    requires index <= h.count
    ensures DecodeStrings(s, h, index, remaining) == Some(strings)
       <==> && |strings| == h.count - index && Bytes(strings) <= remaining
            && StandFrom(s, h, index, strings)
    decreases h.count - index
  {
    hide DecodeString, Stands, StandFrom, Bytes;
    if index == h.count {
      NothingStands(s, h, index);
    } else {
      if DecodeStrings(s, h, index, remaining) == Some(strings) {
        var d := DecodeString(s, h, index, remaining).value;
        var more := DecodeStrings(s, h, index + 1, d.remaining).value;
        OneExactly(s, h, index, remaining, d);
        StringsExactly(s, h, index + 1, d.remaining, more);
        StandCons(s, h, index, d.text, more);
      }
      if |strings| == h.count - index && Bytes(strings) <= remaining && StandFrom(s, h, index, strings) {
        var text, more := strings[0], strings[1..];
        assert strings == [text] + more;
        StandCons(s, h, index, text, more);
        OneExactly(s, h, index, remaining, Decoded(text, remaining - |text|));
        StringsExactly(s, h, index + 1, remaining - |text|, more);
      }
    }
  }

  lemma NothingStands(s: seq<byte>, h: PoolHeader, index: nat)
    ensures StandFrom(s, h, index, []) && Bytes([]) == 0
  {
  }

  /** The whole pool: what its header says, and every string at the place the pool
      gives for it, all of them within the budget together. */
  ghost predicate PoolHolds(s: seq<byte>, h: PoolHeader, strings: seq<Str>) {
    HeaderOf(s, h) && |strings| == h.count && Bytes(strings) <= DECODED_BYTES_LIMIT && StandFrom(s, h, 0, strings)
  }

  /** A pool is read as these strings if and only if it holds them. */
  lemma PoolExactly(s: seq<byte>, strings: seq<Str>)
    ensures ReadPool(s) == Some(strings) <==> exists h: PoolHeader :: PoolHolds(s, h, strings)
  {
    hide ReadPoolHeader, HeaderOf, DecodeStrings, StandFrom, Bytes;
    if ReadPoolHeader(s).Some? {
      var h := ReadPoolHeader(s).value;
      HeaderExactly(s, h);
      StringsExactly(s, h, 0, DECODED_BYTES_LIMIT, strings);
      if ReadPool(s) == Some(strings) {
        assert PoolHolds(s, h, strings);
      }
    }
    if h: PoolHeader :| PoolHolds(s, h, strings) {
      HeaderExactly(s, h);
      StringsExactly(s, h, 0, DECODED_BYTES_LIMIT, strings);
    }
  }

  // ---- Writing a pool --------------------------------------------------

  /** Short enough for either kind of pool. */
  predicate Short(x: seq<nat>) {
    Scalars(x) && UnitsIn(x) < 0x8000 && |Utf8Of(x)| < 0x8000
  }

  predicate AllShort(texts: seq<seq<nat>>) {
    forall i :: 0 <= i < |texts| ==> Short(texts[i])
  }

  function Entry(x: seq<nat>, utf8: bool): seq<byte>
    requires Short(x)
  {
    if utf8 then Utf8Entry(x) else Utf16Entry(x)
  }

  function Entries(texts: seq<seq<nat>>, utf8: bool): seq<byte>
    requires AllShort(texts)
  {
    if texts == [] then [] else Entry(texts[0], utf8) + Entries(texts[1..], utf8)
  }

  function StringsOf(texts: seq<seq<nat>>): seq<Str>
    requires AllShort(texts)
  {
    seq(|texts|, i requires 0 <= i < |texts| => Utf8Of(texts[i]))
  }

  function StringsStart(texts: seq<seq<nat>>): nat {
    POOL_HEADER + 4 * |texts|
  }

  /** As many strings as a pool may have, in as many bytes. */
  predicate Writable(texts: seq<seq<nat>>, utf8: bool) {
    && AllShort(texts) && |texts| <= POOL_STRINGS_LIMIT
    && StringsStart(texts) + |Entries(texts, utf8)| <= MANIFEST_LIMIT && Bytes(StringsOf(texts)) <= DECODED_BYTES_LIMIT
  }

  /** The places of the strings, one behind the other. */
  function Offsets(texts: seq<seq<nat>>, utf8: bool): (offsets: seq<u32>)
    requires Writable(texts, utf8)
    ensures |offsets| == |texts|
  {
    seq(|texts|, i requires 0 <= i < |texts| => OffsetOf(texts, utf8, i))
  }

  function OffsetOf(texts: seq<seq<nat>>, utf8: bool, i: nat): u32
    requires Writable(texts, utf8) && i < |texts|
  {
    hide Entry;
    AllSplit(texts, i);
    EntriesSplit(texts, utf8, i);
    |Entries(texts[..i], utf8)|
  }

  lemma AllSplit(texts: seq<seq<nat>>, i: nat)
    requires AllShort(texts) && i < |texts|
    ensures AllShort(texts[..i]) && Short(texts[i]) && AllShort(texts[i + 1..])
  {
    hide Short;
  }

  lemma {:induction false} EntriesSplit(texts: seq<seq<nat>>, utf8: bool, i: nat)
    requires AllShort(texts) && i < |texts|
    requires AllShort(texts[..i]) && AllShort(texts[i + 1..])
    ensures Entries(texts, utf8)
         == Entries(texts[..i], utf8) + (Entry(texts[i], utf8) + Entries(texts[i + 1..], utf8))
    decreases i
  {
    hide Entry, Short;
    if i > 0 {
      var more := texts[1..];
      AllSplit(more, i - 1);
      EntriesSplit(more, utf8, i - 1);
      assert texts[..i][0] == texts[0] && texts[..i][1..] == more[..i - 1] && more[i..] == texts[i + 1..];
      Assoc(Entry(texts[0], utf8), Entries(more[..i - 1], utf8),
            Entry(texts[i], utf8) + Entries(texts[i + 1..], utf8));
    }
  }

  function PoolHead(size: u32, count: u32, utf8: bool, start: u32): (s: seq<byte>)
    ensures |s| == POOL_HEADER
  {
    Tag(RES_STRING_POOL, POOL_HEADER, size)
    + (Word(count) + (Word(0) + (Word(if utf8 then POOL_UTF8 else 0) + (Word(start) + Word(0)))))
  }

  function PrintPool(texts: seq<seq<nat>>, utf8: bool): seq<byte>
    requires Writable(texts, utf8)
  {
    PoolHead(StringsStart(texts) + |Entries(texts, utf8)|, |texts|, utf8, StringsStart(texts))
    + (PrintWords(Offsets(texts, utf8)) + Entries(texts, utf8))
  }

  lemma EntryStands(s: seq<byte>, utf8: bool, before: seq<byte>, x: seq<nat>, after: seq<byte>)
    requires Short(x) && s == before + (Entry(x, utf8) + after)
    ensures StringAt(s, utf8, |before|, Utf8Of(x))
  {
    hide Utf8Entry, Utf16Entry, Utf8Of, StringAt, DecodeUtf8, DecodeUtf16, Scalars, UnitsIn;
    var text := Utf8Of(x);
    Assoc(before, Entry(x, utf8), after);
    if utf8 {
      Utf8EntryReads(x, before, after, |text|);
    } else {
      Utf16EntryReads(x, before, after, |text|);
    }
    StringExactly(s, utf8, |before|, |text|, Decoded(text, 0));
  }

  lemma HeadReads(s: seq<byte>, size: u32, count: u32, utf8: bool, start: u32)
    requires |s| >= POOL_HEADER && s[0..POOL_HEADER] == PoolHead(size, count, utf8, start)
    ensures s[0..2] == Half(RES_STRING_POOL) && s[2..4] == Half(POOL_HEADER) && Le32(s, 4) == Some(size)
    ensures s[8..12] == Word(count) && s[12..16] == Word(0) && s[16..20] == Word(if utf8 then POOL_UTF8 else 0)
    ensures s[20..24] == Word(start) && s[24..28] == Word(0)
  {
    hide Word, Half, Le32;
    var tag := Tag(RES_STRING_POOL, POOL_HEADER, size);
    var flags := Word(if utf8 then POOL_UTF8 else 0);
    Front(s, 0, tag, Word(count) + (Word(0) + (flags + (Word(start) + Word(0)))));
    Front(s, 8, Word(count), Word(0) + (flags + (Word(start) + Word(0))));
    Front(s, 12, Word(0), flags + (Word(start) + Word(0)));
    Front(s, 16, flags, Word(start) + Word(0));
    Front(s, 20, Word(start), Word(0));
    Front(s, 0, Half(RES_STRING_POOL), Half(POOL_HEADER) + Word(size));
    Front(s, 2, Half(POOL_HEADER), Word(size));
    WordReads(s, 4, size);
  }

  /** Every list of texts that fits is read back from the pool written for it, in
      either encoding. */
  lemma WrittenPoolReads(texts: seq<seq<nat>>, utf8: bool)
    requires Writable(texts, utf8)
    ensures PoolOf(PrintPool(texts, utf8), StringsOf(texts))
  {
    hide Entries, Entry, PoolHead, PrintWords, Word, Half, Le32, Bytes, StringsOf, Offsets;
    hide ReadPool, AllShort, Stands;
    var s := PrintPool(texts, utf8);
    var n, start, entries := |texts|, StringsStart(texts), Entries(texts, utf8);
    var head, words := PoolHead(start + |entries|, n, utf8, start), PrintWords(Offsets(texts, utf8));
    assert s[0..POOL_HEADER] == head && s[POOL_HEADER..start] == words;
    HeadReads(s, start + |entries|, n, utf8, start);
    var h := PoolHeader(n, utf8, start);
    StringsCount(texts);
    assert HeaderOf(s, h);
    forall i | 0 <= i < n ensures Stands(s, h, 0 + i, StringsOf(texts)[i]) {
      TextStands(texts, utf8, i);
    }
    assert PoolHolds(s, h, StringsOf(texts));
    PoolExactly(s, StringsOf(texts));
  }

  lemma StringsCount(texts: seq<seq<nat>>)
    requires AllShort(texts)
    ensures |StringsOf(texts)| == |texts|
  {
  }

  lemma TextStands(texts: seq<seq<nat>>, utf8: bool, i: nat)
    requires Writable(texts, utf8) && i < |texts| && |StringsOf(texts)| == |texts|
    ensures Stands(PrintPool(texts, utf8), PoolHeader(|texts|, utf8, StringsStart(texts)), i, StringsOf(texts)[i])
  {
    hide Entries, Entry, PoolHead, PrintWords, Le32, Bytes, StringAt, Short;
    var s := PrintPool(texts, utf8);
    var start, entries, offsets := StringsStart(texts), Entries(texts, utf8), Offsets(texts, utf8);
    var head, words := PoolHead(start + |entries|, |texts|, utf8, start), PrintWords(offsets);
    assert s[POOL_HEADER..POOL_HEADER + 4 * |texts|] == words;
    WordsRead(s, POOL_HEADER, offsets);
    assert WordAt(s, POOL_HEADER + 4 * i, offsets[i]);
    AllSplit(texts, i);
    EntriesSplit(texts, utf8, i);
    var before, rest := Entries(texts[..i], utf8), Entry(texts[i], utf8) + Entries(texts[i + 1..], utf8);
    assert s == (head + words + before) + rest;
    EntryStands(s, utf8, head + words + before, texts[i], Entries(texts[i + 1..], utf8));
  }
}
