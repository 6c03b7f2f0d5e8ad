/** Property lists as they can be written: comments, quoted and bare strings,
    every escape, data, arrays and nested dictionaries.  Each `...Then` function
    is the text of something followed by the rest of the input. */
module OpenStepText {
  import opened Common
  import opened OpenStep
  import Utf8

  datatype Piece = Space(b: byte) | Line(text: seq<byte>, end: byte) | Block(text: seq<byte>)
  type Trivia = seq<Piece>

  datatype Escape = Short(b: byte) | Hex(a: byte, b: byte, c: byte, d: byte) | Octal(digits: seq<byte>)
  datatype Inner = Last(run: seq<byte>) | More(run: seq<byte>, escape: Escape, more: Inner)
  datatype Text = Bare(bytes: seq<byte>) | Quoted(inner: Inner)

  datatype Value =
    | Word(before: Trivia, text: Text)
    | Data(before: Trivia, body: seq<byte>)
    | List(before: Trivia, items: Items)
    | Table(before: Trivia, entries: Entries)
  datatype Items =
    | NoItems(end: Trivia)
    | LastItem(value: Value, after: Trivia)
    | Item(value: Value, after: Trivia, rest: Items)
  datatype Entries =
    | NoEntries(end: Trivia)
    | Entry(before: Trivia, key: Text, afterKey: Trivia, value: Value, afterValue: Trivia, rest: Entries)

  /** A last line comment may end with the input instead of a newline. */
  datatype Document = Document(before: Trivia, entries: Entries, after: Trivia, comment: Option<seq<byte>>)

  // ---- Text ------------------------------------------------------------

  function PieceThen(p: Piece, rest: seq<byte>): seq<byte> {
    match p
    case Space(b) => [b] + rest
    case Line(text, end) => [SLASH, SLASH] + (text + ([end] + rest))
    case Block(text) => [SLASH, STAR] + (text + ([STAR, SLASH] + rest))
  }

  function TriviaThen(t: Trivia, rest: seq<byte>): seq<byte> {
    if t == [] then rest else PieceThen(t[0], TriviaThen(t[1..], rest))
  }

  function EscapeThen(e: Escape, rest: seq<byte>): seq<byte> {
    match e
    case Short(b) => [b] + rest
    case Hex(a, b, c, d) => [UPPER_U, a, b, c, d] + rest
    case Octal(digits) => digits + rest
  }

  function InnerThen(inner: Inner, rest: seq<byte>): seq<byte> {
    match inner
    case Last(run) => run + ([QUOTE] + rest)
    case More(run, escape, more) => run + ([BACKSLASH] + EscapeThen(escape, InnerThen(more, rest)))
  }

  function TextThen(t: Text, rest: seq<byte>): seq<byte> {
    match t
    case Bare(bytes) => bytes + rest
    case Quoted(inner) => [QUOTE] + InnerThen(inner, rest)
  }

  function ValueThen(v: Value, rest: seq<byte>): seq<byte>
    decreases v
  {
    match v
    case Word(before, text) => TriviaThen(before, TextThen(text, rest))
    case Data(before, body) => TriviaThen(before, [LESS_THAN] + (body + ([GREATER_THAN] + rest)))
    case List(before, items) => TriviaThen(before, [OPEN_PAREN] + ItemsThen(items, rest))
    case Table(before, entries) => TriviaThen(before, [OPEN_BRACE] + EntriesThen(entries, rest))
  }

  function ItemsThen(items: Items, rest: seq<byte>): seq<byte>
    decreases items
  {
    match items
    case NoItems(end) => TriviaThen(end, [CLOSE_PAREN] + rest)
    case LastItem(value, after) => ValueThen(value, TriviaThen(after, [CLOSE_PAREN] + rest))
    case Item(value, after, more) => ValueThen(value, TriviaThen(after, [COMMA] + ItemsThen(more, rest)))
  }

  function EntriesThen(entries: Entries, rest: seq<byte>): seq<byte>
    decreases entries
  {
    match entries
    case NoEntries(end) => TriviaThen(end, [CLOSE_BRACE] + rest)
    case Entry(before, key, afterKey, value, afterValue, more) =>
      TriviaThen(before, TextThen(key, TriviaThen(afterKey,
        [EQUALS] + ValueThen(value, TriviaThen(afterValue, [SEMICOLON] + EntriesThen(more, rest))))))
  }

  function LastComment(comment: Option<seq<byte>>): seq<byte> {
    if comment.Some? then [SLASH, SLASH] + comment.value else []
  }

  function Print(d: Document): seq<byte> {
    TriviaThen(d.before, [OPEN_BRACE] + EntriesThen(d.entries, TriviaThen(d.after, LastComment(d.comment))))
  }

  // ---- Meaning ---------------------------------------------------------

  function HexScalar(a: byte, b: byte, c: byte, d: byte): nat
    requires HexDigit(a) && HexDigit(b) && HexDigit(c) && HexDigit(d)
  {
    HexValue(a) * 0x1000 + HexValue(b) * 0x100 + HexValue(c) * 0x10 + HexValue(d)
  }

  /** One to three octal digits. */
  function OctalScalar(digits: seq<byte>): nat
    requires 1 <= |digits| <= 3 && forall i :: 0 <= i < |digits| ==> OctalDigit(digits[i])
  {
    if |digits| == 1 then OctalValue(digits[0])
    else if |digits| == 2 then OctalValue(digits[0]) * 8 + OctalValue(digits[1])
    else OctalValue(digits[0]) * 64 + OctalValue(digits[1]) * 8 + OctalValue(digits[2])
  }

  function OctalValue(b: byte): nat
    requires OctalDigit(b)
  {
    b as int - 0x30
  }

  /** The scalar an escape stands for. */
  function EscapeScalar(e: Escape): nat
    requires GoodEscape(e)
  {
    match e
    case Short(b) => Named(b).value
    case Hex(a, b, c, d) => HexScalar(a, b, c, d)
    case Octal(digits) => OctalScalar(digits)
  }

  predicate GoodEscape(e: Escape) {
    match e
    case Short(b) => Named(b).Some?
    case Hex(a, b, c, d) =>
      HexDigit(a) && HexDigit(b) && HexDigit(c) && HexDigit(d) && EncodeScalar(HexScalar(a, b, c, d)).Some?
    case Octal(digits) => 1 <= |digits| <= 3 && forall i :: 0 <= i < |digits| ==> OctalDigit(digits[i])
  }

  function EscapeMeaning(e: Escape): seq<byte>
    requires GoodEscape(e)
  {
    match EncodeScalar(EscapeScalar(e))
    case Some(bytes) => bytes
    case None => []
  }

  predicate PlainRun(run: seq<byte>) {
    forall i :: 0 <= i < |run| ==> run[i] >= 0x20 && run[i] != QUOTE && run[i] != BACKSLASH
  }

  /** A short octal escape must not be followed by another octal digit. */
  predicate Separated(e: Escape, more: Inner) {
    e.Octal? && |e.digits| < 3 && more.run != [] ==> !OctalDigit(more.run[0])
  }

  predicate GoodInner(inner: Inner, utf8: bool) {
    && PlainRun(inner.run) && (utf8 ==> Utf8.Valid(inner.run))
    && (inner.More? ==> GoodEscape(inner.escape) && Separated(inner.escape, inner.more) && GoodInner(inner.more, utf8))
  }

  function InnerMeaning(inner: Inner, utf8: bool): seq<byte>
    requires GoodInner(inner, utf8)
  {
    match inner
    case Last(run) => run
    case More(run, escape, more) => run + EscapeMeaning(escape) + InnerMeaning(more, utf8)
  }

  /** A bare string that would not be taken for a comment. */
  predicate GoodBare(bytes: seq<byte>) {
    && bytes != [] && (forall i :: 0 <= i < |bytes| ==> BareByte(bytes[i]))
    && !AtPair(bytes, SLASH, SLASH) && !AtPair(bytes, SLASH, STAR)
  }

  predicate GoodText(t: Text, key: bool) {
    match t
    case Bare(bytes) => GoodBare(bytes)
    case Quoted(inner) => GoodInner(inner, key) && (key ==> InnerMeaning(inner, key) != [])
  }

  /** A key; no key is empty. */
  function KeyOf(t: Text): Key
    requires GoodText(t, true)
  {
    match t
    case Bare(bytes) => bytes
    case Quoted(inner) => InnerMeaning(inner, true)
  }

  predicate GoodPiece(p: Piece) {
    match p
    case Space(b) => Whitespace(b)
    case Line(text, end) => Newline(end) && forall i :: 0 <= i < |text| ==> !Newline(text[i])
    case Block(text) => forall i :: 0 <= i < |text| - 1 ==> !(text[i] == STAR && text[i + 1] == SLASH)
  }

  predicate GoodTrivia(t: Trivia) {
    forall i :: 0 <= i < |t| ==> GoodPiece(t[i])
  }

  /** A bare string ends where something that cannot belong to it begins. */
  predicate After(t: Text, after: Trivia) {
    GoodTrivia(after) && (t.Bare? && after != [] ==> after[0].Space?)
  }

  predicate AfterValue(v: Value, after: Trivia) {
    GoodTrivia(after) && (v.Word? ==> After(v.text, after))
  }

  predicate GoodData(body: seq<byte>, even: bool)
    decreases |body|
  {
    if body == [] then even
    else (HexDigit(body[0]) && GoodData(body[1..], !even)) || (Whitespace(body[0]) && GoodData(body[1..], even))
  }

  predicate GoodValue(v: Value)
    decreases v, 0
  {
    && GoodTrivia(v.before)
    && match v
       case Word(_, text) => GoodText(text, false)
       case Data(_, body) => GoodData(body, true)
       case List(_, items) => GoodItems(items)
       case Table(_, entries) => GoodEntries(entries)
  }

  predicate GoodItems(items: Items)
    decreases items, 0
  {
    match items
    case NoItems(end) => GoodTrivia(end)
    case LastItem(value, after) => GoodValue(value) && AfterValue(value, after)
    case Item(value, after, rest) => GoodValue(value) && AfterValue(value, after) && GoodItems(rest)
  }

  /** No two entries of a dictionary have the same key. */
  predicate GoodEntries(entries: Entries)
    decreases entries, 0
  {
    match entries
    case NoEntries(end) => GoodTrivia(end)
    case Entry(before, key, afterKey, value, afterValue, rest) =>
      && GoodTrivia(before) && GoodText(key, true) && After(key, afterKey)
      && GoodValue(value) && AfterValue(value, afterValue)
      && GoodEntries(rest) && KeyOf(key) !in KeysOf(rest)
  }

  function KeysOf(entries: Entries): set<Key>
    requires GoodEntries(entries)
    decreases entries, 1
  {
    match entries
    case NoEntries(_) => {}
    case Entry(_, key, _, _, _, rest) => {KeyOf(key)} + KeysOf(rest)
  }

  // ---- Depth and nodes -------------------------------------------------

  function Nodes(v: Value): nat
    decreases v
  {
    match v
    case Word(_, _) => 1
    case Data(_, _) => 1
    case List(_, items) => 1 + ItemNodes(items)
    case Table(_, entries) => 2 + EntryNodes(entries)
  }

  function ItemNodes(items: Items): nat
    decreases items
  {
    match items
    case NoItems(_) => 0
    case LastItem(value, _) => Nodes(value)
    case Item(value, _, rest) => Nodes(value) + ItemNodes(rest)
  }

  function EntryNodes(entries: Entries): nat
    decreases entries
  {
    match entries
    case NoEntries(_) => 0
    case Entry(_, _, _, value, _, rest) => Nodes(value) + EntryNodes(rest)
  }

  /** Nothing in the value is deeper than the cap when it stands at `depth`. */
  predicate Shallow(v: Value, depth: nat)
    decreases v
  {
    && depth <= DEPTH_CAP
    && match v
       case Word(_, _) => true
       case Data(_, _) => true
       case List(_, items) => ShallowItems(items, depth + 1)
       case Table(_, entries) => ShallowEntries(entries, depth + 1)
  }

  predicate ShallowItems(items: Items, depth: nat)
    decreases items
  {
    match items
    case NoItems(_) => true
    case LastItem(value, _) => Shallow(value, depth)
    case Item(value, _, rest) => Shallow(value, depth) && ShallowItems(rest, depth)
  }

  predicate ShallowEntries(entries: Entries, depth: nat)
    decreases entries
  {
    match entries
    case NoEntries(_) => true
    case Entry(_, _, _, value, _, rest) => Shallow(value, depth) && ShallowEntries(rest, depth)
  }

  predicate GoodDocument(d: Document) {
    && GoodTrivia(d.before) && GoodEntries(d.entries) && GoodTrivia(d.after)
    && ShallowEntries(d.entries, 1) && 1 + EntryNodes(d.entries) <= NODE_CAP
    && (d.comment.Some? ==> OneLine(d.comment.value))
  }

  predicate OneLine(text: seq<byte>) {
    forall i :: 0 <= i < |text| ==> !Newline(text[i])
  }

  // ---- Reading back ----------------------------------------------------

  lemma {:induction false} LineSkips(text: seq<byte>, tail: seq<byte>)
    requires forall i :: 0 <= i < |text| ==> !Newline(text[i])
    requires tail != [] && Newline(tail[0])
    ensures SkipLine(text + tail) == tail
    decreases |text|
  {
    if text == [] {
      assert text + tail == tail;
    } else {
      assert (text + tail)[1..] == text[1..] + tail;
      LineSkips(text[1..], tail);
    }
  }

  lemma {:induction false} BlockSkips(text: seq<byte>, rest: seq<byte>)
    requires forall i :: 0 <= i < |text| - 1 ==> !(text[i] == STAR && text[i + 1] == SLASH)
    ensures SkipBlock(text + ([STAR, SLASH] + rest)) == Some(rest)
    decreases |text|
  {
    var all := text + ([STAR, SLASH] + rest);
    if text == [] {
      assert all == [STAR, SLASH] + rest && all[2..] == rest;
    } else {
      assert all[1..] == text[1..] + ([STAR, SLASH] + rest);
      assert all[1] == if |text| > 1 then text[1] else STAR;
      forall i | 0 <= i < |text[1..]| - 1 ensures !(text[1..][i] == STAR && text[1..][i + 1] == SLASH) {
        assert text[1..][i] == text[i + 1] && text[1..][i + 1] == text[i + 2];
      }
      BlockSkips(text[1..], rest);
    }
  }

  lemma PieceSkips(p: Piece, rest: seq<byte>)
    requires GoodPiece(p)
    ensures SkipTrivia(PieceThen(p, rest)) == SkipTrivia(rest)
  {
    var all := PieceThen(p, rest);
    match p {
      case Space(b) => assert all[1..] == rest;
      case Line(text, end) =>
        assert all[2..] == text + ([end] + rest);
        LineSkips(text, [end] + rest);
        assert ([end] + rest)[1..] == rest;
      case Block(text) =>
        assert all[2..] == text + ([STAR, SLASH] + rest);
        BlockSkips(text, rest);
    }
  }

  lemma {:induction false} TriviaSkips(t: Trivia, rest: seq<byte>)
    requires GoodTrivia(t)
    ensures SkipTrivia(TriviaThen(t, rest)) == SkipTrivia(rest)
    decreases |t|
  {
    hide SkipTrivia, PieceThen, GoodPiece;
    if t != [] {
      PieceSkips(t[0], TriviaThen(t[1..], rest));
      TriviaSkips(t[1..], rest);
    }
  }

  /** What is not trivia stays. */
  predicate Solid(s: seq<byte>) {
    (s != [] ==> !Whitespace(s[0])) && !AtPair(s, SLASH, SLASH) && !AtPair(s, SLASH, STAR)
  }

  lemma TriviaLeaves(t: Trivia, rest: seq<byte>)
    requires GoodTrivia(t) && Solid(rest)
    ensures SkipTrivia(TriviaThen(t, rest)) == Some(rest)
  {
    hide GoodTrivia;
    TriviaSkips(t, rest);
  }

  lemma {:induction false} RunReads(run: seq<byte>, tail: seq<byte>, segment: seq<byte>, value: seq<byte>,
                                    capture: bool)
    requires PlainRun(run)
    ensures ReadQuoted(run + tail, segment, value, capture) == ReadQuoted(tail, segment + run, value, capture)
    decreases |run|
  {
    hide Utf8.Valid, ReadEscape;
    if run == [] {
      assert run + tail == tail && segment + run == segment;
    } else {
      assert (run + tail)[1..] == run[1..] + tail;
      assert (segment + [run[0]]) + run[1..] == segment + run;
      RunReads(run[1..], tail, segment + [run[0]], value, capture);
    }
  }

  lemma OctalReads(digits: seq<byte>, rest: seq<byte>)
    requires GoodEscape(Octal(digits))
    requires |digits| < 3 && rest != [] ==> !OctalDigit(rest[0])
    ensures OctalDigits((digits + rest)[1..], 2, digits[0] - 0x30) == (OctalScalar(digits), rest)
    ensures OctalScalar(digits) < 512
  {
    var s := (digits + rest)[1..];
    if |digits| == 1 {
      assert s == rest;
    } else {
      assert s[0] == digits[1];
      if |digits| == 2 {
        assert s[1..] == rest;
      } else {
        assert s[1..][0] == digits[2] && s[1..][1..] == rest;
      }
    }
  }

  lemma HexReads(a: byte, b: byte, c: byte, d: byte, rest: seq<byte>)
    requires GoodEscape(Hex(a, b, c, d))
    ensures ReadHex([a, b, c, d] + rest) == Scalar(HexScalar(a, b, c, d), rest)
  {
    hide EncodeScalar;
    assert ([a, b, c, d] + rest)[4..] == rest;
  }

  lemma EscapeReads(e: Escape, rest: seq<byte>)
    requires GoodEscape(e)
    requires e.Octal? && |e.digits| < 3 && rest != [] ==> !OctalDigit(rest[0])
    ensures ReadEscape(EscapeThen(e, rest)) == Some(Read(EscapeMeaning(e), rest))
  {
    hide OctalDigits, OctalScalar;
    var s := EscapeThen(e, rest);
    match e {
      case Short(b) => assert s[1..] == rest;
      case Hex(a, b, c, d) =>
        assert s[1..] == [a, b, c, d] + rest;
        HexReads(a, b, c, d, rest);
      case Octal(digits) => OctalReads(digits, rest);
    }
  }

  lemma {:induction false} InnerReads(inner: Inner, rest: seq<byte>, value: seq<byte>, capture: bool)
    requires GoodInner(inner, capture) && (capture ==> value + InnerMeaning(inner, capture) != [])
    ensures ReadQuoted(InnerThen(inner, rest), [], value, capture)
         == Some(Read(if capture then value + InnerMeaning(inner, capture) else [], rest))
    decreases inner
  {
    hide Utf8.Valid, ReadEscape, PlainRun, EscapeMeaning, EscapeThen, GoodEscape;
    var run := inner.run;
    assert [] + run == run;
    match inner {
      case Last(_) =>
        RunReads(run, [QUOTE] + rest, [], value, capture);
        assert ([QUOTE] + rest)[1..] == rest;
      case More(_, escape, more) =>
        var tail := InnerThen(more, rest);
        RunReads(run, [BACKSLASH] + EscapeThen(escape, tail), [], value, capture);
        assert ([BACKSLASH] + EscapeThen(escape, tail))[1..] == EscapeThen(escape, tail);
        NextByte(escape, more, rest);
        EscapeReads(escape, tail);
        var next := value + run + EscapeMeaning(escape);
        assert next + InnerMeaning(more, capture) == value + InnerMeaning(inner, capture);
        InnerReads(more, rest, next, capture);
    }
  }

  lemma NextByte(e: Escape, more: Inner, rest: seq<byte>)
    requires Separated(e, more)
    ensures var tail := InnerThen(more, rest); e.Octal? && |e.digits| < 3 && tail != [] ==> !OctalDigit(tail[0])
  {
  }

  lemma {:induction false} BareReads(bytes: seq<byte>, rest: seq<byte>)
    requires forall i :: 0 <= i < |bytes| ==> BareByte(bytes[i])
    requires rest != [] ==> !BareByte(rest[0])
    ensures BareLength(bytes + rest) == |bytes|
    decreases |bytes|
  {
    if bytes == [] {
      assert bytes + rest == rest;
    } else {
      assert (bytes + rest)[1..] == bytes[1..] + rest;
      BareReads(bytes[1..], rest);
    }
  }

  lemma {:induction false} BareIsText(bytes: seq<byte>)
    requires forall i :: 0 <= i < |bytes| ==> bytes[i] < 0x80
    ensures Utf8.Valid(bytes)
    decreases |bytes|
  {
    if bytes != [] {
      BareIsText(bytes[1..]);
    }
  }

  lemma TextIsSolid(t: Text, key: bool, rest: seq<byte>)
    requires GoodText(t, key)
    requires t.Bare? && rest != [] ==> !BareByte(rest[0]) && rest[0] != STAR
    ensures Solid(TextThen(t, rest)) && TextThen(t, rest) != []
    ensures At(TextThen(t, rest), QUOTE) <==> t.Quoted?
  {
    hide GoodInner, InnerMeaning, InnerThen;
    if t.Bare? {
      var s := TextThen(t, rest);
      assert s[0] == t.bytes[0];
      if |t.bytes| > 1 {
        assert s[1] == t.bytes[1];
      } else if rest != [] {
        assert s[1] == rest[0];
      }
    }
  }

  lemma TextReads(before: Trivia, t: Text, key: bool, rest: seq<byte>)
    requires GoodTrivia(before) && GoodText(t, key)
    requires t.Bare? && rest != [] ==> !BareByte(rest[0]) && rest[0] != STAR
    ensures ReadString(TriviaThen(before, TextThen(t, rest)), key) == Some(Read(if key then KeyOf(t) else [], rest))
  {
    hide GoodInner, InnerMeaning, GoodTrivia, ReadQuoted, Utf8.Valid, InnerThen;
    TextIsSolid(t, key, rest);
    TriviaLeaves(before, TextThen(t, rest));
    match t {
      case Bare(bytes) =>
        BareReads(bytes, rest);
        BareIsText(bytes);
        assert (bytes + rest)[..|bytes|] == bytes && (bytes + rest)[|bytes|..] == rest;
      case Quoted(inner) =>
        var s := [QUOTE] + InnerThen(inner, rest);
        assert s[1..] == InnerThen(inner, rest);
        if key {
          assert [] + InnerMeaning(inner, true) == InnerMeaning(inner, true);
        }
        InnerReads(inner, rest, [], key);
    }
  }

  lemma {:induction false} DataReads(body: seq<byte>, even: bool, rest: seq<byte>)
    requires GoodData(body, even)
    ensures ReadData(body + ([GREATER_THAN] + rest), even) == Some(rest)
    decreases |body|
  {
    var all := body + ([GREATER_THAN] + rest);
    if body == [] {
      assert all == [GREATER_THAN] + rest && all[1..] == rest;
    } else {
      assert all[1..] == body[1..] + ([GREATER_THAN] + rest);
      if HexDigit(body[0]) && GoodData(body[1..], !even) {
        DataReads(body[1..], !even, rest);
      } else {
        DataReads(body[1..], even, rest);
      }
    }
  }

  /** What can follow a value: nothing that would go on with it. */
  predicate Ends(v: Value, rest: seq<byte>) {
    v.Word? && v.text.Bare? && rest != [] ==> !BareByte(rest[0]) && rest[0] != STAR
  }

  /** After a value and its trivia comes punctuation. */
  lemma PunctuationEnds(v: Value, after: Trivia, b: byte, tail: seq<byte>)
    requires AfterValue(v, after)
    requires b == CLOSE_PAREN || b == COMMA || b == SEMICOLON
    ensures Ends(v, TriviaThen(after, [b] + tail))
    ensures SkipTrivia(TriviaThen(after, [b] + tail)) == Some([b] + tail)
  {
    hide SkipTrivia;
    TriviaLeaves(after, [b] + tail);
    if v.Word? && v.text.Bare? && after != [] {
      assert GoodPiece(after[0]);
    }
  }

  lemma WordReads(v: Value, depth: nat, nodes: nat, rest: seq<byte>)
    requires v.Word? && GoodValue(v) && Ends(v, rest) && depth <= DEPTH_CAP && nodes + 1 <= NODE_CAP
    ensures ReadValue(ValueThen(v, rest), depth, nodes) == Some(Passed(rest, nodes + 1))
  {
    hide SkipTrivia, ReadString, GoodTrivia, GoodInner, InnerThen, InnerMeaning;
    var t := TextThen(v.text, rest);
    TextIsSolid(v.text, false, rest);
    TriviaLeaves(v.before, t);
    TextStart(v.text, false, rest);
    EmptyTrivia(t);
    TextReads([], v.text, false, rest);
  }

  /** A string is told from a dictionary, an array or data by its first byte. */
  lemma TextStart(t: Text, key: bool, rest: seq<byte>)
    requires GoodText(t, key)
    ensures var s := TextThen(t, rest);
            s != [] && s[0] != OPEN_BRACE && s[0] != OPEN_PAREN && s[0] != LESS_THAN && s[0] != CLOSE_BRACE
  {
    hide GoodInner, InnerMeaning;
  }

  lemma EmptyTrivia(s: seq<byte>)
    ensures TriviaThen([], s) == s && GoodTrivia([])
  {
  }

  lemma DataValueReads(v: Value, depth: nat, nodes: nat, rest: seq<byte>)
    requires v.Data? && GoodValue(v) && depth <= DEPTH_CAP && nodes + 1 <= NODE_CAP
    ensures ReadValue(ValueThen(v, rest), depth, nodes) == Some(Passed(rest, nodes + 1))
  {
    hide SkipTrivia, GoodTrivia, GoodData, ReadData;
    var body := v.body + ([GREATER_THAN] + rest);
    TriviaLeaves(v.before, [LESS_THAN] + body);
    assert ([LESS_THAN] + body)[1..] == body;
    DataReads(v.body, true, rest);
  }

  /** Every printed value is read to its end and counted. */
  lemma {:induction false} ValueReads(v: Value, depth: nat, nodes: nat, rest: seq<byte>)
    requires GoodValue(v) && Ends(v, rest) && Shallow(v, depth) && nodes + Nodes(v) <= NODE_CAP
    ensures ReadValue(ValueThen(v, rest), depth, nodes) == Some(Passed(rest, nodes + Nodes(v)))
    decreases v
  {
    hide SkipTrivia, GoodTrivia, ReadEntries, ReadArray, ReadString, ReadData;
    match v {
      case Word(_, _) => WordReads(v, depth, nodes, rest);
      case Data(_, _) => DataValueReads(v, depth, nodes, rest);
      case List(before, items) =>
        var inside := ItemsThen(items, rest);
        TriviaLeaves(before, [OPEN_PAREN] + inside);
        assert ([OPEN_PAREN] + inside)[1..] == inside;
        ItemsRead(items, depth, nodes + 1, rest);
      case Table(before, entries) =>
        var inside := EntriesThen(entries, rest);
        TriviaLeaves(before, [OPEN_BRACE] + inside);
        assert ([OPEN_BRACE] + inside)[1..] == inside;
        EntriesRead(entries, depth, nodes + 2, {}, rest);
    }
  }

  lemma {:induction false} ItemsRead(items: Items, depth: nat, nodes: nat, rest: seq<byte>)
    requires GoodItems(items) && ShallowItems(items, depth + 1) && nodes + ItemNodes(items) <= NODE_CAP
    ensures ReadArray(ItemsThen(items, rest), depth, nodes) == Some(Passed(rest, nodes + ItemNodes(items)))
    decreases items
  {
    hide SkipTrivia, GoodTrivia, ReadValue, ReadArray, ReadElements, GoodValue, AfterValue, Ends, Solid, TriviaThen;
    if items.NoItems? {
      NoItemsRead(items.end, depth, nodes, rest);
    } else {
      ItemEnds(items, rest);
      ValueReads(items.value, depth + 1, nodes, TriviaThen(items.after, ItemTail(items, rest)));
      ItemStarts(items, depth, nodes, rest);
      if items.Item? {
        ItemsRead(items.rest, depth, nodes + Nodes(items.value), rest);
      }
      ElementRead(items, depth, nodes, rest);
    }
  }

  /** What follows an element and its trivia. */
  function ItemTail(items: Items, rest: seq<byte>): seq<byte>
    requires !items.NoItems?
  {
    if items.LastItem? then [CLOSE_PAREN] + rest else [COMMA] + ItemsThen(items.rest, rest)
  }

  lemma ItemEnds(items: Items, rest: seq<byte>)
    requires GoodItems(items) && !items.NoItems?
    ensures ItemsThen(items, rest) == ValueThen(items.value, TriviaThen(items.after, ItemTail(items, rest)))
    ensures Ends(items.value, TriviaThen(items.after, ItemTail(items, rest)))
    ensures SkipTrivia(TriviaThen(items.after, ItemTail(items, rest))) == Some(ItemTail(items, rest))
  {
    hide SkipTrivia, GoodTrivia, GoodValue, AfterValue, Ends, TriviaThen, ValueThen;
    if items.LastItem? {
      PunctuationEnds(items.value, items.after, CLOSE_PAREN, rest);
    } else {
      PunctuationEnds(items.value, items.after, COMMA, ItemsThen(items.rest, rest));
    }
  }

  lemma ElementRead(items: Items, depth: nat, nodes: nat, rest: seq<byte>)
    requires !items.NoItems?
    requires var after := TriviaThen(items.after, ItemTail(items, rest));
             && ReadValue(ItemsThen(items, rest), depth + 1, nodes) == Some(Passed(after, nodes + Nodes(items.value)))
             && SkipTrivia(after) == Some(ItemTail(items, rest))
    ensures ReadElements(ItemsThen(items, rest), depth, nodes) ==
            if items.LastItem? then Some(Passed(rest, nodes + Nodes(items.value)))
            else ReadArray(ItemsThen(items.rest, rest), depth, nodes + Nodes(items.value))
  {
    hide SkipTrivia, ReadValue, ReadArray, TriviaThen, ItemsThen;
    if items.LastItem? {
      assert ItemTail(items, rest)[1..] == rest;
    } else {
      assert ItemTail(items, rest)[1..] == ItemsThen(items.rest, rest);
    }
  }

  lemma NoItemsRead(end: Trivia, depth: nat, nodes: nat, rest: seq<byte>)
    requires GoodTrivia(end)
    ensures ReadArray(TriviaThen(end, [CLOSE_PAREN] + rest), depth, nodes) == Some(Passed(rest, nodes))
  {
    hide SkipTrivia, GoodTrivia;
    TriviaLeaves(end, [CLOSE_PAREN] + rest);
    assert ([CLOSE_PAREN] + rest)[1..] == rest;
  }

  /** Reading an array's element first passes over its trivia, which the element
      itself would have passed over as well. */
  lemma ItemStarts(items: Items, depth: nat, nodes: nat, rest: seq<byte>)
    requires !items.NoItems? && GoodValue(items.value)
    requires Ends(items.value, TriviaThen(items.after, ItemTail(items, rest)))
    ensures var s := ItemsThen(items, rest);
            && ReadArray(s, depth, nodes).Some? == ReadElements(s, depth, nodes).Some?
            && (ReadElements(s, depth, nodes).Some? ==> ReadArray(s, depth, nodes) == ReadElements(s, depth, nodes))
  {
    hide SkipTrivia, ReadString, ReadDictionary, ReadData, GoodTrivia;
    var v := items.value;
    var s := ItemsThen(items, rest);
    var t := ValueSolid(v, TriviaThen(items.after, ItemTail(items, rest)));
    ReadValueSkips(s, t, depth + 1, nodes);
  }

  /** The value without its leading trivia. */
  lemma ValueSolid(v: Value, rest: seq<byte>) returns (t: seq<byte>)
    requires GoodValue(v) && Ends(v, rest)
    ensures SkipTrivia(ValueThen(v, rest)) == Some(t) && SkipTrivia(t) == Some(t)
    ensures t != [] && t[0] != CLOSE_PAREN
  {
    hide SkipTrivia, GoodTrivia, GoodInner, InnerMeaning, GoodData, ItemsThen, EntriesThen, InnerThen;
    match v {
      case Word(before, text) =>
        t := TextThen(text, rest);
        TextIsSolid(text, false, rest);
      case Data(before, body) => t := [LESS_THAN] + (body + ([GREATER_THAN] + rest));
      case List(before, items) => t := [OPEN_PAREN] + ItemsThen(items, rest);
      case Table(before, entries) => t := [OPEN_BRACE] + EntriesThen(entries, rest);
    }
    TriviaLeaves(v.before, t);
    EmptyTrivia(t);
    TriviaLeaves([], t);
  }

  lemma ReadValueSkips(s: seq<byte>, t: seq<byte>, depth: nat, nodes: nat)
    requires SkipTrivia(s) == Some(t) && SkipTrivia(t) == Some(t)
    ensures ReadValue(s, depth, nodes) == ReadValue(t, depth, nodes)
  {
    hide SkipTrivia, ReadString, ReadDictionary, ReadArray, ReadData;
  }

  lemma {:induction false} EntriesRead(entries: Entries, depth: nat, nodes: nat, keys: set<Key>, rest: seq<byte>)
    requires GoodEntries(entries) && ShallowEntries(entries, depth + 1) && nodes + EntryNodes(entries) <= NODE_CAP
    requires keys !! KeysOf(entries)
    ensures ReadEntries(EntriesThen(entries, rest), depth, nodes, keys)
         == Some(Found(keys + KeysOf(entries), rest, nodes + EntryNodes(entries)))
    decreases entries
  {
    hide SkipTrivia, GoodTrivia, ReadValue, GoodValue, AfterValue, Ends, Solid, GoodText, KeyOf, ReadString, TextThen,
         TriviaThen, ValueThen, ReadBinding;
    if entries.NoEntries? {
      NoEntriesRead(entries.end, depth, nodes, keys, rest);
      assert keys + {} == keys;
    } else {
      var more := EntriesThen(entries.rest, rest);
      var tail := TriviaThen(entries.afterValue, [SEMICOLON] + more);
      var value := ValueThen(entries.value, tail);
      KeyReads(entries.before, entries.key, entries.afterKey, value);
      PunctuationEnds(entries.value, entries.afterValue, SEMICOLON, more);
      ValueReads(entries.value, depth + 1, nodes, tail);
      var u := TriviaThen(entries.afterKey, [EQUALS] + value);
      BindingReads(u, value, tail, more, depth, nodes, nodes + Nodes(entries.value));
      OneEntryReads(EntriesThen(entries, rest), TextThen(entries.key, u), u, more, depth, nodes,
                    nodes + Nodes(entries.value), keys, KeyOf(entries.key));
      EntriesRead(entries.rest, depth, nodes + Nodes(entries.value), keys + {KeyOf(entries.key)}, rest);
      assert keys + {KeyOf(entries.key)} + KeysOf(entries.rest) == keys + KeysOf(entries);
    }
  }

  /** The equals sign, the value and the semicolon. */
  lemma BindingReads(s: seq<byte>, value: seq<byte>, tail: seq<byte>, more: seq<byte>, depth: nat, nodes: nat, n: nat)
    requires SkipTrivia(s) == Some([EQUALS] + value) && SkipTrivia(tail) == Some([SEMICOLON] + more)
    requires ReadValue(value, depth + 1, nodes) == Some(Passed(tail, n))
    ensures ReadBinding(s, depth, nodes) == Some(Passed(more, n))
  {
    hide SkipTrivia, ReadValue;
    assert ([EQUALS] + value)[1..] == value && ([SEMICOLON] + more)[1..] == more;
  }

  /** An entry that is read is followed by the reading of the others. */
  lemma OneEntryReads(s: seq<byte>, t: seq<byte>, u: seq<byte>, more: seq<byte>, depth: nat, nodes: nat, n: nat,
                      keys: set<Key>, key: Key)
    requires SkipTrivia(s) == Some(t) && t != [] && t[0] != CLOSE_BRACE
    requires ReadString(t, true) == Some(Read(key, u)) && key !in keys
    requires ReadBinding(u, depth, nodes) == Some(Passed(more, n))
    ensures ReadEntries(s, depth, nodes, keys) == ReadEntries(more, depth, n, keys + {key})
  {
    hide SkipTrivia, ReadString, ReadBinding;
  }

  lemma NoEntriesRead(end: Trivia, depth: nat, nodes: nat, keys: set<Key>, rest: seq<byte>)
    requires GoodTrivia(end)
    ensures ReadEntries(TriviaThen(end, [CLOSE_BRACE] + rest), depth, nodes, keys) == Some(Found(keys, rest, nodes))
  {
    hide SkipTrivia, GoodTrivia;
    TriviaLeaves(end, [CLOSE_BRACE] + rest);
    assert ([CLOSE_BRACE] + rest)[1..] == rest;
  }

  /** A key with the equals sign after it. */
  lemma KeyReads(before: Trivia, key: Text, afterKey: Trivia, value: seq<byte>)
    requires GoodTrivia(before) && GoodText(key, true) && After(key, afterKey)
    ensures var u := TriviaThen(afterKey, [EQUALS] + value);
            var t := TextThen(key, u);
            && SkipTrivia(TriviaThen(before, t)) == Some(t) && t != [] && t[0] != CLOSE_BRACE
            && ReadString(t, true) == Some(Read(KeyOf(key), u))
            && SkipTrivia(u) == Some([EQUALS] + value)
  {
    hide SkipTrivia, ReadString, GoodInner, InnerMeaning, InnerThen;
    var u := TriviaThen(afterKey, [EQUALS] + value);
    var t := TextThen(key, u);
    TriviaLeaves(afterKey, [EQUALS] + value);
    if key.Bare? && afterKey != [] {
      assert GoodPiece(afterKey[0]);
    }
    TextIsSolid(key, true, u);
    TextStart(key, true, u);
    TriviaLeaves(before, t);
    EmptyTrivia(t);
    TextReads([], key, true, u);
  }

  /** Reading what was printed gives exactly the top-level keys, whatever
      comments, escapes and nested values the text has, within the caps. */
  lemma PrintedDocumentReads(d: Document)
    requires GoodDocument(d)
    ensures ReadRoot(Print(d)) == Some(KeysOf(d.entries))
  {
    hide SkipTrivia, ReadEntries, GoodEntries, KeysOf, GoodTrivia;
    var end := TriviaThen(d.after, LastComment(d.comment));
    var inside := EntriesThen(d.entries, end);
    TriviaLeaves(d.before, [OPEN_BRACE] + inside);
    assert ([OPEN_BRACE] + inside)[1..] == inside;
    EntriesRead(d.entries, 0, 1, {}, end);
    assert {} + KeysOf(d.entries) == KeysOf(d.entries);
    TriviaSkips(d.after, LastComment(d.comment));
    LastCommentSkips(d.comment);
  }

  lemma LastCommentSkips(comment: Option<seq<byte>>)
    requires comment.Some? ==> OneLine(comment.value)
    ensures SkipTrivia(LastComment(comment)) == Some([])
  {
    if comment.Some? {
      assert LastComment(comment)[2..] == comment.value;
      LineRunsOut(comment.value);
    }
  }

  lemma {:induction false} LineRunsOut(text: seq<byte>)
    requires OneLine(text)
    ensures SkipLine(text) == []
    decreases |text|
  {
    if text != [] {
      LineRunsOut(text[1..]);
    }
  }
}
