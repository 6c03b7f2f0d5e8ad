/** The other way round: whatever the reader accepts was printed from a document,
    so the accepted texts are exactly the printed ones. */
module OpenStepReading {
  import opened Common
  import opened OpenStep
  import opened OpenStepText
  import Utf8

  // ---- Trivia ----------------------------------------------------------

  lemma {:induction false} LineIs(s: seq<byte>) returns (text: seq<byte>)
    ensures OneLine(text) && s == text + SkipLine(s)
    ensures SkipLine(s) != [] ==> Newline(SkipLine(s)[0])
    decreases |s|
  {
    text := [];
    if s != [] && !Newline(s[0]) {
      var more := LineIs(s[1..]);
      text := [s[0]] + more;
      assert s == [s[0]] + s[1..];
    } else {
      assert [] + s == s;
    }
  }

  /** No end of a block comment within. */
  predicate NoEnd(text: seq<byte>) {
    forall i :: 0 <= i < |text| - 1 ==> !(text[i] == STAR && text[i + 1] == SLASH)
  }

  lemma {:induction false} BlockIs(s: seq<byte>) returns (text: seq<byte>)
    requires SkipBlock(s).Some?
    ensures NoEnd(text) && s == text + ([STAR, SLASH] + SkipBlock(s).value)
    decreases |s|
  {
    if AtPair(s, STAR, SLASH) {
      text := [];
      assert s == [STAR, SLASH] + s[2..] && [] + s == s;
    } else {
      hide NoEnd;
      var more := BlockIs(s[1..]);
      text := [s[0]] + more;
      assert s == [s[0]] + s[1..];
      assert more != [] ==> s[1] == more[0];
      NoEndBefore(s[0], more);
      Assoc([s[0]], more, [STAR, SLASH] + SkipBlock(s).value);
    }
  }

  lemma NoEndBefore(b: byte, more: seq<byte>)
    requires NoEnd(more) && (more != [] && b == STAR ==> more[0] != SLASH)
    ensures NoEnd([b] + more)
  {
    var text := [b] + more;
    forall i | 0 <= i < |text| - 1 ensures !(text[i] == STAR && text[i + 1] == SLASH) {
      if i > 0 {
        assert text[i] == more[i - 1] && text[i + 1] == more[i];
      }
    }
  }

  /** What is passed over is trivia, and at the very end perhaps a comment without
      a newline. */
  lemma {:induction false} TriviaIs(s: seq<byte>) returns (t: Trivia, comment: Option<seq<byte>>)
    requires SkipTrivia(s).Some?
    ensures GoodTrivia(t) && (comment.Some? ==> OneLine(comment.value) && SkipTrivia(s).value == [])
    ensures s == TriviaThen(t, LastComment(comment) + SkipTrivia(s).value)
    ensures Solid(SkipTrivia(s).value) && SkipTrivia(SkipTrivia(s).value) == Some(SkipTrivia(s).value)
    decreases |s|
  {
    hide SkipLine, SkipBlock, GoodPiece, PieceThen, TriviaThen, GoodTrivia, OneLine, LastComment;
    var rest := SkipTrivia(s).value;
    if s != [] && Whitespace(s[0]) {
      t, comment := TriviaIs(s[1..]);
      SpacePiece(s);
      t := TriviaGrows(Space(s[0]), t, LastComment(comment) + rest, s);
    } else if AtPair(s, SLASH, SLASH) {
      var text := LineIs(s[2..]);
      var line := SkipLine(s[2..]);
      EndIsEmpty();
      if line == [] {
        t, comment := [], Some(text);
        LastLine(s, text);
      } else {
        assert Whitespace(line[0]);
        t, comment := TriviaIs(line[1..]);
        LinePiece(s, text, line);
        t := TriviaGrows(Line(text, line[0]), t, LastComment(comment) + rest, s);
      }
    } else if AtPair(s, SLASH, STAR) {
      var text := BlockIs(s[2..]);
      var more := SkipBlock(s[2..]).value;
      t, comment := TriviaIs(more);
      BlockPiece(s, text, more);
      t := TriviaGrows(Block(text), t, LastComment(comment) + rest, s);
    } else {
      t, comment := [], None;
      NoPiece(s);
    }
  }

  lemma NoPiece(s: seq<byte>)
    ensures GoodTrivia([]) && s == TriviaThen([], LastComment(None) + s)
  {
    assert LastComment(None) + s == s;
  }

  lemma SpacePiece(s: seq<byte>)
    requires s != [] && Whitespace(s[0])
    ensures GoodPiece(Space(s[0])) && s == PieceThen(Space(s[0]), s[1..])
  {
  }

  lemma LinePiece(s: seq<byte>, text: seq<byte>, line: seq<byte>)
    requires AtPair(s, SLASH, SLASH) && s[2..] == text + line && line != [] && Newline(line[0]) && OneLine(text)
    ensures GoodPiece(Line(text, line[0])) && s == PieceThen(Line(text, line[0]), line[1..])
  {
    assert s == [SLASH, SLASH] + s[2..] && line == [line[0]] + line[1..];
  }

  lemma LastLine(s: seq<byte>, text: seq<byte>)
    requires AtPair(s, SLASH, SLASH) && s[2..] == text + []
    ensures GoodTrivia([]) && s == TriviaThen([], LastComment(Some(text)) + [])
  {
    assert s == [SLASH, SLASH] + s[2..] && s[2..] == text;
    assert LastComment(Some(text)) + [] == s;
  }

  lemma BlockPiece(s: seq<byte>, text: seq<byte>, more: seq<byte>)
    requires AtPair(s, SLASH, STAR) && s[2..] == text + ([STAR, SLASH] + more) && NoEnd(text)
    ensures GoodPiece(Block(text)) && s == PieceThen(Block(text), more)
  {
    assert s == [SLASH, STAR] + s[2..];
  }

  lemma EndIsEmpty()
    ensures SkipTrivia([]) == Some([])
  {
  }

  lemma TriviaGrows(p: Piece, t: Trivia, rest: seq<byte>, s: seq<byte>) returns (all: Trivia)
    requires GoodPiece(p) && GoodTrivia(t) && s == PieceThen(p, TriviaThen(t, rest))
    ensures GoodTrivia(all) && s == TriviaThen(all, rest)
  {
    hide GoodPiece, PieceThen;
    all := [p] + t;
    assert all[1..] == t;
  }

  /** Before something else there is no such comment. */
  lemma TriviaBefore(s: seq<byte>) returns (t: Trivia)
    requires SkipTrivia(s).Some? && SkipTrivia(s).value != []
    ensures GoodTrivia(t) && s == TriviaThen(t, SkipTrivia(s).value)
    ensures Solid(SkipTrivia(s).value) && SkipTrivia(SkipTrivia(s).value) == Some(SkipTrivia(s).value)
  {
    hide SkipTrivia, GoodTrivia, TriviaThen, Solid;
    var comment;
    t, comment := TriviaIs(s);
    assert LastComment(None) + SkipTrivia(s).value == SkipTrivia(s).value;
  }

  // ---- Strings ---------------------------------------------------------

  lemma OctalIs(s: seq<byte>) returns (digits: seq<byte>)
    requires s != [] && OctalDigit(s[0]) && ReadOctal(s[1..], s[0] - 0x30).Some?
    ensures GoodEscape(Octal(digits))
    ensures var r := ReadOctal(s[1..], s[0] - 0x30).value;
            && s == digits + r.rest && r.value == EscapeMeaning(Octal(digits))
            && (|digits| < 3 && r.rest != [] ==> !OctalDigit(r.rest[0]))
  {
    hide EncodeScalar;
    var t := s[1..];
    if t == [] || !OctalDigit(t[0]) {
      digits := [s[0]];
      assert s == digits + t;
    } else if t[1..] == [] || !OctalDigit(t[1..][0]) {
      digits := [s[0], t[0]];
      assert s == digits + t[1..];
    } else {
      digits := [s[0], t[0], t[1]];
      assert t[1..][1..] == t[2..] && s == digits + t[2..];
    }
  }

  lemma EscapeIs(s: seq<byte>) returns (e: Escape)
    requires ReadEscape(s).Some?
    ensures GoodEscape(e) && s == EscapeThen(e, ReadEscape(s).value.rest) &&
            ReadEscape(s).value.value == EscapeMeaning(e)
    ensures var rest := ReadEscape(s).value.rest;
            e.Octal? && |e.digits| < 3 && rest != [] ==> !OctalDigit(rest[0])
  {
    hide ReadOctal, EncodeScalar;
    if Named(s[0]).Some? {
      e := Short(s[0]);
      assert s == [s[0]] + s[1..];
      NamedIsPlain(s[0]);
    } else if s[0] == UPPER_U {
      var t := s[1..];
      e := Hex(t[0], t[1], t[2], t[3]);
      assert s == [UPPER_U, t[0], t[1], t[2], t[3]] + t[4..];
    } else {
      var digits := OctalIs(s);
      e := Octal(digits);
    }
  }

  lemma NamedIsPlain(b: byte)
    requires Named(b).Some?
    ensures EncodeScalar(Named(b).value) == Some([Named(b).value])
  {
  }

  /** The inside of a quoted string, of which `segment` has already been passed. */
  lemma {:induction false} InnerIs(s: seq<byte>, segment: seq<byte>, value: seq<byte>, capture: bool)
      returns (inner: Inner)
    requires PlainRun(segment) && ReadQuoted(s, segment, value, capture).Some?
    ensures GoodInner(inner, capture)
    ensures var r := ReadQuoted(s, segment, value, capture).value;
            && segment + s == InnerThen(inner, r.rest)
            && (capture ==> r.value == value + InnerMeaning(inner, capture) && r.value != [])
            && (!capture ==> r.value == [])
    decreases |s|
  {
    hide Utf8.Valid, ReadEscape, EscapeThen, EscapeMeaning, GoodEscape;
    if s[0] == QUOTE {
      inner := Last(segment);
      assert s == [QUOTE] + s[1..];
    } else if s[0] == BACKSLASH {
      var after := ReadEscape(s[1..]).value;
      var escape := EscapeIs(s[1..]);
      var more := InnerIs(after.rest, [], value + segment + after.value, capture);
      inner := More(segment, escape, more);
      var r := ReadQuoted(s, segment, value, capture).value;
      assert [] + after.rest == after.rest;
      StartsWithRun(more, r.rest);
      assert s == [BACKSLASH] + s[1..];
      if capture {
        assert value + segment + after.value + InnerMeaning(more, capture)
            == value + (segment + after.value + InnerMeaning(more, capture));
      }
    } else {
      inner := InnerIs(s[1..], segment + [s[0]], value, capture);
      assert segment + s == (segment + [s[0]]) + s[1..];
    }
  }

  lemma StartsWithRun(inner: Inner, rest: seq<byte>)
    ensures inner.run != [] ==> InnerThen(inner, rest) != [] && InnerThen(inner, rest)[0] == inner.run[0]
  {
  }

  lemma {:induction false} BareIs(s: seq<byte>)
    ensures forall i :: 0 <= i < BareLength(s) ==> BareByte(s[i])
    ensures var rest := s[BareLength(s)..]; rest != [] ==> !BareByte(rest[0])
    decreases |s|
  {
    if s != [] && BareByte(s[0]) {
      BareIs(s[1..]);
      var n := BareLength(s[1..]);
      assert s[1..][n..] == s[n + 1..];
      forall i | 0 <= i < BareLength(s) ensures BareByte(s[i]) {
        if i > 0 {
          assert s[i] == s[1..][i - 1];
        }
      }
    }
  }

  /** A bare string stops before what cannot belong to it. */
  predicate Stops(t: Text, rest: seq<byte>) {
    t.Bare? && rest != [] ==> !BareByte(rest[0])
  }

  lemma TextIs(s: seq<byte>, key: bool) returns (t: Text)
    requires SkipTrivia(s) == Some(s) && Solid(s) && ReadString(s, key).Some?
    ensures var r := ReadString(s, key).value;
            && GoodText(t, key) && s == TextThen(t, r.rest) && Stops(t, r.rest)
            && r.value == (if key then KeyOf(t) else [])
  {
    hide SkipTrivia, Utf8.Valid, GoodInner, InnerThen, InnerMeaning, ReadQuoted, BareLength;
    if At(s, QUOTE) {
      var inner := InnerIs(s[1..], [], [], key);
      assert [] + s[1..] == s[1..] && s == [QUOTE] + s[1..];
      t := Quoted(inner);
      if key {
        assert [] + InnerMeaning(inner, true) == InnerMeaning(inner, true);
      }
    } else {
      var n := BareLength(s);
      BareIs(s);
      t := Bare(s[..n]);
      assert s == s[..n] + s[n..];
    }
  }

  lemma {:induction false} DataIs(s: seq<byte>, even: bool) returns (body: seq<byte>)
    requires ReadData(s, even).Some?
    ensures GoodData(body, even) && s == body + ([GREATER_THAN] + ReadData(s, even).value)
    decreases |s|
  {
    assert s == [s[0]] + s[1..];
    if s[0] == GREATER_THAN && even {
      body := [];
      assert [] + s == s;
    } else {
      var more := DataIs(s[1..], if HexDigit(s[0]) then !even else even);
      body := [s[0]] + more;
      assert body[1..] == more;
    }
  }

  // ---- Values ----------------------------------------------------------

  /** A value may be followed by whatever the reader accepts after it. */
  predicate StopsValue(v: Value, rest: seq<byte>) {
    v.Word? ==> Stops(v.text, rest)
  }

  lemma SpaceAfter(v: Value, after: Trivia, rest: seq<byte>)
    requires GoodTrivia(after) && StopsValue(v, TriviaThen(after, rest))
    ensures AfterValue(v, after)
  {
  }

  lemma {:induction false} ValueIs(s: seq<byte>, depth: nat, nodes: nat) returns (v: Value)
    requires ReadValue(s, depth, nodes).Some?
    ensures var p := ReadValue(s, depth, nodes).value;
            && GoodValue(v) && s == ValueThen(v, p.rest) && StopsValue(v, p.rest)
            && Shallow(v, depth) && p.nodes == nodes + Nodes(v) <= NODE_CAP
    decreases |s|, 2
  {
    hide SkipTrivia, ReadString, ReadEntries, ReadArray, ReadData, GoodTrivia, GoodItems, GoodEntries, GoodText, Solid;
    hide TriviaThen;
    var t := SkipTrivia(s).value;
    var before := TriviaBefore(s);
    if t[0] == OPEN_BRACE {
      var entries := EntriesIs(t[1..], depth, nodes + 2, {});
      assert t == [OPEN_BRACE] + t[1..];
      v := Table(before, entries);
    } else if t[0] == OPEN_PAREN {
      var items := ItemsIs(t[1..], depth, nodes + 1);
      assert t == [OPEN_PAREN] + t[1..];
      v := List(before, items);
    } else if t[0] == LESS_THAN {
      var body := DataIs(t[1..], true);
      assert t == [LESS_THAN] + t[1..];
      v := Data(before, body);
    } else {
      var text := TextIs(t, false);
      v := Word(before, text);
    }
  }

  lemma {:induction false} ItemsIs(s: seq<byte>, depth: nat, nodes: nat) returns (items: Items)
    requires ReadArray(s, depth, nodes).Some? && nodes <= NODE_CAP
    ensures var p := ReadArray(s, depth, nodes).value;
            && GoodItems(items) && s == ItemsThen(items, p.rest)
            && ShallowItems(items, depth + 1) && p.nodes == nodes + ItemNodes(items) <= NODE_CAP
    decreases |s|, 4
  {
    hide SkipTrivia, ReadValue, GoodTrivia, GoodValue, Solid, TriviaThen, ValueThen, Shallow, Nodes, StopsValue,
         AfterValue;
    var t := SkipTrivia(s).value;
    if At(t, CLOSE_PAREN) {
      var end := TriviaBefore(s);
      assert t == [CLOSE_PAREN] + t[1..];
      items := NoItems(end);
    } else {
      ElementIsValue(s, depth, nodes);
      var v := ValueIs(s, depth + 1, nodes);
      var p := ReadValue(s, depth + 1, nodes).value;
      var w := SkipTrivia(p.rest).value;
      var after := TriviaBefore(p.rest);
      SpaceAfter(v, after, w);
      if At(w, CLOSE_PAREN) {
        assert w == [CLOSE_PAREN] + w[1..];
        items := LastItem(v, after);
      } else {
        assert w == [COMMA] + w[1..];
        var more := ItemsIs(w[1..], depth, p.nodes);
        items := Item(v, after, more);
      }
    }
  }

  /** The element is read from after the trivia that belongs to it. */
  lemma ElementIsValue(s: seq<byte>, depth: nat, nodes: nat)
    requires SkipTrivia(s).Some? && ReadElements(SkipTrivia(s).value, depth, nodes).Some?
    ensures var t := SkipTrivia(s).value;
            ReadValue(s, depth + 1, nodes) == ReadValue(t, depth + 1, nodes)
  {
    hide SkipTrivia, ReadValue;
    var t := SkipTrivia(s).value;
    var before, comment := TriviaIs(s);
    ReadValueSkips(s, t, depth + 1, nodes);
  }

  lemma {:induction false} EntriesIs(s: seq<byte>, depth: nat, nodes: nat, keys: set<Key>) returns (entries: Entries)
    requires ReadEntries(s, depth, nodes, keys).Some? && nodes <= NODE_CAP
    ensures var f := ReadEntries(s, depth, nodes, keys).value;
            && GoodEntries(entries) && s == EntriesThen(entries, f.rest)
            && ShallowEntries(entries, depth + 1) && f.nodes == nodes + EntryNodes(entries) <= NODE_CAP
            && keys !! KeysOf(entries) && f.keys == keys + KeysOf(entries)
    decreases |s|, 0
  {
    hide SkipTrivia, ReadString, ReadValue, GoodTrivia, GoodValue, GoodText, Solid, TriviaThen, TextThen, ValueThen;
    hide Shallow, Nodes, StopsValue, Stops, AfterValue, After, KeyOf;
    var t := SkipTrivia(s).value;
    if At(t, CLOSE_BRACE) {
      var end := TriviaBefore(s);
      assert t == [CLOSE_BRACE] + t[1..];
      entries := NoEntries(end);
      assert keys + {} == keys;
    } else {
      var r := ReadString(t, true).value;
      NotEmpty(t);
      var before := TriviaBefore(s);
      var key := TextIs(t, true);
      var u := SkipTrivia(r.rest).value;
      var afterKey := TriviaBefore(r.rest);
      SpaceAfter(Word([], key), afterKey, u);
      KeyStops(key, r.rest, afterKey, u);
      assert u == [EQUALS] + u[1..];
      var v := ValueIs(u[1..], depth + 1, nodes);
      var p := ReadValue(u[1..], depth + 1, nodes).value;
      var w := SkipTrivia(p.rest).value;
      var afterValue := TriviaBefore(p.rest);
      SpaceAfter(v, afterValue, w);
      assert w == [SEMICOLON] + w[1..];
      var more := EntriesIs(w[1..], depth, p.nodes, keys + {r.value});
      entries := Entry(before, key, afterKey, v, afterValue, more);
      assert keys + {r.value} + KeysOf(more) == keys + ({r.value} + KeysOf(more));
    }
  }

  lemma NotEmpty(t: seq<byte>)
    requires ReadString(t, true).Some?
    ensures t != []
  {
    hide SkipTrivia, Utf8.Valid;
  }

  lemma KeyStops(key: Text, rest: seq<byte>, after: Trivia, u: seq<byte>)
    requires Stops(key, rest) && rest == TriviaThen(after, u) && GoodTrivia(after)
    ensures After(key, after)
  {
  }

  /** The texts the reader accepts are exactly the printed documents, and the keys
      it returns those of their top-level entries. */
  lemma AcceptedExactlyPrinted(bytes: seq<byte>, keys: set<Key>)
    ensures ReadRoot(bytes) == Some(keys) <==>
            exists d :: GoodDocument(d) && Print(d) == bytes && KeysOf(d.entries) == keys
  {
    hide ReadRoot, Print, KeysOf, GoodEntries;
    if ReadRoot(bytes) == Some(keys) {
      var d := DocumentIs(bytes);
    }
    if d :| GoodDocument(d) && Print(d) == bytes && KeysOf(d.entries) == keys {
      PrintedDocumentReads(d);
    }
  }

  lemma DocumentIs(bytes: seq<byte>) returns (d: Document)
    requires ReadRoot(bytes).Some?
    ensures GoodDocument(d) && Print(d) == bytes && ReadRoot(bytes) == Some(KeysOf(d.entries))
  {
    hide SkipTrivia, ReadEntries, GoodTrivia, GoodEntries, KeysOf, TriviaThen, EntriesThen, ShallowEntries,
         EntryNodes, Solid;
    var s := SkipTrivia(bytes).value;
    var before := TriviaBefore(bytes);
    assert s == [OPEN_BRACE] + s[1..];
    var entries := EntriesIs(s[1..], 0, 1, {});
    var found := ReadEntries(s[1..], 0, 1, {}).value;
    var after, comment := TriviaIs(found.rest);
    assert LastComment(comment) + [] == LastComment(comment);
    d := Document(before, entries, after, comment);
    assert {} + KeysOf(entries) == KeysOf(entries);
  }
}
